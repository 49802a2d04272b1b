/**
 * The movie player of the Toltecs engine: the two run-length decoders
 * for frames and palettes, the audio prefetch over the chunk stream, the
 * chunk-buffer growth rule and the subtitle colour nibble swap.
 *
 * Both decoders read the source two bytes at a time: a pair (0, n) moves
 * the destination forward by n without writing, a pair (a, v) with a != 0
 * writes a copies of v. They stop once the destination has moved by at
 * least a limit, so they are one decoder, `Run`, with two limits.
 */
module ToltecsMovie {
  import opened Wrappers

  type Byte = b: int | 0 <= b < 256

  const FRAME_WIDTH := 640
  const FRAME_HEIGHT := 400
  /** Bytes of one decoded frame (640 x 400). */
  const FRAME_SIZE := 256000
  const PALETTE_ENTRIES := 256
  const PALETTE_ENTRY_SIZE := 3
  /** The movie palette buffer, 256 entries of 3 bytes. */
  const PALETTE_BYTES := 768

  /** Chunk type tags of the movie stream. */
  const CHUNK_FIRST_IMAGE := 0
  const CHUNK_SUBSEQUENT_IMAGES := 1
  const CHUNK_PALETTE := 2
  const CHUNK_AUDIO := 4
  /** A chunk header is a type byte and a little-endian 32-bit size. */
  const CHUNK_HEADER_SIZE := 5

  // ---------------------------------------------------------------------
  // Run-length decoding
  // ---------------------------------------------------------------------

  /** Where one decoding ended: the destination bytes, how far the
   *  destination moved and the source position after the last pair. */
  datatype Decoded = Decoded(dst: seq<Byte>, ofs: nat, next: nat)

  /** `dst` with `len` copies of `value` written from `at` on. */
  function Fill(dst: seq<Byte>, at: nat, len: nat, value: Byte): (r: seq<Byte>)
    requires at + len <= |dst|
    ensures |r| == |dst|
    ensures forall i :: 0 <= i < |r| ==> r[i] == if at <= i < at + len then value else dst[i]
  {
    dst[..at] + seq(len, _ => value) + dst[at + len..]
  }

  /**
   * The decoder from source position `p` with the destination already
   * moved by `ofs`, stopping once it has moved by at least `limit`.
   * None means the decoder would read past the end of the source or
   * write past the end of the destination.
   */
  function Run(src: seq<Byte>, p: nat, ofs: nat, limit: int, dst: seq<Byte>): (r: Option<Decoded>)
    requires p <= |src|
    decreases |src| - p
    ensures r.Some? ==> |r.value.dst| == |dst| && p <= r.value.next <= |src| && (r.value.next - p) % 2 == 0
    ensures r.Some? && ofs < limit ==> limit <= r.value.ofs < limit + 255
    ensures ofs >= limit ==> r == Some(Decoded(dst, ofs, p))
  {
    if ofs >= limit then Some(Decoded(dst, ofs, p))
    else if |src| - p < 2 then None
    else if src[p] == 0 then Run(src, p + 2, ofs + src[p + 1], limit, dst)
    else if ofs + src[p] > |dst| then None
    else Run(src, p + 2, ofs + src[p], limit, Fill(dst, ofs, src[p], src[p + 1]))
  }

  /** One step of a decoding that has not reached its limit and succeeds:
   *  the pair is there, a run fits the destination, and the rest of the
   *  decoding continues from the next pair. */
  lemma RunStep(src: seq<Byte>, p: nat, ofs: nat, limit: int, dst: seq<Byte>)
    requires p <= |src| && ofs < limit
    requires Run(src, p, ofs, limit, dst).Some?
    ensures p + 2 <= |src|
    ensures src[p] == 0 ==> Run(src, p, ofs, limit, dst) == Run(src, p + 2, ofs + src[p + 1], limit, dst)
    ensures src[p] != 0 ==> (ofs + src[p] <= |dst|
        && Run(src, p, ofs, limit, dst) == Run(src, p + 2, ofs + src[p], limit, Fill(dst, ofs, src[p], src[p + 1])))
  {
  }

  /** The destination positions a decoding writes. */
  ghost function Touched(src: seq<Byte>, p: nat, ofs: nat, limit: int): set<int>
    requires p <= |src|
    decreases |src| - p
  {
    if ofs >= limit || |src| - p < 2 then {}
    else if src[p] == 0 then Touched(src, p + 2, ofs + src[p + 1], limit)
    else Span(ofs, src[p]) + Touched(src, p + 2, ofs + src[p], limit)
  }

  /** The positions from `at` on, `len` of them. */
  function Span(at: nat, len: nat): (s: set<int>)
    ensures forall i :: i in s <==> at <= i < at + len
    decreases len
  {
    if len == 0 then {} else {at} + Span(at + 1, len - 1)
  }

  /** A decoding writes only inside the stretch the destination moved over,
   *  and every byte it does not write keeps its value. */
  lemma {:induction false} RunFrame(src: seq<Byte>, p: nat, ofs: nat, limit: int, dst: seq<Byte>)
    requires p <= |src|
    requires Run(src, p, ofs, limit, dst).Some?
    ensures var r := Run(src, p, ofs, limit, dst).value;
            && (forall i :: i in Touched(src, p, ofs, limit) ==> ofs <= i < r.ofs && i < |dst|)
            && (forall i :: 0 <= i < |dst| && i !in Touched(src, p, ofs, limit) ==> r.dst[i] == dst[i])
    decreases |src| - p
  {
    if ofs < limit {
      RunStep(src, p, ofs, limit, dst);
      if src[p] == 0 {
        RunFrame(src, p + 2, ofs + src[p + 1], limit, dst);
      } else {
        RunFrame(src, p + 2, ofs + src[p], limit, Fill(dst, ofs, src[p], src[p + 1]));
      }
    }
  }

  /** A source made only of (0, 0) pairs never reaches the limit: the
   *  decoder runs off the end of its input. */
  lemma {:induction false} ZeroPairsNeverFinish(src: seq<Byte>, p: nat, ofs: nat, limit: int, dst: seq<Byte>)
    requires p <= |src|
    requires forall j :: p <= j < |src| ==> src[j] == 0
    requires ofs < limit
    ensures Run(src, p, ofs, limit, dst) == None
    decreases |src| - p
  {
    if |src| - p >= 2 {
      ZeroPairsNeverFinish(src, p + 2, ofs, limit, dst);
    }
  }

  /** Length of the run of equal bytes that starts `pix`, at most 255. */
  function RunLength(pix: seq<Byte>, k: nat): (n: nat)
    requires 1 <= k <= |pix| && k <= 255
    requires forall i :: 0 <= i < k ==> pix[i] == pix[0]
    ensures k <= n <= |pix| && n <= 255
    ensures forall i :: 0 <= i < n ==> pix[i] == pix[0]
    decreases |pix| - k
  {
    if k < |pix| && k < 255 && pix[k] == pix[0] then RunLength(pix, k + 1) else k
  }

  /** A run-length encoding of `pix` in the decoders' format: maximal
   *  runs of at most 255 equal bytes. */
  function Encode(pix: seq<Byte>): (e: seq<Byte>)
    decreases |pix|
  {
    if pix == [] then []
    else
      var n := RunLength(pix, 1);
      [n as Byte, pix[0]] + Encode(pix[n..])
  }

  /** Decoding an encoding writes exactly the encoded bytes at the
   *  destination offset, leaves the rest alone and consumes all input. */
  lemma {:induction false} DecodeEncoded(src: seq<Byte>, p: nat, pix: seq<Byte>, ofs: nat, dst: seq<Byte>)
    requires p <= |src| && src[p..] == Encode(pix)
    requires ofs + |pix| <= |dst|
    ensures Run(src, p, ofs, ofs + |pix|, dst) == Some(Decoded(dst[..ofs] + pix + dst[ofs + |pix|..], ofs + |pix|, |src|))
    decreases |pix|
  {
    if pix == [] {
      assert dst[..ofs] + pix + dst[ofs..] == dst;
    } else {
      var n := RunLength(pix, 1);
      var filled := Fill(dst, ofs, n, pix[0]);
      EncodedStep(src, p, pix, ofs, dst);
      DecodeEncoded(src, p + 2, pix[n..], ofs + n, filled);
      FillThenRest(dst, ofs, pix, n);
    }
  }

  /** The first pair of an encoding writes its first run. */
  lemma EncodedStep(src: seq<Byte>, p: nat, pix: seq<Byte>, ofs: nat, dst: seq<Byte>)
    requires p <= |src| && src[p..] == Encode(pix) && pix != []
    requires ofs + |pix| <= |dst|
    ensures var n := RunLength(pix, 1);
            && p + 2 <= |src| && src[p + 2..] == Encode(pix[n..])
            && Run(src, p, ofs, ofs + |pix|, dst) == Run(src, p + 2, ofs + n, ofs + |pix|, Fill(dst, ofs, n, pix[0]))
  {
    var n := RunLength(pix, 1);
    assert src[p] == n && src[p + 1] == pix[0] by {
      assert src[p..][0] == n && src[p..][1] == pix[0];
    }
    assert src[p + 2..] == src[p..][2..];
  }

  /** Writing the first run of `pix` and then the rest of `pix` after it
   *  is writing `pix`. */
  lemma FillThenRest(dst: seq<Byte>, ofs: nat, pix: seq<Byte>, n: nat)
    requires 1 <= n <= |pix| && ofs + |pix| <= |dst|
    requires forall i :: 0 <= i < n ==> pix[i] == pix[0]
    ensures var filled := Fill(dst, ofs, n, pix[0]);
            filled[..ofs + n] + pix[n..] + filled[ofs + |pix|..] == dst[..ofs] + pix + dst[ofs + |pix|..]
  {
    var filled := Fill(dst, ofs, n, pix[0]);
    assert filled[..ofs + n] == dst[..ofs] + pix[..n];
    assert filled[ofs + |pix|..] == dst[ofs + |pix|..];
    assert pix[..n] + pix[n..] == pix;
    Associate(dst[..ofs], pix[..n], pix[n..]);
  }

  lemma Associate(a: seq<Byte>, b: seq<Byte>, c: seq<Byte>)
    ensures a + (b + c) == (a + b) + c
  {
  }

  /** Any full frame has an encoding that the frame decoder accepts on a
   *  frame-sized screen and that reproduces the frame. */
  lemma FrameRoundTrip(frame: seq<Byte>, screen: seq<Byte>)
    requires |frame| == FRAME_SIZE && |screen| == FRAME_SIZE
    ensures Run(Encode(frame), 0, 0, FRAME_SIZE, screen) == Some(Decoded(frame, FRAME_SIZE, |Encode(frame)|))
  {
    DecodeEncoded(Encode(frame), 0, frame, 0, screen);
    assert screen[..0] + frame + screen[FRAME_SIZE..] == frame;
  }

  /** The first palette of a movie is decoded into a zeroed buffer, so a
   *  byte the palette data only skips over stays zero. */
  lemma FirstPaletteSkippedStaysZero(src: seq<Byte>, i: int)
    requires Run(src, 0, 0, PALETTE_ENTRIES * PALETTE_ENTRY_SIZE, seq(PALETTE_BYTES, _ => 0)).Some?
    requires 0 <= i < PALETTE_BYTES && i !in Touched(src, 0, 0, PALETTE_ENTRIES * PALETTE_ENTRY_SIZE)
    ensures Run(src, 0, 0, PALETTE_ENTRIES * PALETTE_ENTRY_SIZE, seq(PALETTE_BYTES, _ => 0)).value.dst[i] == 0
  {
    RunFrame(src, 0, 0, PALETTE_ENTRIES * PALETTE_ENTRY_SIZE, seq(PALETTE_BYTES, _ => 0));
  }

  /** Writes `len` copies of `value` into `dest` from `at` on. */
  method Memset(dest: array<Byte>, at: nat, value: Byte, len: nat)
    requires at + len <= dest.Length
    modifies dest
    ensures dest[..] == Fill(old(dest[..]), at, len, value)
  {
    forall i | at <= i < at + len {
      dest[i] := value;
    }
  }

  /** Decodes `elemCount * elemSize` palette bytes; a length byte 0 is
   *  followed by a skip count, any other by the value to repeat. */
  method UnpackPalette(src: seq<Byte>, dest: array<Byte>, elemCount: int, elemSize: int)
    requires Run(src, 0, 0, elemCount * elemSize, dest[..]).Some?
    modifies dest
    ensures dest[..] == Run(src, 0, 0, elemCount * elemSize, old(dest[..])).value.dst
  {
    var p, ofs: nat := 0, 0;
    var size := elemCount * elemSize;
    ghost var whole := Run(src, 0, 0, size, dest[..]);
    while ofs < size
      invariant p <= |src|
      invariant Run(src, p, ofs, size, dest[..]) == whole
      decreases |src| - p
    {
      RunStep(src, p, ofs, size, dest[..]);
      var len := src[p];
      p := p + 1;
      if len == 0 {
        len := src[p];
        p := p + 1;
      } else {
        var value := src[p];
        p := p + 1;
        Memset(dest, ofs, value, len);
      }
      ofs := ofs + len;
    }
  }

  /** Decodes one 640 x 400 frame into `dest`; the remaining size counts
   *  down by each pair's length until it is no longer positive. */
  method UnpackRle(src: seq<Byte>, dest: array<Byte>)
    requires Run(src, 0, 0, FRAME_SIZE, dest[..]).Some?
    modifies dest
    ensures dest[..] == Run(src, 0, 0, FRAME_SIZE, old(dest[..])).value.dst
  {
    var p, at: nat := 0, 0;
    var size := FRAME_SIZE;
    ghost var whole := Run(src, 0, 0, FRAME_SIZE, dest[..]);
    while size > 0
      invariant p <= |src|
      invariant at + size == FRAME_SIZE
      invariant Run(src, p, at, FRAME_SIZE, dest[..]) == whole
      decreases |src| - p
    {
      RunStep(src, p, at, FRAME_SIZE, dest[..]);
      var a := src[p];
      var b := src[p + 1];
      p := p + 2;
      if a == 0 {
        at := at + b;
        size := size - b;
      } else {
        Memset(dest, at, b, a);
        at := at + a;
        size := size - a;
      }
    }
  }

  // ---------------------------------------------------------------------
  // Subtitle colour
  // ---------------------------------------------------------------------

  /** The subtitle colour byte with its two nibbles exchanged. */
  function SwapNibbles(c: bv8): (r: bv8)
    ensures r >> 4 == c & 0x0F && r & 0x0F == c >> 4
  {
    ((c << 4) & 0xF0) | ((c >> 4) & 0x0F)
  }

  /** Swapping the nibbles twice gives the colour back. */
  lemma SwapNibblesTwice(c: bv8)
    ensures SwapNibbles(SwapNibbles(c)) == c
  {
  }

  // ---------------------------------------------------------------------
  // Chunk buffer
  // ---------------------------------------------------------------------

  /** The header of one chunk of the movie stream. */
  datatype Chunk = Chunk(kind: Byte, size: nat)

  /** The largest non-audio chunk of `chunks`, or 0 when there is none. */
  function MaxNonAudio(chunks: seq<Chunk>): (m: nat)
    ensures forall i :: 0 <= i < |chunks| && chunks[i].kind != CHUNK_AUDIO ==> chunks[i].size <= m
    ensures m == 0 || exists i :: 0 <= i < |chunks| && chunks[i].kind != CHUNK_AUDIO && chunks[i].size == m
    decreases |chunks|
  {
    if chunks == [] then 0
    else
      var m := MaxNonAudio(chunks[..|chunks| - 1]);
      var c := chunks[|chunks| - 1];
      if c.kind != CHUNK_AUDIO && c.size > m then c.size else m
  }

  /**
   * The chunk-buffer sizes over a movie's chunk sequence: audio chunks
   * are skipped, and the buffer is reallocated only for a non-audio chunk
   * larger than it. Returns the final capacity.
   */
  method ChunkBufferCapacity(chunks: seq<Chunk>) returns (capacity: nat)
    ensures capacity == MaxNonAudio(chunks)
  {
    capacity := 0;
    for i := 0 to |chunks|
      invariant capacity == MaxNonAudio(chunks[..i])
    {
      var c := chunks[i];
      if c.kind != CHUNK_AUDIO {
        if c.size > capacity {
          capacity := c.size;
        }
        assert c.size <= capacity;
      }
      assert chunks[..i + 1][..i] == chunks[..i];
    }
    assert chunks[..|chunks|] == chunks;
  }

  // ---------------------------------------------------------------------
  // Audio prefetch
  // ---------------------------------------------------------------------

  /** An audio payload queued for playback: its stream offset and size. */
  datatype Piece = Piece(ofs: nat, size: nat)

  /** From offset `p` on, the stream is a run of chunks up to `endPos`. */
  predicate Chunked(headers: map<nat, Chunk>, p: nat, endPos: nat)
    decreases endPos - p
  {
    p >= endPos || (p in headers && Chunked(headers, p + CHUNK_HEADER_SIZE + headers[p].size, endPos))
  }

  /** The payload of the audio chunk whose header is at `p`. */
  predicate IsAudioPayload(headers: map<nat, Chunk>, x: Piece)
  {
    x.ofs >= CHUNK_HEADER_SIZE && x.ofs - CHUNK_HEADER_SIZE in headers
    && headers[x.ofs - CHUNK_HEADER_SIZE] == Chunk(CHUNK_AUDIO, x.size)
  }

  /**
   * The prefetch from offset `p`: queue the next `budget` audio chunks,
   * skipping all others, and stop early at `endPos`. Returns the queued
   * payloads and the offset where it stopped.
   */
  function Prefetch(headers: map<nat, Chunk>, p: nat, endPos: nat, budget: nat): (r: (seq<Piece>, nat))
    requires Chunked(headers, p, endPos)
    ensures |r.0| <= budget && p <= r.1 && Chunked(headers, r.1, endPos)
    ensures r.1 < endPos ==> |r.0| == budget
    decreases endPos - p
  {
    if budget == 0 || p >= endPos then ([], p)
    else
      var c := headers[p];
      var next := p + CHUNK_HEADER_SIZE + c.size;
      if c.kind == CHUNK_AUDIO then
        var rest := Prefetch(headers, next, endPos, budget - 1);
        ([Piece(p + CHUNK_HEADER_SIZE, c.size)] + rest.0, rest.1)
      else Prefetch(headers, next, endPos, budget)
  }

  /** A prefetch queues only audio payloads, each taken from the chunk
   *  header just before it. */
  lemma {:induction false} PrefetchQueuesAudioOnly(headers: map<nat, Chunk>, p: nat, endPos: nat, budget: nat)
    requires Chunked(headers, p, endPos)
    ensures forall x :: x in Prefetch(headers, p, endPos, budget).0 ==> IsAudioPayload(headers, x)
    decreases endPos - p
  {
    if budget != 0 && p < endPos {
      var c := headers[p];
      var next := p + CHUNK_HEADER_SIZE + c.size;
      if c.kind == CHUNK_AUDIO {
        PrefetchQueuesAudioOnly(headers, next, endPos, budget - 1);
      } else {
        PrefetchQueuesAudioOnly(headers, next, endPos, budget);
      }
    }
  }

  /** One chunk of a prefetch that has budget left and has not reached the end. */
  lemma PrefetchStep(headers: map<nat, Chunk>, p: nat, endPos: nat, budget: nat)
    requires Chunked(headers, p, endPos) && budget > 0 && p < endPos
    ensures p in headers
    ensures var c := headers[p];
            var next := p + CHUNK_HEADER_SIZE + c.size;
            && Chunked(headers, next, endPos)
            && (c.kind == CHUNK_AUDIO ==>
                  Prefetch(headers, p, endPos, budget)
                  == ([Piece(p + CHUNK_HEADER_SIZE, c.size)] + Prefetch(headers, next, endPos, budget - 1).0,
                      Prefetch(headers, next, endPos, budget - 1).1))
            && (c.kind != CHUNK_AUDIO ==> Prefetch(headers, p, endPos, budget) == Prefetch(headers, next, endPos, budget))
  {
  }

  lemma AppendPiece(q: seq<Piece>, x: Piece, rest: seq<Piece>)
    ensures q + ([x] + rest) == (q + [x]) + rest
  {
  }

  /** Prefetching m and then n chunks from where the first stopped queues
   *  the same payloads as prefetching m + n at once. */
  lemma {:induction false} PrefetchSplits(headers: map<nat, Chunk>, p: nat, endPos: nat, m: nat, n: nat)
    requires Chunked(headers, p, endPos)
    ensures var first := Prefetch(headers, p, endPos, m);
            var second := Prefetch(headers, first.1, endPos, n);
            Prefetch(headers, p, endPos, m + n) == (first.0 + second.0, second.1)
    decreases endPos - p
  {
    if m != 0 && p < endPos {
      var c := headers[p];
      var next := p + CHUNK_HEADER_SIZE + c.size;
      if c.kind == CHUNK_AUDIO {
        PrefetchSplits(headers, next, endPos, m - 1, n);
        assert m + n - 1 == (m - 1) + n;
        var first := Prefetch(headers, next, endPos, m - 1);
        var second := Prefetch(headers, first.1, endPos, n);
        assert [Piece(p + CHUNK_HEADER_SIZE, c.size)] + (first.0 + second.0)
            == ([Piece(p + CHUNK_HEADER_SIZE, c.size)] + first.0) + second.0;
      } else {
        PrefetchSplits(headers, next, endPos, m, n);
      }
    } else {
      var second := Prefetch(headers, p, endPos, n);
      assert [] + second.0 == second.0;
    }
  }

  /**
   * The prefetch loop: from offset `from`, read chunk headers until
   * `budget` audio chunks are queued or `endPos` is reached, queueing each
   * audio payload and skipping every other chunk.
   */
  method ReadAudioChunks(headers: map<nat, Chunk>, endPos: nat, from: nat, budget: nat)
    returns (queued: seq<Piece>, stop: nat)
    requires Chunked(headers, from, endPos)
    ensures (queued, stop) == Prefetch(headers, from, endPos, budget)
  {
    var pos := from;
    var prefetchChunkCount := 0;
    queued := [];
    ghost var whole := Prefetch(headers, from, endPos, budget);
    while prefetchChunkCount < budget && pos < endPos
      invariant prefetchChunkCount <= budget
      invariant Chunked(headers, pos, endPos)
      invariant queued + Prefetch(headers, pos, endPos, budget - prefetchChunkCount).0 == whole.0
      invariant Prefetch(headers, pos, endPos, budget - prefetchChunkCount).1 == whole.1
      decreases endPos - pos
    {
      ghost var before, at, left := queued, pos, budget - prefetchChunkCount;
      PrefetchStep(headers, at, endPos, left);
      var chunk := headers[pos];
      pos := pos + CHUNK_HEADER_SIZE;
      if chunk.kind == CHUNK_AUDIO {
        queued := queued + [Piece(pos, chunk.size)];
        pos := pos + chunk.size;
        prefetchChunkCount := prefetchChunkCount + 1;
        AppendPiece(before, Piece(at + CHUNK_HEADER_SIZE, chunk.size), Prefetch(headers, pos, endPos, left - 1).0);
      } else {
        pos := pos + chunk.size;
      }
    }
    assert queued == whole.0;
    stop := pos;
  }

  /** The movie player's prefetch state over an open movie resource. */
  class MoviePlayer {
    /** The chunk header at each chunk offset of the resource. */
    const headers: map<nat, Chunk>
    /** The offset just past the movie resource. */
    const endPos: nat
    const framesPerSoundChunk: nat
    /** The read position of the resource. */
    var pos: nat
    /** Where the last prefetch stopped; 0 before the first one. */
    var lastPrefetchOfs: nat
    /** The payloads queued for playback, oldest first. */
    var audioQueue: seq<Piece>

    constructor(headers: map<nat, Chunk>, endPos: nat, framesPerSoundChunk: nat, pos: nat)
      ensures this.headers == headers && this.endPos == endPos
      ensures this.framesPerSoundChunk == framesPerSoundChunk && this.pos == pos
      ensures lastPrefetchOfs == 0 && audioQueue == []
    {
      this.headers := headers;
      this.endPos := endPos;
      this.framesPerSoundChunk := framesPerSoundChunk;
      this.pos := pos;
      lastPrefetchOfs := 0;
      audioQueue := [];
    }

    /** Where the next prefetch starts reading. */
    function PrefetchStart(): nat
      reads this`lastPrefetchOfs, this`pos
    {
      if lastPrefetchOfs != 0 then lastPrefetchOfs else pos
    }

    /**
     * Queues up to framesPerSoundChunk / 2 audio chunks, resuming where
     * the previous prefetch stopped, records where it stopped and puts
     * the read position back.
     */
    method FetchAudioChunks()
      requires Chunked(headers, PrefetchStart(), endPos)
      modifies this`pos, this`lastPrefetchOfs, this`audioQueue
      ensures var r := Prefetch(headers, old(PrefetchStart()), endPos, framesPerSoundChunk / 2);
              audioQueue == old(audioQueue) + r.0 && lastPrefetchOfs == r.1
      ensures pos == old(pos)
      ensures Chunked(headers, lastPrefetchOfs, endPos)
    {
      var startOfs := pos;
      if lastPrefetchOfs != 0 {
        pos := lastPrefetchOfs;
      }
      var queued, stop := ReadAudioChunks(headers, endPos, pos, framesPerSoundChunk / 2);
      audioQueue := audioQueue + queued;
      lastPrefetchOfs := stop;
      pos := startOfs;
    }
  }
}
