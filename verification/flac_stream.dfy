/**
 * The FLAC pull adapter: libFLAC pushes decoded blocks into a write callback,
 * and the adapter turns them into a pull interface, `ReadBuffer(buf, n)`.
 * Samples that do not fit the caller's buffer wait in a sample cache.
 *
 * libFLAC itself is abstract here. The decoder is a queue of decoded blocks
 * (`pending`) and a decoder state. `ProcessSingleBlock` hands the next block
 * to the write callback, and once the queue is empty it moves the decoder to
 * `endState` (end of stream, or an error).
 *
 * `Stream()` is everything a reader will still receive: the cache contents,
 * then the converted and clipped output of the blocks still queued. The main
 * property is that `ReadBuffer` returns a prefix of `Stream()`: the buffer
 * holds that prefix, and `Stream()` loses exactly it.
 */
module FlacStream {
  import opened Wrappers
  import FC = FlacConvert

  type int16 = FC.int16

  /** The adapter never outputs more than two channels. */
  const MAX_OUTPUT_CHANNELS: nat := 2

  /** Size of the sample cache in the source (counted in `int16` samples, not in frames). */
  const BUFFER_SIZE: nat := 65536

  /** Cache size used by this model: room for one block of the largest size on every output channel. */
  const CACHE_CAPACITY: nat := BUFFER_SIZE * MAX_OUTPUT_CHANNELS

  /** Largest block size STREAMINFO can announce (a 16-bit field, section 8.2 of RFC 9639). */
  const MAX_BLOCKSIZE: nat := 65535

  /** How a frame header numbers its block (section 9.1 of RFC 9639). */
  datatype NumberType = SampleNumber | FrameNumber

  /**
   * One decoded block: its header's numbering and size, and one planar
   * sample sequence per channel.
   */
  datatype Block = Block(numberType: NumberType, number: nat, blocksize: nat, samples: seq<seq<int>>)

  /** The STREAMINFO fields the adapter uses (section 8.2 of RFC 9639). */
  datatype StreamInfo = StreamInfo(minBlocksize: nat, maxBlocksize: nat, sampleRate: nat,
                                   channels: nat, bitsPerSample: nat, totalSamples: nat)

  /** The zero-filled STREAMINFO the adapter starts with. */
  const NO_INFO: StreamInfo := StreamInfo(0, 0, 0, 0, 0, 0)

  /** libFLAC's decoder states. */
  datatype DecoderState =
    | SearchForMetadata | ReadMetadata | SearchForFrameSync | ReadFrame | EndOfStream
    | OggError | SeekError | Aborted | MemoryAllocationError | Uninitialized

  /** The five sample converters. */
  datatype ConvertMethod = Generic | MonoNS | Mono8Bit | StereoNS | Stereo8Bit

  /** The frames of a block that are delivered, and whether the block reached the end. */
  datatype Clipped = Clipped(frames: nat, reachedEnd: bool)

  /**
   * What libFLAC's absolute seek does. On success it may deliver the block
   * holding the target through the write callback, and `rest` is what
   * follows.
   */
  datatype SeekOutcome = SeekFailed | SeekDone(delivered: Option<Block>, rest: seq<Block>)

  /** The status the read callback reports to libFLAC. */
  datatype ReadStatus = ReadContinue | ReadEndOfStream | ReadAbort

  function Min(a: nat, b: nat): (r: nat)
    ensures r <= a && r <= b && (r == a || r == b)
  {
    if a < b then a else b
  }

  /** Output channel count: the stream's channels, at most two. */
  function OutputChannels(channels: nat): (r: nat)
    ensures r <= MAX_OUTPUT_CHANNELS
    ensures r == channels <==> channels <= MAX_OUTPUT_CHANNELS
    ensures channels > MAX_OUTPUT_CHANNELS ==> r == MAX_OUTPUT_CHANNELS
    ensures r == 0 <==> channels == 0
  {
    if channels < MAX_OUTPUT_CHANNELS then channels else MAX_OUTPUT_CHANNELS
  }

  /** STREAMINFO as the adapter relies on it: 1 to 8 channels, 4 to 32 bits, 16-bit block sizes. */
  predicate WellFormedInfo(info: StreamInfo)
  {
    && 1 <= info.channels <= 8
    && 4 <= info.bitsPerSample <= 32
    && info.maxBlocksize <= MAX_BLOCKSIZE
  }

  /**
   * The converter chosen for `nch` output channels of `bits` bits: a fast
   * path for mono or stereo with 8 or 16 bits, the generic one otherwise.
   */
  function BestMethod(nch: nat, bits: nat): (m: ConvertMethod)
    ensures m == MonoNS <==> nch == 1 && bits == FC.BUFTYPE_BITS
    ensures m == Mono8Bit <==> nch == 1 && bits == 8
    ensures m == StereoNS <==> nch == 2 && bits == FC.BUFTYPE_BITS
    ensures m == Stereo8Bit <==> nch == 2 && bits == 8
    ensures m == Generic <==> !((nch == 1 || nch == 2) && (bits == 8 || bits == FC.BUFTYPE_BITS))
  {
    var m := Generic;
    if nch == 1 then
      (if bits == FC.BUFTYPE_BITS then MonoNS else if bits == 8 then Mono8Bit else m)
    else if nch == 2 then
      (if bits == FC.BUFTYPE_BITS then StereoNS else if bits == 8 then Stereo8Bit else m)
    else m
  }

  /** The shapes each converter is written for. */
  predicate Applicable(m: ConvertMethod, nch: nat, bits: nat)
  {
    match m
    case Generic => true
    case MonoNS => nch == 1 && bits == FC.BUFTYPE_BITS
    case Mono8Bit => nch == 1 && bits == 8
    case StereoNS => nch == 2 && bits == FC.BUFTYPE_BITS
    case Stereo8Bit => nch == 2 && bits == 8
  }

  lemma BestMethodApplicable(nch: nat, bits: nat)
    ensures Applicable(BestMethod(nch, bits), nch, bits)
  {
  }

  /** Calls the chosen converter. */
  method ConvertBuffers(m: ConvertMethod, dest: array<int16>, at: nat, chans: seq<seq<int>>, cursors: array<nat>,
                        numSamples: nat, numChannels: nat, numBits: nat)
    requires Applicable(m, numChannels, numBits)
    requires FC.ConvertPre(dest, at, chans, cursors, numSamples, numChannels)
    modifies dest, cursors
    ensures FC.WroteAt(dest[..], old(dest[..]), at, FC.Converted(chans, old(cursors[..]), numSamples / numChannels, numChannels, numBits))
    ensures cursors[..] == FC.Advance(old(cursors[..]), numSamples / numChannels, numChannels)
  {
    match m
    case Generic => FC.ConvertGeneric(dest, at, chans, cursors, numSamples, numChannels, numBits);
    case MonoNS => FC.ConvertMonoNS(dest, at, chans, cursors, numSamples, numChannels, numBits);
    case Mono8Bit => FC.ConvertMono8Bit(dest, at, chans, cursors, numSamples, numChannels, numBits);
    case StereoNS => FC.ConvertStereoNS(dest, at, chans, cursors, numSamples, numChannels, numBits);
    case Stereo8Bit => FC.ConvertStereo8Bit(dest, at, chans, cursors, numSamples, numChannels, numBits);
  }

  /** Index of a block's first frame: its sample number, or frame number times the fixed block size. */
  function FirstSample(b: Block, info: StreamInfo): nat
  {
    if b.numberType == SampleNumber then b.number else b.number * info.maxBlocksize
  }

  /**
   * The end-of-stream clip. A block that reaches `lastSample` (one past the
   * index of the last frame to play; 0 for no limit) is cut to the frames
   * before it.
   */
  function Clip(first: nat, blocksize: nat, lastSample: nat): (r: Clipped)
    ensures r.frames <= blocksize
    ensures r.reachedEnd <==> lastSample != 0 && first + blocksize >= lastSample
    ensures !r.reachedEnd ==> r.frames == blocksize
    ensures lastSample != 0 ==> r.frames == 0 || first + r.frames <= lastSample
    ensures r.reachedEnd && first < lastSample ==> first + r.frames == lastSample
  {
    if lastSample != 0 && first + blocksize >= lastSample then
      Clipped(if first >= lastSample then 0 else lastSample - first, true)
    else
      Clipped(blocksize, false)
  }

  /** A block as the write callback accepts it for a stream with this STREAMINFO. */
  predicate BlockFits(b: Block, info: StreamInfo)
  {
    && 1 <= b.blocksize <= MAX_BLOCKSIZE
    && |b.samples| == info.channels
    && (forall c :: 0 <= c < |b.samples| ==> |b.samples[c]| == b.blocksize)
    && (b.numberType == FrameNumber ==> info.minBlocksize == info.maxBlocksize)
  }

  /** The per-channel read cursors of a fresh block: all at its start. */
  function Zeros(n: nat): (r: seq<nat>)
    ensures |r| == n && forall i :: 0 <= i < n ==> r[i] == 0
  {
    seq(n, _ => 0)
  }

  lemma BlockReadable(b: Block, info: StreamInfo, frames: nat)
    requires WellFormedInfo(info) && BlockFits(b, info) && frames <= b.blocksize
    ensures FC.Readable(b.samples, Zeros(OutputChannels(info.channels)), frames, OutputChannels(info.channels))
  {
  }

  /** The interleaved 16-bit output of the first `frames` frames of a block. */
  function BlockOutput(b: Block, info: StreamInfo, frames: nat): (r: seq<int16>)
    requires WellFormedInfo(info) && BlockFits(b, info) && frames <= b.blocksize
    ensures |r| == frames * OutputChannels(info.channels)
  {
    BlockReadable(b, info, frames);
    FC.Converted(b.samples, Zeros(OutputChannels(info.channels)), frames, OutputChannels(info.channels), info.bitsPerSample)
  }

  /** What the clip lets through of one block. */
  function Delivery(b: Block, info: StreamInfo, lastSample: nat): (r: seq<int16>)
    requires WellFormedInfo(info) && BlockFits(b, info)
  {
    BlockOutput(b, info, Clip(FirstSample(b, info), b.blocksize, lastSample).frames)
  }

  /** Every block in `blocks` fits the stream. */
  ghost predicate AllFit(blocks: seq<Block>, info: StreamInfo)
    decreases |blocks|
  {
    blocks == [] || (BlockFits(blocks[0], info) && AllFit(blocks[1..], info))
  }

  /**
   * The output of decoding `blocks` in order: each block's clipped output,
   * stopping after the first block that reaches `lastSample`.
   */
  function Upcoming(blocks: seq<Block>, info: StreamInfo, lastSample: nat): seq<int16>
    requires WellFormedInfo(info) && AllFit(blocks, info)
    decreases |blocks|
  {
    if blocks == [] then []
    else if Clip(FirstSample(blocks[0], info), blocks[0].blocksize, lastSample).reachedEnd then Delivery(blocks[0], info, lastSample)
    else Delivery(blocks[0], info, lastSample) + Upcoming(blocks[1..], info, lastSample)
  }

  /**
   * No frame at or past `lastSample` is ever emitted: the output of `blocks`
   * whose first frames are consecutive from `first` is at most
   * `lastSample - first` frames long.
   */
  lemma {:induction false} UpcomingBounded(blocks: seq<Block>, info: StreamInfo, lastSample: nat, first: nat)
    requires WellFormedInfo(info) && AllFit(blocks, info)
    requires Consecutive(blocks, info, first)
    requires lastSample != 0 && first <= lastSample
    ensures |Upcoming(blocks, info, lastSample)| <= (lastSample - first) * OutputChannels(info.channels)
    decreases |blocks|
  {
    var nch := OutputChannels(info.channels);
    if blocks != [] {
      var b := blocks[0];
      var clip := Clip(first, b.blocksize, lastSample);
      FC.MulLe(clip.frames, lastSample - first, nch);
      if !clip.reachedEnd {
        UpcomingBounded(blocks[1..], info, lastSample, first + b.blocksize);
        assert (lastSample - first) * nch == b.blocksize * nch + (lastSample - (first + b.blocksize)) * nch;
      }
    }
  }

  /** Blocks that follow one another without gaps, the first starting at frame `first`. */
  predicate Consecutive(blocks: seq<Block>, info: StreamInfo, first: nat)
    decreases |blocks|
  {
    blocks == [] ||
    (FirstSample(blocks[0], info) == first && Consecutive(blocks[1..], info, first + blocks[0].blocksize))
  }

  /**
   * The read callback's status: abort on a zero-sized request, end of stream
   * when nothing was read at the end of the input, abort when nothing was
   * read otherwise, continue when something was read.
   */
  function CallbackReadStatus(requestedBytes: nat, bytesRead: nat, eos: bool): (r: ReadStatus)
    ensures r == ReadContinue <==> requestedBytes > 0 && bytesRead > 0
    ensures r == ReadEndOfStream <==> requestedBytes > 0 && bytesRead == 0 && eos
  {
    if requestedBytes == 0 then ReadAbort
    else if bytesRead == 0 then (if eos then ReadEndOfStream else ReadAbort)
    else ReadContinue
  }

  /**
   * `_lastSample` for a stream of `total` frames as the constructor writes
   * it: `total + 1`, even when `total` is 0 (unknown length).
   */
  function AsWrittenLastSample(total: nat): (r: nat)
    ensures r > 0
  {
    total + 1
  }

  /**
   * `_lastSample` as the clip's `!= 0` test intends it: 0 (no limit) when
   * STREAMINFO leaves the length unknown, `total + 1` otherwise.
   */
  function LastSampleFor(total: nat): (r: nat)
    ensures r == 0 <==> total == 0
    ensures total > 0 ==> r == AsWrittenLastSample(total)
  {
    if total == 0 then 0 else total + 1
  }

  /**
   * As written, a stream whose STREAMINFO gives 0 (unknown) total samples
   * is clipped to its first frame: the first block reaches `_lastSample`.
   */
  lemma AsWrittenUnknownLengthClipsToOneFrame(blocksize: nat)
    requires 1 <= blocksize
    ensures Clip(0, blocksize, AsWrittenLastSample(0)) == Clipped(1, true)
  {
  }

  /** With the intended `_lastSample`, a stream of unknown length is never clipped. */
  lemma UnknownLengthNeverClipped(blocks: seq<Block>, info: StreamInfo)
    requires WellFormedInfo(info) && info.totalSamples == 0
    requires forall i :: 0 <= i < |blocks| ==> BlockFits(blocks[i], info)
    ensures forall i :: 0 <= i < |blocks| ==>
      Clip(FirstSample(blocks[i], info), blocks[i].blocksize, LastSampleFor(info.totalSamples)) == Clipped(blocks[i].blocksize, false)
  {
  }

  /** Room the source's cache leaves after `readPos + fill` samples. */
  function AsWrittenCacheSpace(readPos: nat, fill: nat): int
  {
    BUFFER_SIZE - (readPos + fill)
  }

  /**
   * As written, the cache does not hold one legal stereo block: in a stream
   * of known length 65538 frames, the first block of 32769 frames is not
   * clipped by the as-written `_lastSample`, and on two channels it is 65538
   * samples, more than an empty cache holds.
   */
  lemma AsWrittenCacheOverflows()
    ensures var info := StreamInfo(32769, 32769, 44100, 2, 16, 65538);
            var b := Block(SampleNumber, 0, 32769, [seq(32769, _ => 0), seq(32769, _ => 0)]);
            && WellFormedInfo(info) && BlockFits(b, info)
            && Clip(FirstSample(b, info), b.blocksize, AsWrittenLastSample(info.totalSamples)).frames * OutputChannels(info.channels)
               > AsWrittenCacheSpace(0, 0)
  {
  }

  /** With room for `MAX_OUTPUT_CHANNELS` samples per frame, an empty cache holds any block. */
  lemma CacheHoldsAnyBlock(b: Block, info: StreamInfo, lastSample: nat)
    requires WellFormedInfo(info) && BlockFits(b, info)
    ensures Clip(FirstSample(b, info), b.blocksize, lastSample).frames * OutputChannels(info.channels) <= CACHE_CAPACITY
  {
    var frames := Clip(FirstSample(b, info), b.blocksize, lastSample).frames;
    FC.MulLe(frames, MAX_BLOCKSIZE, OutputChannels(info.channels));
    FC.MulLe(OutputChannels(info.channels), MAX_OUTPUT_CHANNELS, MAX_BLOCKSIZE);
  }

  /** `a` and `b` multiples of `n`, `b <= a`: so is `a - b`, and the quotients add up. */
  lemma MultipleSplit(a: nat, b: nat, n: nat)
    requires 1 <= n && a % n == 0 && b % n == 0 && b <= a
    ensures (a - b) % n == 0 && b / n + (a - b) / n == a / n && b / n <= a / n
  {
    var qa, qb := a / n, b / n;
    assert a == qa * n && b == qb * n;
    if qb > qa {
      FC.MulLe(qa + 1, qb, n);
    }
    assert a - b == (qa - qb) * n;
    FC.DivModOf(qa - qb, 0, n);
  }

  lemma MultipleAdd(a: nat, b: nat, n: nat)
    requires 1 <= n && a % n == 0 && b % n == 0
    ensures (a + b) % n == 0
  {
    var qa, qb := a / n, b / n;
    assert a + b == (qa + qb) * n;
    FC.DivModOf(qa + qb, 0, n);
  }

  lemma MultipleOf(f: nat, n: nat)
    requires 1 <= n
    ensures (f * n) % n == 0 && (f * n) / n == f
  {
    FC.DivModOf(f, 0, n);
  }

  /**
   * Converts `frames` frames of block `b`, starting at the frames `starts`
   * points to, into `dest` after the `kept` samples from `lo`; `w` names
   * the `count` samples that come out.
   */
  method ConvertRun(m: ConvertMethod, dest: array<int16>, lo: nat, kept: nat, count: nat, b: Block, info: StreamInfo,
                    cursors: array<nat>, ghost starts: seq<nat>, frames: nat, ghost w: seq<int16>)
    requires WellFormedInfo(info) && BlockFits(b, info)
    requires Applicable(m, OutputChannels(info.channels), info.bitsPerSample)
    requires cursors.Length == OutputChannels(info.channels) && cursors[..] == starts
    requires FC.Readable(b.samples, starts, frames, cursors.Length)
    requires w == FC.Converted(b.samples, starts, frames, cursors.Length, info.bitsPerSample)
    requires count == frames * cursors.Length && lo + kept + count <= dest.Length
    modifies dest, cursors
    ensures Window(dest, lo, kept + count) == old(Window(dest, lo, kept)) + w
    ensures cursors[..] == FC.Advance(starts, frames, cursors.Length)
  {
    MultipleOf(frames, cursors.Length);
    var at := lo + kept;
    ConvertBuffers(m, dest, at, b.samples, cursors, count, cursors.Length, info.bitsPerSample);
    assert dest[lo..at + count] == dest[lo..at] + dest[at..at + count];
  }

  /**
   * `n` samples are whole frames of `nch` output channels. As `nch` is at
   * most two, only the stereo case constrains `n`.
   */
  predicate WholeFrames(n: nat, nch: nat)
  {
    nch == 2 ==> n % 2 == 0
  }

  lemma WholeFramesMultiple(n: nat, nch: nat)
    requires 1 <= nch <= MAX_OUTPUT_CHANNELS
    ensures WholeFrames(n, nch) <==> n % nch == 0
  {
  }

  /** `fill` cached samples at `readPos` lie inside a buffer of `length` and are whole frames of `nch` channels. */
  predicate CacheWindow(readPos: nat, fill: nat, length: nat, nch: nat)
  {
    readPos + fill <= length && WholeFrames(fill, nch)
  }

  /** A read into `outBuf` has written up to `outPos` and wants `requested` more samples, whole frames of `nch` channels. */
  predicate ReadRequest(outBuf: array?<int16>, outPos: nat, requested: nat, nch: nat)
  {
    && (outBuf == null ==> outPos == 0 && requested == 0)
    && (outBuf != null ==> outPos + requested <= outBuf.Length)
    && WholeFrames(requested, nch)
  }

  /** The samples a read has put into `outBuf` so far: none without a buffer. */
  function Written(outBuf: array?<int16>, pos: nat): seq<int16>
    reads outBuf
    requires outBuf != null ==> pos <= outBuf.Length
  {
    if outBuf == null then [] else outBuf[..pos]
  }

  /** The `n` samples of `a` from `lo` on. */
  function Window(a: array<int16>, lo: nat, n: nat): (r: seq<int16>)
    reads a
    requires lo + n <= a.Length
    ensures |r| == n
  {
    a[lo..lo + n]
  }

  /**
   * The conversion part of the write callback: `frames` frames of `b`, as
   * interleaved samples: as many as `requested` allows go to `outBuf` at
   * `outPos`, the others are appended to the `filled` samples cached from
   * `cacheStart`.
   */
  method Deliver(m: ConvertMethod, b: Block, info: StreamInfo, frames: nat,
                 outBuf: array?<int16>, outPos: nat, requested: nat,
                 cache: array<int16>, cacheStart: nat, filled: nat)
    returns (newRequested: nat, newPos: nat, newFill: nat, ghost out: seq<int16>)
    requires WellFormedInfo(info) && BlockFits(b, info) && frames <= b.blocksize
    requires Applicable(m, OutputChannels(info.channels), info.bitsPerSample)
    requires cache.Length == CACHE_CAPACITY && outBuf != cache
    requires ReadRequest(outBuf, outPos, requested, OutputChannels(info.channels))
    requires CacheWindow(cacheStart, filled, cache.Length, OutputChannels(info.channels))
    requires filled == 0 ==> cacheStart == 0
    requires filled == 0 || (requested == 0 && cacheStart + filled + frames * OutputChannels(info.channels) <= cache.Length)
    modifies outBuf, cache
    ensures out == BlockOutput(b, info, frames)
    ensures newRequested == requested - Min(requested, |out|) && newPos == outPos + Min(requested, |out|)
    ensures ReadRequest(outBuf, newPos, newRequested, OutputChannels(info.channels))
    ensures CacheWindow(cacheStart, newFill, cache.Length, OutputChannels(info.channels))
    ensures Written(outBuf, newPos) == old(Written(outBuf, outPos)) + out[..newPos - outPos]
    ensures Window(cache, cacheStart, newFill) == old(Window(cache, cacheStart, filled)) + out[newPos - outPos..]
  {
    var numChannels := OutputChannels(info.channels);
    out := BlockOutput(b, info, frames);
    var numSamples := frames * numChannels;
    var copy := Min(requested, numSamples);
    SplitCounts(requested, frames, numChannels, filled, cacheStart);
    assert |out| == numSamples && copy == Min(requested, |out|);
    newRequested, newPos, newFill := requested - copy, outPos + copy, filled + (numSamples - copy);
    assert newPos - outPos == copy && newFill == filled + (numSamples - copy);
    ConvertSplit(m, b, info, frames, copy / numChannels, outBuf, outPos, copy, cache, cacheStart, filled, numSamples - copy, out);
  }

  /**
   * Converts the first `copyFrames` of `frames` frames of `b` to the end of
   * what `outBuf` holds and the others after the `filled` samples cached
   * from `cacheStart`, one cursor per channel carried from the first run to
   * the second.
   */
  method ConvertSplit(m: ConvertMethod, b: Block, info: StreamInfo, frames: nat, copyFrames: nat,
                      outBuf: array?<int16>, outPos: nat, copy: nat,
                      cache: array<int16>, cacheStart: nat, filled: nat, rest: nat, ghost out: seq<int16>)
    requires WellFormedInfo(info) && BlockFits(b, info) && frames <= b.blocksize && copyFrames <= frames
    requires Applicable(m, OutputChannels(info.channels), info.bitsPerSample)
    requires out == BlockOutput(b, info, frames)
    requires copy == copyFrames * OutputChannels(info.channels)
    requires rest == (frames - copyFrames) * OutputChannels(info.channels)
    requires outBuf != cache && (copyFrames > 0 ==> outBuf != null)
    requires outBuf != null ==> outPos + copy <= outBuf.Length
    requires cacheStart + filled + rest <= cache.Length
    modifies outBuf, cache
    ensures copy <= |out|
    ensures Written(outBuf, outPos + copy) == old(Written(outBuf, outPos)) + out[..copy]
    ensures Window(cache, cacheStart, filled + rest) == old(Window(cache, cacheStart, filled)) + out[copy..]
  {
    var numChannels := OutputChannels(info.channels);
    var inChannels := new nat[numChannels](_ => 0);
    ghost var starts := FC.Advance(Zeros(numChannels), copyFrames, numChannels);
    CopiedPart(b, info, frames, copyFrames, out);
    if copyFrames > 0 {
      assert inChannels[..] == Zeros(numChannels);
      ConvertRun(m, outBuf, 0, outPos, copy, b, info, inChannels, Zeros(numChannels), copyFrames, out[..copy]);
      assert outBuf[..outPos + copy] == outBuf[0..outPos + copy];
      assert old(outBuf[..outPos]) == old(outBuf[0..outPos]);
    } else {
      assert inChannels[..] == starts;
    }
    ConvertRun(m, cache, cacheStart, filled, rest, b, info, inChannels, starts, frames - copyFrames, out[copy..]);
  }

  /** The sample counts of one write: all whole frames. */
  lemma SplitCounts(requested: nat, frames: nat, nch: nat, filled: nat, cacheStart: nat)
    requires 1 <= nch <= MAX_OUTPUT_CHANNELS && frames <= MAX_BLOCKSIZE
    requires WholeFrames(requested, nch) && WholeFrames(filled, nch)
    requires filled == 0 ==> cacheStart == 0
    requires filled == 0 || (requested == 0 && cacheStart + filled + frames * nch <= CACHE_CAPACITY)
    ensures var copy := Min(requested, frames * nch);
            && copy % nch == 0 && copy <= frames * nch && copy / nch <= frames
            && (copy / nch) * nch == copy && (frames - copy / nch) * nch == frames * nch - copy
            && cacheStart + filled + (frames * nch - copy) <= CACHE_CAPACITY
            && WholeFrames(requested - copy, nch)
            && WholeFrames(filled + (frames * nch - copy), nch)
  {
    if nch == 1 {
      assert frames * nch == frames;
    } else {
      assert frames * nch == frames + frames;
    }
  }

  /** The cache copy at the start of a read: `memcpy` of `n` samples from `src` at `from` to the start of `dst`. */
  method MemCopy(src: array<int16>, from: nat, dst: array<int16>, n: nat)
    requires src != dst && from + n <= src.Length && n <= dst.Length
    modifies dst
    ensures dst[..n] == src[from..from + n]
  {
    var i := 0;
    while i < n
      invariant i <= n
      invariant forall k :: 0 <= k < i ==> dst[k] == src[from + k]
    {
      dst[i] := src[from + i];
      i := i + 1;
    }
    assert dst[..n] == src[from..from + n];
  }

  /** Taking `Min(requested, fill)` samples off the cache keeps every count a multiple of `nch`. */
  lemma CopyCounts(requested: nat, fill: nat, nch: nat)
    requires 1 <= nch && requested % nch == 0 && fill % nch == 0
    ensures (requested - Min(requested, fill)) % nch == 0 && (fill - Min(requested, fill)) % nch == 0
  {
    var copy := Min(requested, fill);
    MultipleSplit(requested, copy, nch);
    MultipleSplit(fill, copy, nch);
  }

  /** Moving the first `k` samples of `out` from the front of the rest to the end of `d`. */
  lemma Regroup(d: seq<int16>, out: seq<int16>, k: nat, p: seq<int16>)
    requires k <= |out|
    ensures (d + out[..k]) + (out[k..] + p) == d + (out + p)
  {
    assert out == out[..k] + out[k..];
  }

  lemma Associate(a: seq<int16>, b: seq<int16>, c: seq<int16>)
    ensures a + (b + c) == (a + b) + c
  {
  }

  /** One step of decoding: the first block's output, then the rest unless the first block reached the end. */
  lemma UpcomingStep(blocks: seq<Block>, info: StreamInfo, lastSample: nat)
    requires WellFormedInfo(info) && AllFit(blocks, info)
    requires blocks != []
    ensures Upcoming(blocks, info, lastSample) ==
            Delivery(blocks[0], info, lastSample) +
            (if Clip(FirstSample(blocks[0], info), blocks[0].blocksize, lastSample).reachedEnd then []
             else Upcoming(blocks[1..], info, lastSample))
  {
  }

  /** Splitting a block's output where the caller's buffer ends. */
  lemma CopiedPart(b: Block, info: StreamInfo, frames: nat, a: nat, out: seq<int16>)
    requires WellFormedInfo(info) && BlockFits(b, info) && a <= frames <= b.blocksize
    requires out == BlockOutput(b, info, frames)
    ensures var nch := OutputChannels(info.channels);
            && a * nch <= |out|
            && FC.Readable(b.samples, Zeros(nch), a, nch)
            && FC.Readable(b.samples, FC.Advance(Zeros(nch), a, nch), frames - a, nch)
            && out[..a * nch] == FC.Converted(b.samples, Zeros(nch), a, nch, info.bitsPerSample)
            && out[a * nch..] == FC.Converted(b.samples, FC.Advance(Zeros(nch), a, nch), frames - a, nch, info.bitsPerSample)
  {
    var nch := OutputChannels(info.channels);
    BlockReadable(b, info, frames);
    FC.ConvertedSplit(b.samples, Zeros(nch), a, frames - a, nch, info.bitsPerSample);
    var left := FC.Converted(b.samples, Zeros(nch), a, nch, info.bitsPerSample);
    var right := FC.Converted(b.samples, FC.Advance(Zeros(nch), a, nch), frames - a, nch, info.bitsPerSample);
    assert a + (frames - a) == frames;
    FC.MulLe(a, frames, nch);
    Halves(out, left, right);
  }

  /** The two parts of a concatenation are its slices at the seam. */
  lemma Halves(whole: seq<int16>, left: seq<int16>, right: seq<int16>)
    requires whole == left + right
    ensures whole[..|left|] == left && whole[|left|..] == right
  {
  }

  class FLACStream {
    /** The stream's STREAMINFO (all zero until it has been read). */
    var info: StreamInfo
    /** One past the index of the last frame to play; 0 for no limit. */
    var lastSample: nat
    /** The stream's length in frames. */
    var lengthFrames: nat
    /** The decoder has produced the last frame to play (the cache may still hold samples). */
    var lastSampleWritten: bool
    /** The sample cache. */
    const cache: array<int16>
    /** Offset of the first cached sample (the source's read pointer, with null as 0). */
    var readPos: nat
    /** Number of cached samples. */
    var fill: nat
    /** The caller's buffer during `ReadBuffer`, null otherwise. */
    var outBuffer: array?<int16>
    /** Where the write callback puts the next sample into `outBuffer`. */
    var outPos: nat
    /** Samples `outBuffer` still wants. */
    var requested: nat
    /** The converter chosen when STREAMINFO arrived. */
    var convertMethod: ConvertMethod
    /** The decoder's blocks not yet decoded. */
    var pending: seq<Block>
    /** The decoder's state. */
    var state: DecoderState
    /** The state the decoder moves to once no block is left. */
    const endState: DecoderState

    /** The class invariant. */
    ghost predicate Valid()
      reads this`info, this`convertMethod, this`pending, this`readPos, this`fill, this`outBuffer, this`outPos, this`requested
    {
      Configured() && Counters()
    }

    /** What stays fixed while samples flow: STREAMINFO, the converter, the queued blocks. */
    ghost predicate Configured()
      reads this`info, this`convertMethod, this`pending
    {
      && cache.Length == CACHE_CAPACITY
      && (info.channels > 0 ==> WellFormedInfo(info))
      && convertMethod == BestMethod(OutputChannels(info.channels), info.bitsPerSample)
      && AllFit(pending, info)
      && endState != SearchForFrameSync
    }

    /** The cache and read counters hold whole frames and stay within their buffers. */
    ghost predicate Counters()
      reads this`info, this`pending, this`readPos, this`fill, this`outBuffer, this`outPos, this`requested
    {
      && CacheWindow(readPos, fill, cache.Length, OutputChannels(info.channels))
      && ReadRequest(outBuffer, outPos, requested, OutputChannels(info.channels))
      && (info.channels == 0 ==> fill == 0 && requested == 0 && pending == [])
      && outBuffer != cache
    }

    /** No read is in progress. */
    predicate Idle()
      reads this`outBuffer, this`requested
    {
      outBuffer == null && requested == 0
    }

    /** Number of output channels (`getChannels`). */
    function GetChannels(): (r: nat)
      reads this`info
      ensures r <= MAX_OUTPUT_CHANNELS && (r == 0 <==> info.channels == 0)
    {
      OutputChannels(info.channels)
    }

    /** The stream has two or more channels: exactly when two channels are output. */
    function IsStereo(): (r: bool)
      reads this`info
      ensures r <==> GetChannels() == 2
    {
      info.channels >= 2
    }

    function GetRate(): nat
      reads this`info
    {
      info.sampleRate
    }

    /**
     * No data will come any more: always for a stream without channels,
     * otherwise once the last frame was decoded and the cache is empty, and
     * never while cached samples remain. At end of data a valid stream has
     * nothing left to deliver.
     */
    function EndOfData(): (r: bool)
      reads this, cache
      ensures info.channels == 0 ==> r
      ensures lastSampleWritten && fill == 0 ==> r
      ensures r && info.channels > 0 ==> lastSampleWritten && fill == 0
      ensures Valid() && r ==> Stream() == []
    {
      info.channels == 0 || (lastSampleWritten && fill == 0)
    }

    /** The cached samples, oldest first. */
    function CacheContents(): (r: seq<int16>)
      reads this`readPos, this`fill, cache
      requires readPos + fill <= cache.Length
      ensures |r| == fill
    {
      Window(cache, readPos, fill)
    }

    /** The samples written into the caller's buffer so far in this read. */
    function Delivered(): seq<int16>
      reads this`outBuffer, this`outPos, outBuffer
      requires outBuffer != null ==> outPos <= outBuffer.Length
    {
      Written(outBuffer, outPos)
    }

    /** Everything a reader will still receive, in order. */
    ghost function Stream(): seq<int16>
      reads this`info, this`convertMethod, this`pending, this`lastSampleWritten, this`state, this`lastSample,
            this`readPos, this`fill, cache
      requires Configured() && readPos + fill <= cache.Length
    {
      CacheContents() + Pending()
    }

    /** What the decoder will still deliver: nothing once the last frame was written or decoding stopped. */
    ghost function Pending(): seq<int16>
      reads this`info, this`convertMethod, this`pending, this`lastSampleWritten, this`state, this`lastSample
      requires Configured()
    {
      if info.channels == 0 || lastSampleWritten || state != SearchForFrameSync then []
      else Upcoming(pending, info, lastSample)
    }

    /** Whether the write callback's cache-space assertion holds for `b`. */
    predicate CanAccept(b: Block)
      reads this`info, this`lastSample, this`readPos, this`fill, this`requested
    {
      fill == 0 ||
      (requested == 0 && readPos + fill + Clip(FirstSample(b, info), b.blocksize, lastSample).frames * GetChannels() <= cache.Length)
    }

    /**
     * The stream as `makeFLACStream`'s constructor leaves it. libFLAC's
     * set-up is given by its results: `initOk` (the decoder was
     * initialised), `metadata` (the STREAMINFO delivered to the metadata
     * callback, if any), `metadataOk` (metadata processing succeeded),
     * `afterMetadata` (the decoder's state then), `blocks` and `endState`.
     */
    constructor (initOk: bool, metadata: Option<StreamInfo>, metadataOk: bool, afterMetadata: DecoderState,
                 blocks: seq<Block>, endState: DecoderState)
      requires metadata.Some? ==> WellFormedInfo(metadata.value)
      requires metadata.Some? ==> AllFit(blocks, metadata.value)
      requires endState != SearchForFrameSync
      ensures Valid() && Idle() && fill == 0 && !lastSampleWritten
      ensures info == if initOk && metadata.Some? then metadata.value else NO_INFO
      ensures lastSample == if initOk && metadataOk && info.channels > 0 then LastSampleFor(info.totalSamples) else 0
      ensures lengthFrames == if initOk && metadataOk && info.channels > 0 then info.totalSamples else 0
      ensures EndOfData() <==> !initOk || metadata.None?
    {
      var si := if initOk && metadata.Some? then metadata.value else NO_INFO;
      info := si;
      convertMethod := BestMethod(OutputChannels(si.channels), si.bitsPerSample);
      lastSample := if initOk && metadataOk && si.channels > 0 then LastSampleFor(si.totalSamples) else 0;
      lengthFrames := if initOk && metadataOk && si.channels > 0 then si.totalSamples else 0;
      lastSampleWritten := false;
      cache := new int16[CACHE_CAPACITY];
      readPos, fill := 0, 0;
      outBuffer, outPos, requested := null, 0, 0;
      pending := if si.channels > 0 then blocks else [];
      state := if initOk then afterMetadata else Uninitialized;
      this.endState := endState;
    }

    /**
     * The write callback: clip the block at `lastSample`, convert as much as
     * the caller still wants into `outBuffer`, and append the rest to the
     * cache.
     */
    method CallbackWrite(b: Block) returns (ghost out: seq<int16>)
      requires Valid() && info.channels > 0 && BlockFits(b, info)
      requires CanAccept(b)
      modifies this`lastSampleWritten, this`readPos, this`fill, this`outPos, this`requested, cache, outBuffer
      ensures Valid()
      ensures out == Delivery(b, info, lastSample)
      ensures lastSampleWritten == (old(lastSampleWritten) || Clip(FirstSample(b, info), b.blocksize, lastSample).reachedEnd)
      ensures requested == old(requested) - Min(old(requested), |out|)
      ensures outPos == old(outPos) + Min(old(requested), |out|)
      ensures Delivered() == old(Delivered()) + out[..Min(old(requested), |out|)]
      ensures CacheContents() == old(CacheContents()) + out[Min(old(requested), |out|)..]
    {
      var frames := ClipBlock(b);
      out := WriteSamples(b, frames);
    }

    /** The first half of the write callback: the clip at `lastSample`. */
    method ClipBlock(b: Block) returns (frames: nat)
      requires Valid() && info.channels > 0 && BlockFits(b, info)
      modifies this`lastSampleWritten
      ensures Valid()
      ensures frames == Clip(FirstSample(b, info), b.blocksize, lastSample).frames
      ensures lastSampleWritten == (old(lastSampleWritten) || Clip(FirstSample(b, info), b.blocksize, lastSample).reachedEnd)
    {
      frames := b.blocksize;
      var firstSampleNumber := FirstSample(b, info);
      if lastSample != 0 && firstSampleNumber + frames >= lastSample {
        frames := if firstSampleNumber >= lastSample then 0 else lastSample - firstSampleNumber;
        lastSampleWritten := true;
      }
    }

    /**
     * The second half of the write callback: `frames` frames of `b` go to
     * the caller's buffer as far as it wants them, the rest to the cache.
     */
    method WriteSamples(b: Block, frames: nat) returns (ghost out: seq<int16>)
      requires Valid() && info.channels > 0 && BlockFits(b, info) && frames <= b.blocksize
      requires fill == 0 || (requested == 0 && readPos + fill + frames * GetChannels() <= cache.Length)
      modifies this`readPos, this`fill, this`outPos, this`requested, cache, outBuffer
      ensures Valid()
      ensures out == BlockOutput(b, info, frames)
      ensures requested == old(requested) - Min(old(requested), |out|)
      ensures outPos == old(outPos) + Min(old(requested), |out|)
      ensures Delivered() == old(Delivered()) + out[..Min(old(requested), |out|)]
      ensures CacheContents() == old(CacheContents()) + out[Min(old(requested), |out|)..]
    {
      var start := if fill == 0 then 0 else readPos;
      var newRequested, newPos, newFill;
      newRequested, newPos, newFill, out := Deliver(convertMethod, b, info, frames, outBuffer, outPos, requested, cache, start, fill);
      readPos, requested, outPos, fill := start, newRequested, newPos, newFill;
    }

    /**
     * `processSingleBlock` in the read loop: libFLAC decodes the next block
     * and hands it to the write callback, or, with no block left, moves to
     * its end state.
     */
    method ProcessSingleBlock()
      requires Valid() && info.channels > 0 && fill == 0 && !lastSampleWritten && state == SearchForFrameSync
      modifies this`lastSampleWritten, this`readPos, this`fill, this`outPos, this`requested, this`pending, this`state, cache, outBuffer
      ensures Valid()
      ensures old(pending) == [] ==> state == endState && pending == [] && fill == 0 && requested == old(requested)
      ensures old(pending) != [] ==> state == SearchForFrameSync && pending == old(pending[1..])
      ensures Delivered() + Stream() == old(Delivered() + Stream())
      ensures outPos + requested == old(outPos + requested)
      ensures requested > 0 ==> fill == 0
    {
      if pending == [] {
        state := endState;
      } else {
        DecodeNext();
      }
    }

    /** libFLAC decodes the next queued block and passes it to the write callback. */
    method DecodeNext()
      requires Valid() && info.channels > 0 && fill == 0 && !lastSampleWritten && state == SearchForFrameSync
      requires pending != []
      modifies this`lastSampleWritten, this`readPos, this`fill, this`outPos, this`requested, this`pending, cache, outBuffer
      ensures Valid() && pending == old(pending[1..])
      ensures Delivered() + Stream() == old(Delivered() + Stream())
      ensures outPos + requested == old(outPos + requested)
      ensures requested > 0 ==> fill == 0
    {
      ghost var delivered := Delivered();
      var b := pending[0];
      ghost var reachedEnd := Clip(FirstSample(b, info), b.blocksize, lastSample).reachedEnd;
      ghost var after := if reachedEnd then [] else Upcoming(pending[1..], info, lastSample);
      UpcomingStep(pending, info, lastSample);
      assert Stream() == Delivery(b, info, lastSample) + after;
      pending := pending[1..];
      ghost var k := Min(requested, |Delivery(b, info, lastSample)|);
      var out := CallbackWrite(b);
      assert Pending() == after;
      assert CacheContents() == out[k..];
      Associate(Delivered(), CacheContents(), after);
      Regroup(delivered, out, k, after);
    }

    /**
     * The start of a read: cached samples go to the caller's buffer first,
     * as many as it asked for.
     */
    method CopyFromCache()
      requires Valid() && outBuffer != null && outPos == 0
      modifies this`readPos, this`fill, this`outPos, this`requested, outBuffer
      ensures Valid()
      ensures Delivered() + CacheContents() == old(CacheContents())
      ensures outPos + requested == old(requested)
      ensures requested > 0 ==> fill == 0
    {
      if fill > 0 {
        var copy := Min(requested, fill);
        CopyCounts(requested, fill, GetChannels());
        MemCopy(cache, readPos, outBuffer, copy);
        outPos, requested := copy, requested - copy;
        readPos, fill := readPos + copy, fill - copy;
      }
    }

    /**
     * The read loop: decode blocks while the caller wants samples, the last
     * frame has not been written and the decoder is ready for a frame.
     */
    method DecodeRequested()
      requires Valid() && info.channels > 0 && outBuffer != null && (requested > 0 ==> fill == 0)
      modifies this`lastSampleWritten, this`readPos, this`fill, this`outPos, this`requested, this`pending, this`state, cache, outBuffer
      ensures Valid()
      ensures Delivered() + Stream() == old(Delivered() + Stream())
      ensures outPos + requested == old(outPos + requested)
      ensures requested > 0 ==> fill == 0 && (lastSampleWritten || state != SearchForFrameSync)
    {
      while !lastSampleWritten && requested > 0 && state == SearchForFrameSync
        invariant Valid() && outBuffer == old(outBuffer)
        invariant requested > 0 ==> fill == 0
        invariant Delivered() + Stream() == old(Delivered() + Stream())
        invariant outPos + requested == old(outPos + requested)
        decreases |pending|, if state == SearchForFrameSync then 1 else 0
      {
        ProcessSingleBlock();
        if state == EndOfStream {
          lastSampleWritten := true;
        }
      }
    }

    /**
     * `readBuffer`: fills `buffer` with up to `numSamples` samples, first
     * from the cache, then by decoding. `written` samples come out, and they
     * are the first `written` of `Stream()`. The result is `written`, or -1
     * when the stream has no channels or the decoder stopped with an error
     * (the samples copied are lost then). A short read means the end of the
     * data.
     */
    method ReadBuffer(buffer: array<int16>, numSamples: nat) returns (r: int, ghost written: nat)
      requires Valid() && Idle() && buffer != cache && numSamples <= buffer.Length
      requires GetChannels() > 0 ==> numSamples % GetChannels() == 0
      modifies this`lastSampleWritten, this`readPos, this`fill, this`outBuffer, this`outPos, this`requested,
               this`pending, this`state, cache, buffer
      ensures Valid() && Idle()
      ensures written <= numSamples && buffer[..written] + Stream() == old(Stream())
      ensures GetChannels() > 0 ==> written % GetChannels() == 0
      ensures GetChannels() == 0 ==> written == 0
      ensures GetChannels() == 0 ==>
                lastSampleWritten == old(lastSampleWritten) && state == old(state) && buffer[..] == old(buffer[..])
      ensures r == if GetChannels() == 0 || (state != EndOfStream && state != SearchForFrameSync) then -1 else written
      ensures 0 <= r < numSamples ==> EndOfData()
    {
      if GetChannels() == 0 {
        return -1, 0;
      }
      r, written := ReadFrames(buffer, numSamples);
    }

    /** `readBuffer` once the stream has channels: the cache first, then blocks decoded on demand. */
    method ReadFrames(buffer: array<int16>, numSamples: nat) returns (r: int, ghost written: nat)
      requires Valid() && Idle() && buffer != cache && numSamples <= buffer.Length
      requires GetChannels() > 0 && numSamples % GetChannels() == 0
      modifies this`lastSampleWritten, this`readPos, this`fill, this`outBuffer, this`outPos, this`requested,
               this`pending, this`state, cache, buffer
      ensures Valid() && Idle()
      ensures written <= numSamples && buffer[..written] + Stream() == old(Stream())
      ensures written % GetChannels() == 0
      ensures r == if state != EndOfStream && state != SearchForFrameSync then -1 else written
      ensures 0 <= r < numSamples ==> EndOfData()
    {
      StartRead(buffer, numSamples);
      ghost var total := Delivered() + Stream();
      DecodeRequested();
      ghost var delivered := Delivered();
      assert delivered + Stream() == total;
      var decoderOk := CheckDecoderState();
      assert Delivered() == delivered;
      var samples;
      samples, written := EndRead(numSamples);
      r := if decoderOk then samples else -1;
    }

    /** The read starts: the caller's buffer takes what the cache holds, as far as it wants. */
    method StartRead(buffer: array<int16>, numSamples: nat)
      requires Valid() && Idle() && buffer != cache && numSamples <= buffer.Length
      requires GetChannels() > 0 && numSamples % GetChannels() == 0
      modifies this`readPos, this`fill, this`outBuffer, this`outPos, this`requested, buffer
      ensures Valid() && outBuffer == buffer
      ensures Delivered() + Stream() == old(Stream())
      ensures outPos + requested == numSamples
      ensures requested > 0 ==> fill == 0
    {
      outBuffer, outPos, requested := buffer, 0, numSamples;
      ghost var pend := Pending();
      CopyFromCache();
      assert Pending() == pend;
      Associate(Delivered(), CacheContents(), pend);
    }

    /**
     * The state check after the read loop: true when the decoder is ready
     * for a frame or at the end of the stream, which marks the last sample
     * as written.
     */
    method CheckDecoderState() returns (decoderOk: bool)
      requires Valid()
      modifies this`lastSampleWritten
      ensures Valid() && Stream() == old(Stream())
      ensures decoderOk <==> state == EndOfStream || state == SearchForFrameSync
      ensures lastSampleWritten == (old(lastSampleWritten) || state == EndOfStream)
    {
      decoderOk := true;
      match state {
        case EndOfStream => lastSampleWritten := true;
        case SearchForFrameSync =>
        case _ => decoderOk := false;
      }
    }

    /** The read ends: the number of samples the caller's buffer received. */
    method EndRead(numSamples: nat) returns (samples: int, ghost written: nat)
      requires Valid() && outBuffer != null && outPos + requested == numSamples
      requires GetChannels() > 0 && numSamples % GetChannels() == 0
      modifies this`outBuffer, this`outPos, this`requested
      ensures Valid() && Idle() && Stream() == old(Stream())
      ensures samples == written && written == old(outPos) && written <= numSamples
      ensures old(outBuffer)[..written] == old(Delivered())
      ensures written % GetChannels() == 0
    {
      samples, written := outPos, outPos;
      MultipleSplit(numSamples, requested, GetChannels());
      outBuffer, outPos, requested := null, 0, 0;
    }

    /**
     * `seekAbsolute`: libFLAC's seek to frame `sample` has the result
     * `outcome`. On success the decoder may have passed the block holding
     * the target to the write callback, the blocks after it are what
     * remains, and `_lastSampleWritten` is set exactly when the target lies
     * at or past `lastSample`. On failure libFLAC is left in its seek-error
     * state.
     */
    method SeekAbsolute(sample: nat, outcome: SeekOutcome) returns (result: bool)
      requires Valid() && Idle()
      requires info.channels == 0 ==> outcome == SeekFailed
      requires outcome.SeekDone? ==> AllFit(outcome.rest, info)
      requires outcome.SeekDone? && outcome.delivered.Some? ==> BlockFits(outcome.delivered.value, info) && CanAccept(outcome.delivered.value)
      modifies this`lastSampleWritten, this`readPos, this`fill, this`outPos, this`requested, this`pending, this`state, cache, outBuffer
      ensures Valid() && Idle()
      ensures result == outcome.SeekDone?
      ensures result ==> lastSampleWritten == (lastSample != 0 && sample >= lastSample)
      ensures result ==> state == SearchForFrameSync && pending == outcome.rest
      ensures result ==> (CacheContents() == old(CacheContents()) +
        (if outcome.delivered.Some? then Delivery(outcome.delivered.value, info, lastSample) else []))
      ensures !result ==> state == SeekError && pending == [] && lastSampleWritten == old(lastSampleWritten)
      ensures !result ==> CacheContents() == old(CacheContents())
    {
      result := outcome.SeekDone?;
      match outcome {
        case SeekFailed =>
          state, pending := SeekError, [];
        case SeekDone(delivered, rest) =>
          if delivered.Some? {
            var out := CallbackWrite(delivered.value);
          }
          state, pending := SearchForFrameSync, rest;
          lastSampleWritten := lastSample != 0 && sample >= lastSample;
      }
    }

    /**
     * `seek`: empties the cache and seeks to frame `target` (the conversion
     * of the time stamp to a frame index is not part of this model).
     */
    method Seek(target: nat, outcome: SeekOutcome) returns (result: bool)
      requires Valid() && Idle()
      requires info.channels == 0 ==> outcome == SeekFailed
      requires outcome.SeekDone? ==> AllFit(outcome.rest, info)
      requires outcome.SeekDone? && outcome.delivered.Some? ==> BlockFits(outcome.delivered.value, info)
      modifies this`lastSampleWritten, this`readPos, this`fill, this`outPos, this`requested, this`pending, this`state, cache, outBuffer
      ensures Valid() && Idle()
      ensures result == outcome.SeekDone?
      ensures result ==> lastSampleWritten == (lastSample != 0 && target >= lastSample)
      ensures result ==> state == SearchForFrameSync && pending == outcome.rest
      ensures result ==> (CacheContents() ==
        (if outcome.delivered.Some? then Delivery(outcome.delivered.value, info, lastSample) else []))
      ensures !result ==> state == SeekError && pending == [] && lastSampleWritten == old(lastSampleWritten)
      ensures !result ==> fill == 0
    {
      fill, readPos := 0, 0;
      result := SeekAbsolute(target, outcome);
    }
  }

  /**
   * `makeFLACStream`: builds the stream and returns null when it has no
   * data to play.
   */
  method MakeFLACStream(initOk: bool, metadata: Option<StreamInfo>, metadataOk: bool, afterMetadata: DecoderState,
                        blocks: seq<Block>, endState: DecoderState) returns (s: FLACStream?)
    requires metadata.Some? ==> WellFormedInfo(metadata.value)
    requires metadata.Some? ==> AllFit(blocks, metadata.value)
    requires endState != SearchForFrameSync
    ensures s == null <==> !initOk || metadata.None?
    ensures s != null ==> fresh(s) && s.Valid() && s.Idle() && !s.EndOfData() && s.info == metadata.value
  {
    s := new FLACStream(initOk, metadata, metadataOk, afterMetadata, blocks, endState);
    if s.EndOfData() {
      s := null;
    }
  }
}
