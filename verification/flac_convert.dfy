/**
 * Sample conversion of the FLAC stream adapter: planar decoded samples of any
 * width (4 to 32 bits) become interleaved signed 16-bit samples.
 *
 * `Converted` is the reference: the interleaving the generic converter
 * produces. Each of the five converters is proved to write exactly
 * `Converted(...)`, so the four fast paths agree with the generic one on the
 * shapes they are chosen for.
 */
module FlacConvert {

  /** The adapter's output sample type (`int16`). */
  type int16 = x: int | -0x8000 <= x < 0x8000

  /** Width of the output sample type in bits. */
  const BUFTYPE_BITS: nat := 16

  function Pow2(n: nat): (r: nat)
    ensures r >= 1
  {
    if n == 0 then 1 else 2 * Pow2(n - 1)
  }

  lemma {:induction false} Pow2Add(a: nat, b: nat)
    ensures Pow2(a + b) == Pow2(a) * Pow2(b)
  {
    if a > 0 {
      Pow2Add(a - 1, b);
    }
  }

  /** `static_cast<int16>`: keep the low 16 bits, read as two's complement. */
  function Narrow(v: int): (r: int16)
    ensures -0x8000 <= v < 0x8000 ==> r == v
    ensures (v - r) % 0x1_0000 == 0
  {
    var m := v % 0x1_0000;
    if m < 0x8000 then m else m - 0x1_0000
  }

  /** A decoded sample of `bits` bits lies in the signed range of that width. */
  predicate InRange(v: int, bits: nat)
    requires bits >= 1
  {
    -(Pow2(bits - 1) as int) <= v < Pow2(bits - 1)
  }

  /** `x << k` on unbounded integers. */
  function Shl(x: int, k: nat): int
  {
    if k == 0 then x else 2 * Shl(x, k - 1)
  }

  /** `x >> k` on unbounded integers: an arithmetic shift, rounding towards minus infinity. */
  function Shr(x: int, k: nat): int
  {
    if k == 0 then x else Shr(x, k - 1) / 2
  }

  lemma {:induction false} ShlIsMul(x: int, k: nat)
    ensures Shl(x, k) == x * Pow2(k)
  {
    if k > 0 {
      ShlIsMul(x, k - 1);
    }
  }

  lemma {:induction false} ShrIsDiv(x: int, k: nat)
    ensures Shr(x, k) == x / Pow2(k)
  {
    if k > 0 {
      ShrIsDiv(x, k - 1);
      DivDiv(x, Pow2(k - 1), 2);
    }
  }

  /** Dividing by `a` and then by `b` is dividing by `a * b` (floor division). */
  lemma DivDiv(x: int, a: nat, b: nat)
    requires a >= 1 && b >= 1
    ensures x / a / b == x / (a * b)
  {
    var q := x / a;
    var q2 := q / b;
    assert x == q * a + x % a;
    assert q == q2 * b + q % b;
    assert x == q2 * (a * b) + ((q % b) * a + x % a);
    MulLe(q % b, b - 1, a);
    assert 0 <= (q % b) * a + x % a < a * b;
    DivOfParts(x, a * b, q2, (q % b) * a + x % a);
  }

  lemma DivOfParts(x: int, d: nat, q: int, r: int)
    requires d >= 1 && x == q * d + r && 0 <= r < d
    ensures x / d == q
  {
    var q', r' := x / d, x % d;
    if q' < q {
      MulLe(q' + 1, q, d);
    } else if q' > q {
      MulLe(q + 1, q', d);
    }
  }

  /**
   * One sample of the generic conversion: narrower samples are narrowed and
   * shifted left by `16 - bits`, wider ones shifted right (arithmetically) by
   * `bits - 16` and narrowed, 16-bit ones only narrowed.
   */
  function ConvertSample(v: int, bits: nat): int16
  {
    if bits < BUFTYPE_BITS then Narrow(Shl(Narrow(v), BUFTYPE_BITS - bits))
    else if bits > BUFTYPE_BITS then Narrow(Shr(v, bits - BUFTYPE_BITS))
    else Narrow(v)
  }

  lemma MulLe(a: int, b: int, c: nat)
    requires a <= b
    ensures a * c <= b * c
  {
  }

  /** Floor division by a positive `d` maps `[lo*d, hi*d)` into `[lo, hi)`. */
  lemma DivBounds(v: int, d: nat, lo: int, hi: int)
    requires d >= 1 && lo * d <= v < hi * d
    ensures lo <= v / d < hi
  {
    var q, r := v / d, v % d;
    assert v == q * d + r && 0 <= r < d;
    if q < lo {
      MulLe(q + 1, lo, d);
      assert false;
    }
    if q >= hi {
      MulLe(hi, q, d);
      assert false;
    }
  }

  lemma Pow2Fifteen()
    ensures Pow2(8) == 0x100 && Pow2(15) == 0x8000
  {
    assert Pow2(2) == 4;
    assert Pow2(4) == 16;
    assert Pow2(6) == 64;
    assert Pow2(8) == 0x100;
    assert Pow2(10) == 0x400;
    assert Pow2(12) == 0x1000;
    assert Pow2(14) == 0x4000;
  }

  lemma {:induction false} Pow2Mono(a: nat, b: nat)
    requires a <= b
    ensures Pow2(a) <= Pow2(b)
  {
    if a < b {
      Pow2Mono(a, b - 1);
    }
  }

  /**
   * A sample that fits a width below 16 bits is scaled exactly by
   * `2^(16-bits)`, with no wrap-around (so an 8-bit `v` becomes `v << 8`).
   */
  lemma ConvertSampleScalesUp(v: int, bits: nat)
    requires 1 <= bits <= BUFTYPE_BITS && InRange(v, bits)
    ensures ConvertSample(v, bits) == v * Pow2(BUFTYPE_BITS - bits)
  {
    ScaledFits(v, bits);
    Pow2Fifteen();
    Pow2Mono(bits - 1, 15);
    assert Narrow(v) == v;
    ShlIsMul(v, BUFTYPE_BITS - bits);
  }

  /** A sample of a width below 16 bits, scaled up to 16 bits, still fits `int16`. */
  lemma ScaledFits(v: int, bits: nat)
    requires 1 <= bits <= BUFTYPE_BITS && InRange(v, bits)
    ensures -0x8000 <= v * Pow2(BUFTYPE_BITS - bits) < 0x8000
  {
    var h := Pow2(bits - 1);
    var p := Pow2(BUFTYPE_BITS - bits);
    Pow2Add(bits - 1, BUFTYPE_BITS - bits);
    Pow2Fifteen();
    assert h * p == 0x8000;
    MulLe(-(h as int), v, p);
    MulLe(v + 1, h, p);
  }

  /**
   * A sample that fits a width above 16 bits is scaled exactly by floor
   * division by `2^(bits-16)` (an arithmetic right shift), with no wrap-around.
   */
  lemma ConvertSampleScalesDown(v: int, bits: nat)
    requires BUFTYPE_BITS < bits && InRange(v, bits)
    ensures ConvertSample(v, bits) == v / Pow2(bits - BUFTYPE_BITS)
  {
    var k := bits - BUFTYPE_BITS;
    Pow2Add(15, k);
    Pow2Fifteen();
    ShrIsDiv(v, k);
    DivBounds(v, Pow2(k), -0x8000, 0x8000);
  }

  /** Every channel read from holds `frames` samples after its cursor. */
  predicate Readable(chans: seq<seq<int>>, starts: seq<nat>, frames: nat, nch: nat)
  {
    && 1 <= nch <= |chans|
    && nch <= |starts|
    && forall c :: 0 <= c < nch ==> starts[c] + frames <= |chans[c]|
  }

  /** `f * nch + c` splits back into frame `f` and channel `c`. */
  lemma DivModOf(f: nat, c: nat, nch: nat)
    requires c < nch
    ensures (f * nch + c) / nch == f && (f * nch + c) % nch == c
  {
    var x := f * nch + c;
    var q, r := x / nch, x % nch;
    assert q * nch + r == f * nch + c;
    if q < f {
      MulLe(q + 1, f, nch);
      assert false;
    }
    if q > f {
      MulLe(f + 1, q, nch);
      assert false;
    }
  }

  /**
   * Output sample `j` of a conversion from the cursors `starts`: frame
   * `j / nch` of channel `j % nch` (0 where that sample does not exist).
   */
  function SampleAt(chans: seq<seq<int>>, starts: seq<nat>, nch: nat, bits: nat, j: nat): int16
    requires 1 <= nch
  {
    var c, f := j % nch, j / nch;
    if c < |chans| && c < |starts| && starts[c] + f < |chans[c]| then ConvertSample(chans[c][starts[c] + f], bits) else 0
  }

  /** Output position `j = f * nch + c` of a conversion holds frame `f` of channel `c`. */
  lemma SampleAtFrame(chans: seq<seq<int>>, starts: seq<nat>, nch: nat, bits: nat, f: nat, c: nat, j: nat)
    requires c < nch && nch <= |chans| && nch <= |starts| && starts[c] + f < |chans[c]|
    requires j == f * nch + c
    ensures SampleAt(chans, starts, nch, bits, j) == ConvertSample(chans[c][starts[c] + f], bits)
  {
    DivModOf(f, c, nch);
  }

  /** Frame `f` of the output: one converted sample per channel, channel 0 first. */
  function Frame(chans: seq<seq<int>>, starts: seq<nat>, f: nat, nch: nat, bits: nat): (r: seq<int16>)
    requires Readable(chans, starts, f + 1, nch)
    ensures |r| == nch
  {
    seq(nch, c requires 0 <= c < nch => ConvertSample(chans[c][starts[c] + f], bits))
  }

  /**
   * The reference output of converting `frames` frames of `nch` channels read
   * from the cursors `starts`: the frames one after another.
   */
  function Converted(chans: seq<seq<int>>, starts: seq<nat>, frames: nat, nch: nat, bits: nat): (r: seq<int16>)
    requires Readable(chans, starts, frames, nch)
    ensures |r| == frames * nch
    decreases frames
  {
    if frames == 0 then []
    else
      assert (frames - 1) * nch + nch == frames * nch;
      Converted(chans, starts, frames - 1, nch, bits) + Frame(chans, starts, frames - 1, nch, bits)
  }

  /** The cursors after `n` frames have been consumed from each of the first `nch` channels. */
  function Advance(starts: seq<nat>, n: nat, nch: nat): (r: seq<nat>)
    ensures |r| == |starts|
    ensures forall c :: 0 <= c < |r| ==> r[c] == if c < nch then starts[c] + n else starts[c]
  {
    seq(|starts|, c requires 0 <= c < |starts| => if c < nch then starts[c] + n else starts[c])
  }

  /** Consuming `a` frames and then `b` more leaves the cursors where consuming `a + b` frames at once does. */
  lemma AdvanceTwice(starts: seq<nat>, a: nat, b: nat, nch: nat)
    ensures Advance(Advance(starts, a, nch), b, nch) == Advance(starts, a + b, nch)
  {
  }

  /**
   * Output position `k` holds frame `k / nch` of channel `k % nch`: the
   * output is interleaved.
   */
  lemma {:induction false} ConvertedIndex(chans: seq<seq<int>>, starts: seq<nat>, frames: nat, nch: nat, bits: nat, k: nat)
    requires Readable(chans, starts, frames, nch) && k < frames * nch
    ensures Converted(chans, starts, frames, nch, bits)[k] == SampleAt(chans, starts, nch, bits, k)
    decreases frames
  {
    assert frames != 0;
    var f := frames - 1;
    assert f * nch + nch == frames * nch;
    if k < f * nch {
      ConvertedIndex(chans, starts, f, nch, bits, k);
    } else {
      SampleAtFrame(chans, starts, nch, bits, f, k - f * nch, k);
    }
  }

  /** Output position `f * nch + c` holds frame `f` of channel `c`. */
  lemma ConvertedAt(chans: seq<seq<int>>, starts: seq<nat>, frames: nat, nch: nat, bits: nat, f: nat, c: nat)
    requires Readable(chans, starts, frames, nch) && f < frames && c < nch
    ensures f * nch + c < frames * nch
    ensures Converted(chans, starts, frames, nch, bits)[f * nch + c] == ConvertSample(chans[c][starts[c] + f], bits)
  {
    MulLe(f + 1, frames, nch);
    ConvertedIndex(chans, starts, frames, nch, bits, f * nch + c);
    SampleAtFrame(chans, starts, nch, bits, f, c, f * nch + c);
  }

  /**
   * Converting `a` frames and then `b` more from the advanced cursors gives
   * the same samples as converting `a + b` frames at once: the two converter
   * calls of the write callback consume consecutive frames of one block.
   */
  lemma {:induction false} ConvertedSplit(chans: seq<seq<int>>, starts: seq<nat>, a: nat, b: nat, nch: nat, bits: nat)
    requires Readable(chans, starts, a + b, nch)
    ensures Readable(chans, starts, a, nch) && Readable(chans, Advance(starts, a, nch), b, nch)
    ensures Converted(chans, starts, a + b, nch, bits)
         == Converted(chans, starts, a, nch, bits) + Converted(chans, Advance(starts, a, nch), b, nch, bits)
    decreases b
  {
    var moved := Advance(starts, a, nch);
    assert Readable(chans, starts, a, nch);
    assert Readable(chans, moved, b, nch);
    if b > 0 {
      ConvertedSplit(chans, starts, a, b - 1, nch, bits);
      FrameShift(chans, starts, a, b - 1, nch, bits);
      ConvertedLast(chans, starts, a + b - 1, nch, bits);
      ConvertedLast(chans, moved, b - 1, nch, bits);
      var front := Converted(chans, starts, a, nch, bits);
      var middle := Converted(chans, moved, b - 1, nch, bits);
      var last := Frame(chans, moved, b - 1, nch, bits);
      calc {
        Converted(chans, starts, a + b, nch, bits);
        Converted(chans, starts, a + b - 1, nch, bits) + Frame(chans, starts, a + b - 1, nch, bits);
        (front + middle) + last;
        { Concat3(front, middle, last); }
        front + (middle + last);
        front + Converted(chans, moved, b, nch, bits);
      }
    }
  }

  lemma Concat3(x: seq<int16>, y: seq<int16>, z: seq<int16>)
    ensures (x + y) + z == x + (y + z)
  {
  }

  /** Converting `n + 1` frames is converting `n` and then appending frame `n`. */
  lemma ConvertedLast(chans: seq<seq<int>>, starts: seq<nat>, n: nat, nch: nat, bits: nat)
    requires Readable(chans, starts, n + 1, nch)
    ensures Readable(chans, starts, n, nch)
    ensures Converted(chans, starts, n + 1, nch, bits) == Converted(chans, starts, n, nch, bits) + Frame(chans, starts, n, nch, bits)
  {
  }

  /** Frame `a + f` from `starts` is frame `f` from the cursors advanced by `a`. */
  lemma FrameShift(chans: seq<seq<int>>, starts: seq<nat>, a: nat, f: nat, nch: nat, bits: nat)
    requires Readable(chans, starts, a + f + 1, nch)
    ensures Readable(chans, Advance(starts, a, nch), f + 1, nch)
    ensures Frame(chans, starts, a + f, nch, bits) == Frame(chans, Advance(starts, a, nch), f, nch, bits)
  {
    var moved := Advance(starts, a, nch);
    assert Readable(chans, moved, f + 1, nch);
    forall c | 0 <= c < nch
      ensures Frame(chans, starts, a + f, nch, bits)[c] == Frame(chans, moved, f, nch, bits)[c]
    {
      assert starts[c] + (a + f) == moved[c] + f;
    }
  }

  /** `now` equals `before` except that `expected` was written at `at`. */
  ghost predicate WroteAt(now: seq<int16>, before: seq<int16>, at: nat, expected: seq<int16>)
  {
    && |now| == |before|
    && at + |expected| <= |now|
    && now[..at] == before[..at]
    && now[at..at + |expected|] == expected
    && now[at + |expected|..] == before[at + |expected|..]
  }

  /** What every converter requires: the cursors can supply `numSamples / numChannels` frames. */
  ghost predicate ConvertPre(dest: array<int16>, at: nat, chans: seq<seq<int>>, cursors: array<nat>, numSamples: nat, numChannels: nat)
    reads cursors
  {
    && 1 <= numChannels <= cursors.Length
    && numSamples % numChannels == 0
    && Readable(chans, cursors[..], numSamples / numChannels, numChannels)
    && at + numSamples <= dest.Length
  }

  lemma DivExact(n: nat, nch: nat)
    requires 1 <= nch && n % nch == 0
    ensures (n / nch) * nch == n
  {
  }

  /** The 16-bit fast paths only narrow: the generic rule for 16-bit samples. */
  lemma SixteenBitRule(v: int)
    ensures ConvertSample(v, BUFTYPE_BITS) == Narrow(v)
  {
  }

  /**
   * The 8-bit fast paths' sample expression: narrow, then shift left by 8 in
   * the 16-bit type. It is the generic rule for 8-bit samples.
   */
  function Widen8(v: int): (r: int16)
    ensures r == ConvertSample(v, 8)
  {
    ShlIsMul(Narrow(v), 8);
    Pow2Fifteen();
    Narrow(Narrow(v) * 0x100)
  }

  /** `now` is `before` with `w` written at `at`, given element by element. */
  lemma WroteSeq(now: seq<int16>, before: seq<int16>, at: nat, w: seq<int16>)
    requires |now| == |before| && at + |w| <= |now|
    requires forall k :: 0 <= k < |now| && !(at <= k < at + |w|) ==> now[k] == before[k]
    requires forall k :: at <= k < at + |w| ==> now[k] == w[k - at]
    ensures WroteAt(now, before, at, w)
  {
    assert now[at..at + |w|] == w;
    assert now[..at] == before[..at];
    assert now[at + |w|..] == before[at + |w|..];
  }

  /** Bridge from an element-wise description of the written range to `Converted`. */
  lemma WroteConverted(now: seq<int16>, before: seq<int16>, at: nat, chans: seq<seq<int>>, starts: seq<nat>, n: nat, nch: nat, bits: nat)
    requires 1 <= nch && n % nch == 0 && Readable(chans, starts, n / nch, nch)
    requires |now| == |before| && at + n <= |now|
    requires forall k :: 0 <= k < |now| && !(at <= k < at + n) ==> now[k] == before[k]
    requires forall k :: at <= k < at + n ==> now[k] == SampleAt(chans, starts, nch, bits, k - at)
    ensures WroteAt(now, before, at, Converted(chans, starts, n / nch, nch, bits))
  {
    DivExact(n, nch);
    var e := Converted(chans, starts, n / nch, nch, bits);
    forall k | at <= k < at + n
      ensures now[k] == e[k - at]
    {
      ConvertedIndex(chans, starts, n / nch, nch, bits, k - at);
    }
    WroteSeq(now, before, at, e);
  }

  /** One channel, 16 bits: narrow each sample, four at a time. */
  method ConvertMonoNS(dest: array<int16>, at: nat, chans: seq<seq<int>>, cursors: array<nat>, numSamples: nat, numChannels: nat, numBits: nat)
    requires numChannels == 1 && numBits == BUFTYPE_BITS
    requires ConvertPre(dest, at, chans, cursors, numSamples, numChannels)
    modifies dest, cursors
    ensures WroteAt(dest[..], old(dest[..]), at, Converted(chans, old(cursors[..]), numSamples / numChannels, numChannels, numBits))
    ensures cursors[..] == Advance(old(cursors[..]), numSamples / numChannels, numChannels)
  {
    ghost var starts := cursors[..];
    ghost var c0 := cursors[0];
    assert c0 + numSamples <= |chans[0]| && at + numSamples <= dest.Length;
    var inChannel1 := cursors[0];
    var out := at;
    var n: nat := numSamples;
    while n >= 4
      modifies dest
      invariant out + n == at + numSamples && at <= out <= dest.Length
      invariant inChannel1 == c0 + (out - at)
      invariant forall k :: 0 <= k < dest.Length && !(at <= k < out) ==> dest[k] == old(dest[k])
      invariant forall k :: at <= k < out ==> dest[k] == SampleAt(chans, starts, 1, numBits, k - at)
    {
      dest[out] := Narrow(chans[0][inChannel1]);
      dest[out + 1] := Narrow(chans[0][inChannel1 + 1]);
      dest[out + 2] := Narrow(chans[0][inChannel1 + 2]);
      dest[out + 3] := Narrow(chans[0][inChannel1 + 3]);
      out, inChannel1, n := out + 4, inChannel1 + 4, n - 4;
    }
    while n > 0
      modifies dest
      invariant out + n == at + numSamples && at <= out <= dest.Length
      invariant inChannel1 == c0 + (out - at)
      invariant forall k :: 0 <= k < dest.Length && !(at <= k < out) ==> dest[k] == old(dest[k])
      invariant forall k :: at <= k < out ==> dest[k] == SampleAt(chans, starts, 1, numBits, k - at)
    {
      dest[out] := Narrow(chans[0][inChannel1]);
      out, inChannel1, n := out + 1, inChannel1 + 1, n - 1;
    }
    cursors[0] := inChannel1;
    assert numSamples / numChannels == numSamples;
    assert forall c :: 0 <= c < cursors.Length ==> cursors[c] == Advance(starts, numSamples, 1)[c];
    assert cursors[..] == Advance(starts, numSamples, 1);
    WroteConverted(dest[..], old(dest[..]), at, chans, starts, numSamples, 1, numBits);
  }

  /** One channel, 8 bits: narrow and shift left by 8, four at a time. */
  method ConvertMono8Bit(dest: array<int16>, at: nat, chans: seq<seq<int>>, cursors: array<nat>, numSamples: nat, numChannels: nat, numBits: nat)
    requires numChannels == 1 && numBits == 8
    requires ConvertPre(dest, at, chans, cursors, numSamples, numChannels)
    modifies dest, cursors
    ensures WroteAt(dest[..], old(dest[..]), at, Converted(chans, old(cursors[..]), numSamples / numChannels, numChannels, numBits))
    ensures cursors[..] == Advance(old(cursors[..]), numSamples / numChannels, numChannels)
  {
    ghost var starts := cursors[..];
    ghost var c0 := cursors[0];
    assert c0 + numSamples <= |chans[0]| && at + numSamples <= dest.Length;
    var inChannel1 := cursors[0];
    var out := at;
    var n: nat := numSamples;
    while n >= 4
      modifies dest
      invariant out + n == at + numSamples && at <= out <= dest.Length
      invariant inChannel1 == c0 + (out - at)
      invariant forall k :: 0 <= k < dest.Length && !(at <= k < out) ==> dest[k] == old(dest[k])
      invariant forall k :: at <= k < out ==> dest[k] == SampleAt(chans, starts, 1, numBits, k - at)
    {
      dest[out] := Widen8(chans[0][inChannel1]);
      dest[out + 1] := Widen8(chans[0][inChannel1 + 1]);
      dest[out + 2] := Widen8(chans[0][inChannel1 + 2]);
      dest[out + 3] := Widen8(chans[0][inChannel1 + 3]);
      out, inChannel1, n := out + 4, inChannel1 + 4, n - 4;
    }
    while n > 0
      modifies dest
      invariant out + n == at + numSamples && at <= out <= dest.Length
      invariant inChannel1 == c0 + (out - at)
      invariant forall k :: 0 <= k < dest.Length && !(at <= k < out) ==> dest[k] == old(dest[k])
      invariant forall k :: at <= k < out ==> dest[k] == SampleAt(chans, starts, 1, numBits, k - at)
    {
      dest[out] := Widen8(chans[0][inChannel1]);
      out, inChannel1, n := out + 1, inChannel1 + 1, n - 1;
    }
    cursors[0] := inChannel1;
    assert numSamples / numChannels == numSamples;
    assert forall c :: 0 <= c < cursors.Length ==> cursors[c] == Advance(starts, numSamples, 1)[c];
    assert cursors[..] == Advance(starts, numSamples, 1);
    WroteConverted(dest[..], old(dest[..]), at, chans, starts, numSamples, 1, numBits);
  }

  /**
   * `d` is `before` with the first `out - at` samples of a conversion from
   * the cursors `starts` written from `at` on.
   */
  ghost predicate Progress(d: seq<int16>, before: seq<int16>, at: nat, out: nat, chans: seq<seq<int>>, starts: seq<nat>, nch: nat, bits: nat)
  {
    && 1 <= nch
    && |d| == |before| && at <= out <= |d|
    && (forall k :: 0 <= k < |d| && !(at <= k < out) ==> d[k] == before[k])
    && (forall k :: at <= k < out ==> d[k] == SampleAt(chans, starts, nch, bits, k - at))
  }

  /** Appends the next output sample at `out`: one step of the generic converter. */
  method PutSample(dest: array<int16>, out: nat, v: int16,
                   ghost before: seq<int16>, ghost at: nat, ghost chans: seq<seq<int>>, ghost starts: seq<nat>, ghost nch: nat, ghost bits: nat)
    requires Progress(dest[..], before, at, out, chans, starts, nch, bits) && out < dest.Length
    requires v == SampleAt(chans, starts, nch, bits, out - at)
    modifies dest
    ensures Progress(dest[..], before, at, out + 1, chans, starts, nch, bits)
  {
    dest[out] := v;
  }

  /**
   * Appends stereo frame `g` (`left`, then `right`) at `out`: one step of the
   * two-channel converters.
   */
  method PutStereoFrame(dest: array<int16>, out: nat, left: int16, right: int16,
                        ghost before: seq<int16>, ghost at: nat, ghost chans: seq<seq<int>>, ghost starts: seq<nat>, ghost bits: nat, ghost g: nat)
    requires Progress(dest[..], before, at, out, chans, starts, 2, bits) && out + 2 <= dest.Length
    requires out == at + 2 * g && Readable(chans, starts, g + 1, 2)
    requires left == ConvertSample(chans[0][starts[0] + g], bits) && right == ConvertSample(chans[1][starts[1] + g], bits)
    modifies dest
    ensures Progress(dest[..], before, at, out + 2, chans, starts, 2, bits)
  {
    SampleAtFrame(chans, starts, 2, bits, g, 0, out - at);
    SampleAtFrame(chans, starts, 2, bits, g, 1, out + 1 - at);
    dest[out] := left;
    dest[out + 1] := right;
  }

  /** Two channels, 16 bits: interleave left and right, two frames at a time. */
  method ConvertStereoNS(dest: array<int16>, at: nat, chans: seq<seq<int>>, cursors: array<nat>, numSamples: nat, numChannels: nat, numBits: nat)
    requires numChannels == 2 && numBits == BUFTYPE_BITS
    requires ConvertPre(dest, at, chans, cursors, numSamples, numChannels)
    modifies dest, cursors
    ensures WroteAt(dest[..], old(dest[..]), at, Converted(chans, old(cursors[..]), numSamples / numChannels, numChannels, numBits))
    ensures cursors[..] == Advance(old(cursors[..]), numSamples / numChannels, numChannels)
  {
    ghost var starts := cursors[..];
    ghost var frames := numSamples / 2;
    assert frames * 2 == numSamples;
    assert starts[0] + frames <= |chans[0]| && starts[1] + frames <= |chans[1]|;
    assert at + numSamples <= dest.Length;
    var inChannel1, inChannel2 := cursors[0], cursors[1];
    var out := at;
    var n: nat := numSamples;
    ghost var g: nat := 0;
    while n >= 2 * 2
      modifies dest
      invariant g <= frames && n == 2 * (frames - g) && out == at + 2 * g
      invariant inChannel1 == starts[0] + g && inChannel2 == starts[1] + g
      invariant Progress(dest[..], old(dest[..]), at, out, chans, starts, 2, numBits)
    {
      SixteenBitRule(chans[0][inChannel1]);
      SixteenBitRule(chans[1][inChannel2]);
      PutStereoFrame(dest, out, Narrow(chans[0][inChannel1]), Narrow(chans[1][inChannel2]), old(dest[..]), at, chans, starts, numBits, g);
      SixteenBitRule(chans[0][inChannel1 + 1]);
      SixteenBitRule(chans[1][inChannel2 + 1]);
      PutStereoFrame(dest, out + 2, Narrow(chans[0][inChannel1 + 1]), Narrow(chans[1][inChannel2 + 1]), old(dest[..]), at, chans, starts, numBits, g + 1);
      out, inChannel1, inChannel2, n := out + 2 * 2, inChannel1 + 2, inChannel2 + 2, n - 2 * 2;
      g := g + 2;
    }
    while n > 0
      modifies dest
      invariant g <= frames && n == 2 * (frames - g) && out == at + 2 * g
      invariant inChannel1 == starts[0] + g && inChannel2 == starts[1] + g
      invariant Progress(dest[..], old(dest[..]), at, out, chans, starts, 2, numBits)
    {
      SixteenBitRule(chans[0][inChannel1]);
      SixteenBitRule(chans[1][inChannel2]);
      PutStereoFrame(dest, out, Narrow(chans[0][inChannel1]), Narrow(chans[1][inChannel2]), old(dest[..]), at, chans, starts, numBits, g);
      out, inChannel1, inChannel2, n := out + 2, inChannel1 + 1, inChannel2 + 1, n - 2;
      g := g + 1;
    }
    WroteConverted(dest[..], old(dest[..]), at, chans, starts, numSamples, 2, numBits);
    cursors[0], cursors[1] := inChannel1, inChannel2;
    assert forall c :: 0 <= c < cursors.Length ==> cursors[c] == Advance(starts, frames, 2)[c];
    assert cursors[..] == Advance(starts, frames, 2);
  }

  /** Two channels, 8 bits: interleave and shift left by 8, two frames at a time. */
  method ConvertStereo8Bit(dest: array<int16>, at: nat, chans: seq<seq<int>>, cursors: array<nat>, numSamples: nat, numChannels: nat, numBits: nat)
    requires numChannels == 2 && numBits == 8
    requires ConvertPre(dest, at, chans, cursors, numSamples, numChannels)
    modifies dest, cursors
    ensures WroteAt(dest[..], old(dest[..]), at, Converted(chans, old(cursors[..]), numSamples / numChannels, numChannels, numBits))
    ensures cursors[..] == Advance(old(cursors[..]), numSamples / numChannels, numChannels)
  {
    ghost var starts := cursors[..];
    ghost var frames := numSamples / 2;
    assert frames * 2 == numSamples;
    assert starts[0] + frames <= |chans[0]| && starts[1] + frames <= |chans[1]|;
    assert at + numSamples <= dest.Length;
    var inChannel1, inChannel2 := cursors[0], cursors[1];
    var out := at;
    var n: nat := numSamples;
    ghost var g: nat := 0;
    while n >= 2 * 2
      modifies dest
      invariant g <= frames && n == 2 * (frames - g) && out == at + 2 * g
      invariant inChannel1 == starts[0] + g && inChannel2 == starts[1] + g
      invariant Progress(dest[..], old(dest[..]), at, out, chans, starts, 2, numBits)
    {
      PutStereoFrame(dest, out, Widen8(chans[0][inChannel1]), Widen8(chans[1][inChannel2]), old(dest[..]), at, chans, starts, numBits, g);
      PutStereoFrame(dest, out + 2, Widen8(chans[0][inChannel1 + 1]), Widen8(chans[1][inChannel2 + 1]), old(dest[..]), at, chans, starts, numBits, g + 1);
      out, inChannel1, inChannel2, n := out + 2 * 2, inChannel1 + 2, inChannel2 + 2, n - 2 * 2;
      g := g + 2;
    }
    while n > 0
      modifies dest
      invariant g <= frames && n == 2 * (frames - g) && out == at + 2 * g
      invariant inChannel1 == starts[0] + g && inChannel2 == starts[1] + g
      invariant Progress(dest[..], old(dest[..]), at, out, chans, starts, 2, numBits)
    {
      PutStereoFrame(dest, out, Widen8(chans[0][inChannel1]), Widen8(chans[1][inChannel2]), old(dest[..]), at, chans, starts, numBits, g);
      out, inChannel1, inChannel2, n := out + 2, inChannel1 + 1, inChannel2 + 1, n - 2;
      g := g + 1;
    }
    WroteConverted(dest[..], old(dest[..]), at, chans, starts, numSamples, 2, numBits);
    cursors[0], cursors[1] := inChannel1, inChannel2;
    assert forall c :: 0 <= c < cursors.Length ==> cursors[c] == Advance(starts, frames, 2)[c];
    assert cursors[..] == Advance(starts, frames, 2);
  }

  lemma FrameLess(f: nat, frames: nat, nch: nat)
    requires f * nch < frames * nch
    ensures f < frames && (f + 1) * nch <= frames * nch
  {
    if f >= frames {
      MulLe(frames, f, nch);
    }
    MulLe(f + 1, frames, nch);
  }

  /** Any channel count and width: frame by frame, each channel's cursor advanced in turn. */
  method ConvertGeneric(dest: array<int16>, at: nat, chans: seq<seq<int>>, cursors: array<nat>, numSamples: nat, numChannels: nat, numBits: nat)
    requires ConvertPre(dest, at, chans, cursors, numSamples, numChannels)
    modifies dest, cursors
    ensures WroteAt(dest[..], old(dest[..]), at, Converted(chans, old(cursors[..]), numSamples / numChannels, numChannels, numBits))
    ensures cursors[..] == Advance(old(cursors[..]), numSamples / numChannels, numChannels)
  {
    ghost var starts := cursors[..];
    ghost var frames := numSamples / numChannels;
    DivExact(numSamples, numChannels);
    assert forall c :: 0 <= c < numChannels ==> starts[c] + frames <= |chans[c]|;
    assert at + numSamples <= dest.Length && numChannels <= |chans| && numChannels <= |starts|;
    var out: nat := at;
    var n: nat := numSamples;
    ghost var f: nat := 0;
    while n > 0
      invariant at <= out && out + n == at + numSamples && out - at == f * numChannels
      invariant forall c :: 0 <= c < cursors.Length ==> cursors[c] == if c < numChannels then starts[c] + f else starts[c]
      invariant Progress(dest[..], old(dest[..]), at, out, chans, starts, numChannels, numBits)
    {
      FrameLess(f, frames, numChannels);
      assert (f + 1) * numChannels == f * numChannels + numChannels;
      ghost var frameStart := out;
      var i := 0;
      while i < numChannels
        invariant i <= numChannels && out == frameStart + i
        invariant forall c :: 0 <= c < cursors.Length ==> cursors[c] == if c < i then starts[c] + f + 1 else if c < numChannels then starts[c] + f else starts[c]
        invariant Progress(dest[..], old(dest[..]), at, out, chans, starts, numChannels, numBits)
      {
        SampleAtFrame(chans, starts, numChannels, numBits, f, i, out - at);
        PutSample(dest, out, ConvertSample(chans[i][cursors[i]], numBits), old(dest[..]), at, chans, starts, numChannels, numBits);
        cursors[i] := cursors[i] + 1;
        out := out + 1;
        i := i + 1;
      }
      n := n - numChannels;
      f := f + 1;
    }
    assert f == frames by {
      if f != frames {
        MulLe(f, frames, numChannels);
        MulLe(frames, f, numChannels);
      }
    }
    assert forall c :: 0 <= c < cursors.Length ==> cursors[c] == Advance(starts, frames, numChannels)[c];
    assert cursors[..] == Advance(starts, frames, numChannels);
    WroteConverted(dest[..], old(dest[..]), at, chans, starts, numSamples, numChannels, numBits);
  }
}
