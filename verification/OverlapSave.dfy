/**
 Uniformly partitioned overlap-save: multiplying the spectrum of [previous block | current block] with
 the spectrum of [zeros | taps] and keeping the first half is exact linear convolution, and summing such
 products over the partitions of a long filter gives the whole filter.
 */
module OverlapSave {
  import opened Arithmetic
  import opened Sums
  import opened HalfComplex
  import opened PackedLayout
  import opened Fir

  // ---------------------------------------------------------------- one partition, in the time domain

  /** Block b of x preceded by block b - 1; silence where x has not started or has ended. */
  function Frame(x: seq<real>, len: nat, b: int): (f: seq<real>)
    ensures |f| == 2 * len
  {
    seq(2 * len, i => At(x, (b - 1) * len + i))
  }

  /** First half of the circular convolution of [prev | cur] with [zeros | h] is the linear convolution. */
  lemma OverlapSaveStep(x: seq<real>, h: seq<real>, u: int)
    requires |x| == 2 * |h| && 0 <= u < |h|
    ensures Circular(x, Zeros(|h|) + h, u) == Response(h, x, |h| + u)
  {
    var len := |h|;
    var taps := Zeros(len) + h;
    var f, g := CircularTerm(x, taps, u), Tap(h, x, len + u);
    forall k | 0 <= k < len ensures g(k) == f(len + k) && f(k) == 0.0 {
      WrapBack(len, u, k);
      assert At(taps, k) == 0.0 && At(taps, len + k) == At(h, k);
    }
    SumSplit(len, len, f, g);
    SumZero(len, f);
  }

  lemma WrapBack(len: int, u: int, k: int)
    requires 0 <= u < len && 0 <= k < len
    ensures (u - (len + k)) % (2 * len) == len + u - k
  {
    assert u - (len + k) == (2 * len) * (-1) + (len + u - k);
    SmallRemainder(2 * len, -1, len + u - k);
  }

  /** A frame holds everything len taps can reach. */
  lemma FrameResponse(x: seq<real>, h: seq<real>, b: int, u: int)
    requires 0 <= u < |h|
    ensures Response(h, Frame(x, |h|, b), |h| + u) == Response(h, x, b * |h| + u)
  {
    var len := |h|;
    var f, g := Tap(h, Frame(x, len, b), len + u), Tap(h, x, b * len + u);
    forall k | 0 <= k < len ensures f(k) == g(k) {
      assert (b - 1) * len + (len + u - k) == b * len + u - k;
      assert At(Frame(x, len, b), len + u - k) == At(x, b * len + u - k);
    }
    SumEq(len, f, g);
  }

  // ---------------------------------------------------------------- one partition, through the spectra

  /** What a ring slot holds for block b: the packed spectrum of its frame times the input scale. */
  function InputSpectrum(t: Table, x: seq<real>, len: nat, b: int, s: real): (z: seq<real>)
    ensures |z| == 2 * len
  {
    Pack(Scaled(R2HC(t, Frame(x, len, b)), s))
  }

  /** What a coefficient block holds: the packed spectrum of [zeros | h] over the transform size. */
  function TapSpectrum(t: Table, h: seq<real>): (z: seq<real>)
    requires |h| > 0
    ensures |z| == 2 * |h|
  {
    Pack(Scaled(R2HC(t, Zeros(|h|) + h), 1.0 / (2 * |h|) as real))
  }

  /** Sample u of the signal a packed spectrum stands for. */
  function TimeSample(t: Table, z: seq<real>, u: int): real {
    At(HC2R(t, Unpack(z)), u)
  }

  lemma TimeSampleAdded(t: Table, y: seq<real>, z: seq<real>, u: int)
    requires Packable(|y|) && |z| == |y| && 0 <= u < |y|
    ensures TimeSample(t, Added(y, z), u) == TimeSample(t, y, u) + TimeSample(t, z, u)
  {
    hide HC2R, Unpack, Added;
    PackLinear(y, z, 0.0);
    InverseAdded(t, Unpack(y), Unpack(z), u);
  }

  /** The output stage: scaling while unpacking scales the signal. */
  lemma TimeSampleScaled(t: Table, z: seq<real>, s: real, u: int)
    requires Packable(|z|) && 0 <= u < |z|
    ensures At(HC2R(t, Scaled(Unpack(z), s)), u) == s * TimeSample(t, z, u)
  {
    hide HC2R, Unpack, Scaled;
    InverseScaled(t, Unpack(z), s, u);
  }

  lemma UnpackedProduct(y: seq<real>, z: seq<real>, a: real, b: real)
    requires Packable(|y|) && |y| == |z|
    ensures Unpack(PackedProduct(Pack(Scaled(y, a)), Pack(Scaled(z, b)))) == Scaled(Product(y, z), a * b)
  {
    hide *;
    PackedProductIsProduct(Scaled(y, a), Scaled(z, b));
    ProductScaled(y, z, a, b);
    PackRoundTrip(Scaled(Product(y, z), a * b));
  }

  lemma Normalised(s: real, n: real, v: real)
    requires n != 0.0
    ensures (s * (1.0 / n)) * (n * v) == s * v
  {
  }

  /** One partition: spectrum of the frame times spectrum of the taps is the taps' response. */
  lemma PartitionResponse(t: Table, x: seq<real>, h: seq<real>, b: int, s: real, u: int)
    requires t.Valid() && t.n == 2 * |h| && Packable(t.n) && 0 <= u < |h|
    ensures TimeSample(t, PackedProduct(InputSpectrum(t, x, |h|, b, s), TapSpectrum(t, h)), u)
         == s * Response(h, x, b * |h| + u)
  {
    hide HC2R, Unpack, Pack, Scaled, R2HC, Product, PackedProduct, Response, Frame, Circular, Zeros;
    var len := |h|;
    var f, g := Frame(x, len, b), Zeros(len) + h;
    var c := 1.0 / (2 * len) as real;
    UnpackedProduct(R2HC(t, f), R2HC(t, g), s, c);
    InverseScaled(t, Product(R2HC(t, f), R2HC(t, g)), s * c, u);
    ConvolutionTheorem(t, f, g, u);
    OverlapSaveStep(f, h, u);
    FrameResponse(x, h, b, u);
    Normalised(s, t.n as real, Response(h, x, b * len + u));
  }

  // ---------------------------------------------------------------- all partitions

  /** Partition i of the taps. */
  function Part(h: seq<real>, len: nat, i: nat): (p: seq<real>)
    requires (i + 1) * len <= |h|
    ensures |p| == len
  {
    PartBounds(|h|, len, i);
    h[i * len..(i + 1) * len]
  }

  lemma PartBounds(n: nat, len: nat, i: nat)
    requires (i + 1) * len <= n
    ensures 0 <= i * len <= (i + 1) * len == i * len + len <= n
  {
  }

  /** block is the spectrum of partition i of the taps. */
  ghost predicate HoldsPart(t: Table, block: seq<real>, h: seq<real>, len: nat, i: nat) {
    len > 0 && (i + 1) * len <= |h| && block == TapSpectrum(t, Part(h, len, i))
  }

  /** The running total after m partitions, the first one stored and the others added. */
  function Accumulated(t: Table, x: seq<real>, len: nat, b: int, s: real, h: seq<real>, m: nat): (z: seq<real>)
    requires len > 0 && m > 0 && m * len <= |h|
    ensures |z| == 2 * len
  {
    PartBounds(|h|, len, m - 1);
    var last := PackedProduct(InputSpectrum(t, x, len, b - (m - 1), s), TapSpectrum(t, Part(h, len, m - 1)));
    if m == 1 then last else Added(Accumulated(t, x, len, b, s, h, m - 1), last)
  }

  /** Accumulating m partitions filters with the first m * len taps. */
  lemma {:induction false} AccumulatedResponse(t: Table, x: seq<real>, len: nat, b: int, s: real, h: seq<real>,
                                               m: nat, u: int)
    requires len > 0 && m > 0 && m * len <= |h|
    requires t.Valid() && t.n == 2 * len && Packable(t.n) && 0 <= u < len
    ensures TimeSample(t, Accumulated(t, x, len, b, s, h, m), u) == s * Response(h[..m * len], x, b * len + u)
  {
    hide TimeSample, Response, PackedProduct, InputSpectrum, TapSpectrum, Added;
    PartBounds(|h|, len, m - 1);
    var part := Part(h, len, m - 1);
    PartitionResponse(t, x, part, b - (m - 1), s, u);
    var head := h[..(m - 1) * len];
    assert h[..m * len] == head + part;
    SplitTaps(head, part, x, b * len + u);
    assert (b - (m - 1)) * len + u == b * len + u - |head|;
    if m == 1 {
      assert h[..m * len] == part;
    } else {
      AccumulatedResponse(t, x, len, b, s, h, m - 1, u);
      TimeSampleAdded(t, Accumulated(t, x, len, b, s, h, m - 1),
                      PackedProduct(InputSpectrum(t, x, len, b - (m - 1), s), TapSpectrum(t, part)), u);
      Distribute(s, Response(head, x, b * len + u), Response(part, x, b * len + u - |head|));
    }
  }
}
