/**
 The half-complex transform pair the convolver runs on, from a table of cosines and sines, with its
 inversion theorem and its convolution theorem.

 The foreign library's R2HC and HC2R transforms are modelled by their defining sums. The only facts
 used about the table are the ones listed in `Table.Valid`; orthogonality is proved from them.
 */
module HalfComplex {
  import opened Arithmetic
  import opened Sums

  /** cos(m) and sin(m) stand for the cosine and sine of 2*pi*m/n. */
  datatype Table = Table(n: nat, cos: int -> real, sin: int -> real) {

    ghost predicate Adds(a: int, b: int) {
      && cos(a + b) == cos(a) * cos(b) - sin(a) * sin(b)
      && sin(a + b) == sin(a) * cos(b) + cos(a) * sin(b)
    }

    ghost predicate Reflects(a: int) {
      cos(-a) == cos(a) && sin(-a) == -sin(a)
    }

    ghost predicate Turning(m: int) {
      cos(m) != 1.0
    }

    /** n is even, the angle-addition laws hold, cosine is even and sine odd, n steps make one full
        turn, and no smaller positive number of steps does. */
    ghost predicate Valid() {
      && n > 0 && n % 2 == 0
      && (forall a: int, b: int :: Adds(a, b))
      && (forall a: int :: Reflects(a))
      && cos(0) == 1.0 && sin(0) == 0.0
      && cos(n) == 1.0 && sin(n) == 0.0
      && (forall m: int :: 0 < m < n ==> Turning(m))
    }
  }

  // ---------------------------------------------------------------- turning by whole circles

  lemma Addition(t: Table, a: int, b: int)
    requires t.Valid()
    ensures t.cos(a + b) == t.cos(a) * t.cos(b) - t.sin(a) * t.sin(b)
    ensures t.sin(a + b) == t.sin(a) * t.cos(b) + t.cos(a) * t.sin(b)
  {
    assert t.Adds(a, b);
  }

  lemma Subtraction(t: Table, a: int, b: int)
    requires t.Valid()
    ensures t.cos(a - b) == t.cos(a) * t.cos(b) + t.sin(a) * t.sin(b)
    ensures t.sin(a - b) == t.sin(a) * t.cos(b) - t.cos(a) * t.sin(b)
  {
    Addition(t, a, -b);
    assert t.Reflects(b);
    assert a + -b == a - b;
  }

  lemma {:induction false} FullTurns(t: Table, q: int)
    requires t.Valid()
    ensures t.cos(t.n * q) == 1.0 && t.sin(t.n * q) == 0.0
    decreases if q < 0 then -q else q
  {
    if q > 0 {
      FullTurns(t, q - 1);
      Addition(t, t.n * (q - 1), t.n);
      assert t.n * q == t.n * (q - 1) + t.n;
    } else if q < 0 {
      FullTurns(t, q + 1);
      Subtraction(t, t.n * (q + 1), t.n);
      assert t.n * q == t.n * (q + 1) - t.n;
    } else {
      assert t.n * q == 0;
    }
  }

  /** The table is periodic. */
  lemma Periodic(t: Table, a: int, q: int)
    requires t.Valid()
    ensures t.cos(a + t.n * q) == t.cos(a)
    ensures t.sin(a + t.n * q) == t.sin(a)
  {
    FullTurns(t, q);
    Addition(t, a, t.n * q);
  }

  /** Half a turn is -1. */
  lemma HalfTurn(t: Table)
    requires t.Valid()
    ensures t.cos(t.n / 2) == -1.0 && t.sin(t.n / 2) == 0.0
  {
    var h := t.n / 2;
    assert t.Reflects(h) && t.Turning(h);
    Periodic(t, -h, 1);
    assert -h + t.n * 1 == h;
    assert t.sin(h) == -t.sin(h);
    Addition(t, h, h);
    assert t.cos(h) * t.cos(h) == 1.0;
    assert (t.cos(h) - 1.0) * (t.cos(h) + 1.0) == 0.0;
  }

  lemma NotOne(t: Table, m: int)
    requires t.Valid() && m % t.n != 0
    ensures t.cos(m) != 1.0
  {
    assert t.Turning(m % t.n);
    Periodic(t, m % t.n, m / t.n);
    assert m % t.n + t.n * (m / t.n) == m;
  }

  // ---------------------------------------------------------------- orthogonality

  /** k -> cos(m*k) and k -> sin(m*k), the m-th basis waves. */
  function CosWave(t: Table, m: int): int -> real {
    k => t.cos(m * k)
  }

  function SinWave(t: Table, m: int): int -> real {
    k => t.sin(m * k)
  }

  /** Summing over steps 1 to n instead of 0 to n-1 changes nothing when both ends agree. */
  lemma ShiftedSum(n: nat, f: int -> real, g: int -> real)
    requires f(n) == f(0)
    requires forall k :: 0 <= k < n ==> g(k) == f(k + 1)
    ensures Sum(n, g) == Sum(n, f)
  {
    SumSplit(1, n, f, g);
    assert Sum(1, f) == Sum(0, f) + f(0);
    assert Sum(n + 1, f) == Sum(n, f) + f(n);
  }

  lemma WaveStep(t: Table, m: int, k: int)
    requires t.Valid()
    ensures CosWave(t, m)(k + 1) == t.cos(m) * CosWave(t, m)(k) + (-t.sin(m)) * SinWave(t, m)(k)
    ensures SinWave(t, m)(k + 1) == t.cos(m) * SinWave(t, m)(k) + t.sin(m) * CosWave(t, m)(k)
  {
    Addition(t, m * k, m);
    assert m * (k + 1) == m * k + m;
  }

  lemma WaveEnds(t: Table, m: int)
    requires t.Valid()
    ensures CosWave(t, m)(t.n) == CosWave(t, m)(0) && SinWave(t, m)(t.n) == SinWave(t, m)(0)
  {
    FullTurns(t, m);
    assert m * t.n == t.n * m && m * 0 == 0;
  }

  /** Stepping both waves once rotates their sums. */
  lemma SteppedCos(t: Table, m: int, cs: int -> real)
    requires t.Valid()
    requires forall k :: 0 <= k < t.n ==> cs(k) == CosWave(t, m)(k + 1)
    ensures Sum(t.n, cs) == t.cos(m) * Sum(t.n, CosWave(t, m)) + (-t.sin(m)) * Sum(t.n, SinWave(t, m))
  {
    hide *;
    forall k | 0 <= k < t.n
      ensures cs(k) == t.cos(m) * CosWave(t, m)(k) + (-t.sin(m)) * SinWave(t, m)(k)
    {
      WaveStep(t, m, k);
    }
    SumLinear(t.n, t.cos(m), CosWave(t, m), -t.sin(m), SinWave(t, m), cs);
  }

  lemma SteppedSin(t: Table, m: int, ss: int -> real)
    requires t.Valid()
    requires forall k :: 0 <= k < t.n ==> ss(k) == SinWave(t, m)(k + 1)
    ensures Sum(t.n, ss) == t.cos(m) * Sum(t.n, SinWave(t, m)) + t.sin(m) * Sum(t.n, CosWave(t, m))
  {
    hide *;
    forall k | 0 <= k < t.n
      ensures ss(k) == t.cos(m) * SinWave(t, m)(k) + t.sin(m) * CosWave(t, m)(k)
    {
      WaveStep(t, m, k);
    }
    SumLinear(t.n, t.cos(m), SinWave(t, m), t.sin(m), CosWave(t, m), ss);
  }

  /** Stepping both waves once leaves their sums alone. */
  lemma StationarySums(t: Table, m: int, cs: int -> real, ss: int -> real)
    requires t.Valid()
    requires forall k :: 0 <= k < t.n ==> cs(k) == CosWave(t, m)(k + 1) && ss(k) == SinWave(t, m)(k + 1)
    ensures Sum(t.n, cs) == Sum(t.n, CosWave(t, m)) && Sum(t.n, ss) == Sum(t.n, SinWave(t, m))
  {
    hide *;
    WaveEnds(t, m);
    ShiftedSum(t.n, CosWave(t, m), cs);
    ShiftedSum(t.n, SinWave(t, m), ss);
  }

  lemma SignOfProduct(a: real, b: real)
    ensures a > 0.0 && b > 0.0 ==> a * b > 0.0
    ensures a > 0.0 && b < 0.0 ==> a * b < 0.0
    ensures a < 0.0 && b > 0.0 ==> a * b < 0.0
    ensures a < 0.0 && b < 0.0 ==> a * b > 0.0
  {
  }

  lemma FixedPair(c: real, s: real, d: real, sm: real)
    requires d * c == -(sm * s) && d * s == sm * c
    requires d != 0.0
    ensures c == 0.0
  {
    SignOfProduct(d, c);
    SignOfProduct(d, s);
    SignOfProduct(sm, c);
    SignOfProduct(sm, s);
  }

  /** A pair (c, s) whose image (c1, s1) under a rotation other than the identity is itself is zero. */
  lemma FixedByRotation(c: real, s: real, c1: real, s1: real, cm: real, sm: real)
    requires c1 == cm * c + (-sm) * s && s1 == cm * s + sm * c
    requires c1 == c && s1 == s && cm != 1.0
    ensures c == 0.0
  {
    OneMinus(cm, c);
    OneMinus(cm, s);
    FixedPair(c, s, 1.0 - cm, sm);
  }

  lemma OneMinus(a: real, b: real)
    ensures (1.0 - a) * b == b - a * b
  {
  }

  lemma WaveSumVanishes(t: Table, m: int)
    requires t.Valid() && m % t.n != 0
    ensures Sum(t.n, CosWave(t, m)) == 0.0
  {
    hide *;
    var cs, ss := k => CosWave(t, m)(k + 1), k => SinWave(t, m)(k + 1);
    SteppedCos(t, m, cs);
    SteppedSin(t, m, ss);
    StationarySums(t, m, cs, ss);
    NotOne(t, m);
    FixedByRotation(Sum(t.n, CosWave(t, m)), Sum(t.n, SinWave(t, m)), Sum(t.n, cs), Sum(t.n, ss), t.cos(m), t.sin(m));
  }

  /** Orthogonality: over one period a cosine wave sums to n when it is constant and to 0 otherwise. */
  lemma Orthogonality(t: Table, m: int)
    requires t.Valid()
    ensures Sum(t.n, CosWave(t, m)) == if m % t.n == 0 then t.n as real else 0.0
  {
    if m % t.n == 0 {
      forall k | 0 <= k < t.n ensures CosWave(t, m)(k) == 1.0 {
        FullTurns(t, (m / t.n) * k);
        assert m * k == t.n * ((m / t.n) * k) by {
          assert m == t.n * (m / t.n);
        }
      }
      SumOnes(t.n, CosWave(t, m));
    } else {
      WaveSumVanishes(t, m);
    }
  }

  lemma {:induction false} SumOnes(n: nat, f: int -> real)
    requires forall i :: 0 <= i < n ==> f(i) == 1.0
    ensures Sum(n, f) == n as real
  {
    if n > 0 {
      SumOnes(n - 1, f);
    }
  }

  // ---------------------------------------------------------------- the transforms

  /** Sample a of x against the wave of frequency k that starts at phase m. */
  function CosTaps(t: Table, x: seq<real>, m: int, k: int): int -> real {
    a => At(x, a) * t.cos(m + a * k)
  }

  function SinTaps(t: Table, x: seq<real>, m: int, k: int): int -> real {
    a => At(x, a) * t.sin(m + a * k)
  }

  /** Real and imaginary part of bin k of the spectrum of x. */
  function Re(t: Table, x: seq<real>, k: int): real {
    Sum(|x|, CosTaps(t, x, 0, k))
  }

  function Im(t: Table, x: seq<real>, k: int): real {
    -SinSum(t, x, k)
  }

  function SinSum(t: Table, x: seq<real>, k: int): real {
    Sum(|x|, SinTaps(t, x, 0, k))
  }

  /** Real to half-complex: r0, r1, ..., r(n/2), i(n/2-1), ..., i1. */
  function R2HC(t: Table, x: seq<real>): (y: seq<real>)
    ensures |y| == |x|
  {
    seq(|x|, k => if 2 * k <= |x| then Re(t, x, k) else Im(t, x, |x| - k))
  }

  /** The spectrum a half-complex array stands for: conjugate-symmetric in its bins. */
  function BinRe(y: seq<real>, k: int): real {
    if 2 * k <= |y| then At(y, k) else At(y, |y| - k)
  }

  function BinIm(y: seq<real>, k: int): real {
    if k == 0 || 2 * k == |y| then 0.0 else if 2 * k < |y| then At(y, |y| - k) else -At(y, k)
  }

  /** The term bin k adds to time sample j. */
  function InverseTerm(t: Table, y: seq<real>, j: int): int -> real {
    k => BinRe(y, k) * t.cos(j * k) - BinIm(y, k) * t.sin(j * k)
  }

  /** Half-complex to real, unnormalised. */
  function HC2R(t: Table, y: seq<real>): (x: seq<real>)
    ensures |x| == |y|
  {
    seq(|y|, j => Sum(|y|, InverseTerm(t, y, j)))
  }

  /** Entry k of the bin-by-bin complex product of two half-complex arrays. */
  function ProductEntry(y: seq<real>, z: seq<real>, k: int): real {
    var n := |y|;
    if k == 0 || 2 * k == n then At(y, k) * At(z, k)
    else if 2 * k < n then At(y, k) * At(z, k) - At(y, n - k) * At(z, n - k)
    else At(y, n - k) * At(z, k) + At(y, k) * At(z, n - k)
  }

  function Product(y: seq<real>, z: seq<real>): (p: seq<real>)
    ensures |p| == |y|
  {
    seq(|y|, k => ProductEntry(y, z, k))
  }

  /** The product array stands for the bin-by-bin product of the two spectra. */
  lemma ProductBins(y: seq<real>, z: seq<real>, k: int)
    requires |y| == |z| && 0 <= k < |y|
    ensures BinRe(Product(y, z), k) == BinRe(y, k) * BinRe(z, k) - BinIm(y, k) * BinIm(z, k)
    ensures BinIm(Product(y, z), k) == BinRe(y, k) * BinIm(z, k) + BinIm(y, k) * BinRe(z, k)
  {
    var n := |y|;
    assert At(Product(y, z), k) == ProductEntry(y, z, k);
    if k > 0 {
      assert At(Product(y, z), n - k) == ProductEntry(y, z, n - k);
    }
    hide Product, At;
  }

  /** The spectrum of a real signal is conjugate-symmetric. */
  lemma Mirror(t: Table, x: seq<real>, k: int)
    requires t.Valid() && |x| == t.n
    ensures Re(t, x, t.n - k) == Re(t, x, k)
    ensures Im(t, x, t.n - k) == -Im(t, x, k)
  {
    hide Sum, At;
    var n := t.n;
    forall a | 0 <= a < n
      ensures CosTaps(t, x, 0, n - k)(a) == CosTaps(t, x, 0, k)(a)
      ensures SinTaps(t, x, 0, n - k)(a) == (-1.0) * SinTaps(t, x, 0, k)(a)
    {
      assert a * (n - k) == -(a * k) + n * a;
      assert t.Reflects(a * k);
      Periodic(t, -(a * k), a);
      MinusTimes(At(x, a), t.sin(a * k));
    }
    SumEq(n, CosTaps(t, x, 0, k), CosTaps(t, x, 0, n - k));
    SumScale(n, -1.0, SinTaps(t, x, 0, k), SinTaps(t, x, 0, n - k));
  }

  lemma MinusTimes(a: real, b: real)
    ensures a * (-b) == (-1.0) * (a * b)
  {
  }

  lemma RealBins(t: Table, x: seq<real>)
    requires t.Valid() && |x| == t.n
    ensures Im(t, x, 0) == 0.0 && Im(t, x, t.n / 2) == 0.0
  {
    Mirror(t, x, t.n / 2);
    assert t.n - t.n / 2 == t.n / 2;
    forall a | 0 <= a < |x| ensures SinTaps(t, x, 0, 0)(a) == 0.0 {
      assert a * 0 == 0;
    }
    SumZero(|x|, SinTaps(t, x, 0, 0));
  }

  /** R2HC stores exactly the bins of the signal's spectrum. */
  lemma TransformBins(t: Table, x: seq<real>, k: int)
    requires t.Valid() && |x| == t.n && 0 <= k < t.n
    ensures BinRe(R2HC(t, x), k) == Re(t, x, k)
    ensures BinIm(R2HC(t, x), k) == Im(t, x, k)
  {
    Mirror(t, x, k);
    RealBins(t, x);
  }

  /** One sample against a wave that starts at phase m. */
  lemma PhaseTerm(t: Table, v: real, m: int, w: int)
    requires t.Valid()
    ensures v * t.cos(m + w) == t.cos(m) * (v * t.cos(w)) + (-t.sin(m)) * (v * t.sin(w))
    ensures v * t.sin(m + w) == t.sin(m) * (v * t.cos(w)) + t.cos(m) * (v * t.sin(w))
  {
    Addition(t, m, w);
    var cm, sm, cw, sw := t.cos(m), t.sin(m), t.cos(w), t.sin(w);
    assert v * (cm * cw - sm * sw) == cm * (v * cw) + (-sm) * (v * sw);
    assert v * (sm * cw + cm * sw) == sm * (v * cw) + cm * (v * sw);
  }

  /** A signal against a wave that starts at phase m: the phase comes out as a rotation. */
  lemma Phase(t: Table, x: seq<real>, m: int, k: int)
    requires t.Valid()
    ensures Sum(|x|, CosTaps(t, x, m, k)) == t.cos(m) * Re(t, x, k) + (-t.sin(m)) * SinSum(t, x, k)
    ensures Sum(|x|, SinTaps(t, x, m, k)) == t.sin(m) * Re(t, x, k) + t.cos(m) * SinSum(t, x, k)
  {
    hide Sum, At, CosTaps, SinTaps;
    var cf, sf := CosTaps(t, x, 0, k), SinTaps(t, x, 0, k);
    forall a | 0 <= a < |x|
      ensures CosTaps(t, x, m, k)(a) == t.cos(m) * cf(a) + (-t.sin(m)) * sf(a)
      ensures SinTaps(t, x, m, k)(a) == t.sin(m) * cf(a) + t.cos(m) * sf(a)
    {
      TapPhase(t, x, m, k, a);
    }
    SumLinear(|x|, t.cos(m), cf, -t.sin(m), sf, CosTaps(t, x, m, k));
    SumLinear(|x|, t.sin(m), cf, t.cos(m), sf, SinTaps(t, x, m, k));
  }

  lemma TapPhase(t: Table, x: seq<real>, m: int, k: int, a: int)
    requires t.Valid()
    ensures CosTaps(t, x, m, k)(a) == t.cos(m) * CosTaps(t, x, 0, k)(a) + (-t.sin(m)) * SinTaps(t, x, 0, k)(a)
    ensures SinTaps(t, x, m, k)(a) == t.sin(m) * CosTaps(t, x, 0, k)(a) + t.cos(m) * SinTaps(t, x, 0, k)(a)
  {
    hide At;
    PhaseTerm(t, At(x, a), m, a * k);
    assert 0 + a * k == a * k;
  }

  // ---------------------------------------------------------------- the convolution theorem

  /** Circular convolution of x with h, at time j. */
  function Circular(x: seq<real>, h: seq<real>, j: int): real
    requires |x| > 0
  {
    Sum(|h|, CircularTerm(x, h, j))
  }

  function CircularTerm(x: seq<real>, h: seq<real>, j: int): int -> real
    requires |x| > 0
  {
    b => At(h, b) * At(x, (j - b) % |x|)
  }

  /** Tap b of h against bin k of x, at time j. */
  function DoubleWave(t: Table, x: seq<real>, h: seq<real>, j: int, k: int, b: int): real {
    At(h, b) * Sum(|x|, CosTaps(t, x, (b - j) * k, k))
  }

  /** Four products regrouped: rotating both spectra equals rotating their product. */
  lemma RotateProduct(xr: real, xs: real, hr: real, hs: real, c: real, s: real)
    ensures (xr * hr - (-xs) * (-hs)) * c - (xr * (-hs) + (-xs) * hr) * s
         == xr * (c * hr + s * hs) + (-xs) * ((-s) * hr + c * hs)
  {
  }

  /** Bin k of the product, rotated to time j. */
  lemma BinRotated(t: Table, x: seq<real>, h: seq<real>, j: int, k: int)
    requires t.Valid() && |x| == |h| == t.n && 0 <= k < t.n
    ensures InverseTerm(t, Product(R2HC(t, x), R2HC(t, h)), j)(k)
         == (Re(t, x, k) * Re(t, h, k) - Im(t, x, k) * Im(t, h, k)) * t.cos(j * k)
          - (Re(t, x, k) * Im(t, h, k) + Im(t, x, k) * Re(t, h, k)) * t.sin(j * k)
  {
    hide Re, Im, R2HC, BinRe, BinIm, Product;
    TransformBins(t, x, k);
    TransformBins(t, h, k);
    ProductBins(R2HC(t, x), R2HC(t, h), k);
  }

  lemma DoubleWaveSplit(t: Table, x: seq<real>, h: seq<real>, j: int, k: int, b: int)
    requires t.Valid()
    ensures DoubleWave(t, x, h, j, k, b)
         == Re(t, x, k) * CosTaps(t, h, -(j * k), k)(b) + (-SinSum(t, x, k)) * SinTaps(t, h, -(j * k), k)(b)
  {
    hide Re, SinSum, Sum, At;
    var m := (b - j) * k;
    assert m == -(j * k) + b * k;
    Phase(t, x, m, k);
    RotateTap(At(h, b), t.cos(m), Re(t, x, k), t.sin(m), SinSum(t, x, k));
  }

  /** All of h against bin k of x. */
  lemma DoubleWaveSum(t: Table, x: seq<real>, h: seq<real>, j: int, k: int, m: int, row: int -> real)
    requires t.Valid() && m == -(j * k)
    requires forall b :: 0 <= b < |h| ==> row(b) == DoubleWave(t, x, h, j, k, b)
    ensures Sum(|h|, row)
         == Re(t, x, k) * (t.cos(m) * Re(t, h, k) + (-t.sin(m)) * SinSum(t, h, k))
          + (-SinSum(t, x, k)) * (t.sin(m) * Re(t, h, k) + t.cos(m) * SinSum(t, h, k))
  {
    hide *;
    var hc, hs := CosTaps(t, h, m, k), SinTaps(t, h, m, k);
    forall b | 0 <= b < |h| ensures row(b) == Re(t, x, k) * hc(b) + (-SinSum(t, x, k)) * hs(b) {
      DoubleWaveSplit(t, x, h, j, k, b);
    }
    SumLinear(|h|, Re(t, x, k), hc, -SinSum(t, x, k), hs, row);
    Phase(t, h, m, k);
  }

  lemma BinShare(t: Table, x: seq<real>, h: seq<real>, j: int, k: int, row: int -> real)
    requires t.Valid() && |x| == |h| == t.n && 0 <= k < t.n
    requires forall b :: 0 <= b < |h| ==> row(b) == DoubleWave(t, x, h, j, k, b)
    ensures InverseTerm(t, Product(R2HC(t, x), R2HC(t, h)), j)(k) == Sum(t.n, row)
  {
    hide Re, SinSum, Sum, R2HC, InverseTerm, DoubleWave;
    BinRotated(t, x, h, j, k);
    DoubleWaveSum(t, x, h, j, k, -(j * k), row);
    assert t.Reflects(j * k);
    RotateProduct(Re(t, x, k), SinSum(t, x, k), Re(t, h, k), SinSum(t, h, k), t.cos(j * k), t.sin(j * k));
  }

  lemma RotateTap(v: real, c: real, r: real, s: real, i: real)
    ensures v * (c * r + (-s) * i) == r * (v * c) + (-i) * (v * s)
  {
  }

  /** Sample a of x against wave d + a, at bin k. */
  function DoubleTerm(t: Table, x: seq<real>, d: int): (int, int) -> real {
    (k, a) => At(x, a) * t.cos(d * k + a * k)
  }

  lemma BinsOfSample(t: Table, x: seq<real>, d: int, a: int)
    requires t.Valid()
    ensures Col(t.n, DoubleTerm(t, x, d), a) == At(x, a) * if (a + d) % t.n == 0 then t.n as real else 0.0
  {
    hide Sum, At;
    var col := k => DoubleTerm(t, x, d)(k, a);
    forall k | 0 <= k < t.n ensures col(k) == At(x, a) * CosWave(t, a + d)(k) {
      var m := a + d;
      assert d * k + a * k == m * k;
      assert CosWave(t, m)(k) == t.cos(m * k) == t.cos(d * k + a * k);
      assert col(k) == DoubleTerm(t, x, d)(k, a) == At(x, a) * t.cos(d * k + a * k);
    }
    SumScale(t.n, At(x, a), CosWave(t, a + d), col);
    Orthogonality(t, a + d);
  }

  lemma CloseCircle(n: nat, a: int, d: int)
    requires n > 0 && 0 <= a < n
    ensures (a + d) % n == 0 <==> a == (-d) % n
  {
    var q, r := (-d) / n, (-d) % n;
    if (a + d) % n == 0 {
      var p := (a + d) / n;
      assert a - r == n * (p + q);
      SmallMultiple(n, a - r, p + q);
    }
    if a == r {
      assert a + d == n * (-q);
      ModOfMultiple(n, -q);
    }
  }

  /** Only the one sample of x whose index closes the circle survives the sum over the bins. */
  lemma SamplesAndBins(t: Table, x: seq<real>, d: int, rows: int -> real)
    requires t.Valid() && |x| == t.n
    requires forall k :: 0 <= k < t.n ==> rows(k) == Row(t.n, DoubleTerm(t, x, d), k)
    ensures Sum(t.n, rows) == At(x, (-d) % t.n) * t.n as real
  {
    hide Sum, At, Row, Col, DoubleTerm;
    var n, u := t.n, DoubleTerm(t, x, d);
    var cols := a => Col(n, u, a);
    SumSwap(n, n, u, rows, cols);
    forall a | 0 <= a < n
      ensures cols(a) == At(x, a) * if a == (-d) % n then n as real else 0.0
    {
      BinsOfSample(t, x, d, a);
      CloseCircle(n, a, d);
    }
    SumOnly(n, (-d) % n, cols);
  }

  lemma TapShare(t: Table, x: seq<real>, h: seq<real>, j: int, b: int, dw: int -> real)
    requires t.Valid() && |x| == |h| == t.n
    requires forall k :: 0 <= k < t.n ==> dw(k) == DoubleWave(t, x, h, j, k, b)
    ensures Sum(t.n, dw) == t.n as real * CircularTerm(x, h, j)(b)
  {
    hide Sum, At;
    var n, u := t.n, DoubleTerm(t, x, b - j);
    var rows := k => Row(n, u, k);
    forall k | 0 <= k < n ensures dw(k) == At(h, b) * rows(k) {
      SumEq(n, a => u(k, a), CosTaps(t, x, (b - j) * k, k));
    }
    SumScale(n, At(h, b), rows, dw);
    SamplesAndBins(t, x, b - j, rows);
    assert -(b - j) == j - b;
    Reorder(At(h, b), At(x, (j - b) % n), n as real);
  }

  lemma Reorder(v: real, w: real, n: real)
    ensures v * (w * n) == n * (v * w)
  {
  }

  /** The convolution theorem: the product of two spectra transforms back to n times the circular
      convolution of the two signals. */
  lemma ConvolutionTheorem(t: Table, x: seq<real>, h: seq<real>, j: int)
    requires t.Valid() && |x| == |h| == t.n && 0 <= j < t.n
    ensures HC2R(t, Product(R2HC(t, x), R2HC(t, h)))[j] == t.n as real * Circular(x, h, j)
  {
    hide Sum, DoubleWave, InverseTerm, CircularTerm, R2HC, Product;
    var n := t.n;
    var d := (k: int, b: int) => DoubleWave(t, x, h, j, k, b);
    var inv := InverseTerm(t, Product(R2HC(t, x), R2HC(t, h)), j);
    var cols := b => Col(n, d, b);
    forall k | 0 <= k < n ensures inv(k) == Row(n, d, k) {
      BinShare(t, x, h, j, k, b => d(k, b));
    }
    SumSwap(n, n, d, inv, cols);
    forall b | 0 <= b < n ensures cols(b) == n as real * CircularTerm(x, h, j)(b) {
      TapShare(t, x, h, j, b, k => d(k, b));
    }
    SumScale(n, n as real, CircularTerm(x, h, j), cols);
  }

  // ---------------------------------------------------------------- inversion and linearity

  lemma InverseBin(t: Table, x: seq<real>, j: int, k: int)
    requires t.Valid() && |x| == t.n && 0 <= k < t.n
    ensures InverseTerm(t, R2HC(t, x), j)(k) == t.cos(j * k) * Re(t, x, k) + t.sin(j * k) * SinSum(t, x, k)
  {
    hide R2HC, BinRe, BinIm, Re, SinSum;
    TransformBins(t, x, k);
    CommuteTerm(Re(t, x, k), SinSum(t, x, k), t.cos(j * k), t.sin(j * k));
  }

  lemma CommuteTerm(r: real, s: real, c: real, d: real)
    ensures r * c - (-s) * d == c * r + d * s
  {
  }

  /** HC2R undoes R2HC up to a factor n. */
  lemma InversionTheorem(t: Table, x: seq<real>, j: int)
    requires t.Valid() && |x| == t.n && 0 <= j < t.n
    ensures HC2R(t, R2HC(t, x))[j] == t.n as real * At(x, j)
  {
    hide Sum, R2HC, At, Row, DoubleTerm, InverseTerm;
    var inv := InverseTerm(t, R2HC(t, x), j);
    forall k | 0 <= k < t.n ensures inv(k) == Row(t.n, DoubleTerm(t, x, -j), k) {
      InverseBin(t, x, j, k);
      PhaseAtTime(t, x, j, k);
    }
    SamplesAndBins(t, x, -j, inv);
    assert (-(-j)) % t.n == j by {
      SmallMod(j, t.n);
    }
  }

  lemma SmallMod(j: int, n: int)
    requires 0 <= j < n
    ensures j % n == j
  {
  }

  lemma PhaseAtTime(t: Table, x: seq<real>, j: int, k: int)
    requires t.Valid() && |x| == t.n
    ensures Row(t.n, DoubleTerm(t, x, -j), k) == t.cos(j * k) * Re(t, x, k) + t.sin(j * k) * SinSum(t, x, k)
  {
    hide Re, SinSum, Sum, At;
    assert t.Reflects(j * k);
    var m := -(j * k);
    assert (-j) * k == m;
    Phase(t, x, m, k);
    var row := a => DoubleTerm(t, x, -j)(k, a);
    forall a | 0 <= a < t.n ensures row(a) == CosTaps(t, x, m, k)(a) {
      assert row(a) == DoubleTerm(t, x, -j)(k, a) == At(x, a) * t.cos((-j) * k + a * k);
    }
    SumEq(t.n, row, CosTaps(t, x, m, k));
  }

  /** y scaled by s, entry by entry. */
  function Scaled(y: seq<real>, s: real): (r: seq<real>)
    ensures |r| == |y|
  {
    seq(|y|, i requires 0 <= i < |y| => y[i] * s)
  }

  /** Entry-by-entry sum. */
  function Added(y: seq<real>, z: seq<real>): (r: seq<real>)
    requires |y| == |z|
    ensures |r| == |y|
  {
    seq(|y|, i requires 0 <= i < |y| => y[i] + z[i])
  }

  lemma ScaledBins(y: seq<real>, s: real, k: int)
    requires 0 <= k < |y|
    ensures BinRe(Scaled(y, s), k) == BinRe(y, k) * s
    ensures BinIm(Scaled(y, s), k) == BinIm(y, k) * s
  {
  }

  lemma InverseScaled(t: Table, y: seq<real>, s: real, j: int)
    requires 0 <= j < |y|
    ensures HC2R(t, Scaled(y, s))[j] == s * HC2R(t, y)[j]
  {
    hide BinRe, BinIm, Scaled, Sum;
    var f, g := InverseTerm(t, y, j), InverseTerm(t, Scaled(y, s), j);
    forall k | 0 <= k < |y| ensures g(k) == s * f(k) {
      ScaledBins(y, s, k);
      ScaleTerm(BinRe(y, k), BinIm(y, k), t.cos(j * k), t.sin(j * k), s);
    }
    SumScale(|y|, s, f, g);
  }

  lemma ScaleTerm(re: real, im: real, c: real, s: real, v: real)
    ensures (re * v) * c - (im * v) * s == v * (re * c - im * s)
  {
  }

  lemma AddedBins(y: seq<real>, z: seq<real>, k: int)
    requires |y| == |z| && 0 <= k < |y|
    ensures BinRe(Added(y, z), k) == BinRe(y, k) + BinRe(z, k)
    ensures BinIm(Added(y, z), k) == BinIm(y, k) + BinIm(z, k)
  {
  }

  lemma InverseAdded(t: Table, y: seq<real>, z: seq<real>, j: int)
    requires |y| == |z| && 0 <= j < |y|
    ensures HC2R(t, Added(y, z))[j] == HC2R(t, y)[j] + HC2R(t, z)[j]
  {
    hide BinRe, BinIm, Added, Sum;
    var f, g, h := InverseTerm(t, y, j), InverseTerm(t, z, j), InverseTerm(t, Added(y, z), j);
    forall k | 0 <= k < |y| ensures h(k) == 1.0 * f(k) + 1.0 * g(k) {
      AddedBins(y, z, k);
      AddTerm(BinRe(y, k), BinIm(y, k), BinRe(z, k), BinIm(z, k), t.cos(j * k), t.sin(j * k));
    }
    SumLinear(|y|, 1.0, f, 1.0, g, h);
  }

  lemma AddTerm(re: real, im: real, re': real, im': real, c: real, s: real)
    ensures (re + re') * c - (im + im') * s == (re * c - im * s) + (re' * c - im' * s)
  {
  }

  lemma ProductEntryScaled(y: seq<real>, z: seq<real>, a: real, b: real, k: int)
    requires |y| == |z| && 0 <= k < |y|
    ensures ProductEntry(Scaled(y, a), Scaled(z, b), k) == ProductEntry(y, z, k) * (a * b)
  {
    var n := |y|;
    var n' := n - k;
    assert At(Scaled(y, a), k) == At(y, k) * a && At(Scaled(z, b), k) == At(z, k) * b;
    assert At(Scaled(y, a), n') == At(y, n') * a && At(Scaled(z, b), n') == At(z, n') * b;
    hide At, Scaled;
    if k == 0 || 2 * k == n {
      ScaleProduct(At(y, k), At(z, k), a, b);
    } else if 2 * k < n {
      ScaleProduct(At(y, k), At(z, k), a, b);
      ScaleProduct(At(y, n'), At(z, n'), a, b);
      Factor(At(y, k) * At(z, k), At(y, n') * At(z, n'), a * b);
    } else {
      ScaleProduct(At(y, n'), At(z, k), a, b);
      ScaleProduct(At(y, k), At(z, n'), a, b);
      Factor(At(y, n') * At(z, k), At(y, k) * At(z, n'), a * b);
    }
  }

  /** Scaling both factors scales the product by both factors. */
  lemma ProductScaled(y: seq<real>, z: seq<real>, a: real, b: real)
    requires |y| == |z|
    ensures Product(Scaled(y, a), Scaled(z, b)) == Scaled(Product(y, z), a * b)
  {
    hide ProductEntry;
    forall k | 0 <= k < |y|
      ensures Product(Scaled(y, a), Scaled(z, b))[k] == Scaled(Product(y, z), a * b)[k]
    {
      ProductEntryScaled(y, z, a, b, k);
    }
  }

  lemma ScaleProduct(u: real, v: real, a: real, b: real)
    ensures (u * a) * (v * b) == (u * v) * (a * b)
  {
  }

  lemma Factor(u: real, v: real, w: real)
    ensures u * w - v * w == (u - v) * w && u * w + v * w == (u + v) * w
  {
  }
}
