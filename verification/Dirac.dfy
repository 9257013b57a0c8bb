/**
 Convolving with a unit impulse without a transform: alternating signs over the packed spectrum.
 */
module Dirac {
  import opened Sums
  import opened HalfComplex
  import opened PackedLayout
  import opened Fir
  import opened OverlapSave

  /** One tap of size one. */
  function UnitTap(len: nat): (h: seq<real>)
    requires len > 0
    ensures |h| == len
  {
    [1.0] + Zeros(len - 1)
  }

  function Alternating(k: int): real {
    if k % 2 == 0 then 1.0 else -1.0
  }

  /** k half turns. */
  lemma {:induction false} HalfTurns(t: Table, k: nat)
    requires t.Valid()
    ensures t.cos(t.n / 2 * k) == Alternating(k) && t.sin(t.n / 2 * k) == 0.0
  {
    var h := t.n / 2;
    if k == 0 {
      assert h * 0 == 0;
    } else {
      HalfTurns(t, k - 1);
      HalfTurn(t);
      Addition(t, h * (k - 1), h);
      assert h * (k - 1) + h == h * k;
    }
  }

  /** The bins of an impulse in the middle of a frame. */
  lemma ImpulseBins(t: Table, len: nat, k: nat)
    requires t.Valid() && t.n == 2 * len && len > 0
    ensures Re(t, Zeros(len) + UnitTap(len), k) == Alternating(k) && Im(t, Zeros(len) + UnitTap(len), k) == 0.0
  {
    var x := Zeros(len) + UnitTap(len);
    var f, g := CosTaps(t, x, 0, k), SinTaps(t, x, 0, k);
    forall a | 0 <= a < 2 * len && a != len ensures f(a) == 0.0 && g(a) == 0.0 {
      assert x[a] == 0.0;
    }
    SumOnly(2 * len, len, f);
    SumOnly(2 * len, len, g);
    assert x[len] == 1.0;
    HalfTurns(t, k);
  }

  /** What the loop multiplies position p with. */
  function DiracFactor(n: nat, p: int): real
    requires n > 0
  {
    Times(Alternating(p), Fraction(n))
  }

  function Fraction(n: nat): real
    requires n > 0
  {
    1.0 / n as real
  }

  /** Position p holds a real part, or the purely real last bin. */
  predicate RealSlot(p: int) {
    p % 8 < 4 || p == 4
  }

  /** Entry k of the impulse's scaled spectrum. */
  lemma ImpulseSpectrum(t: Table, len: nat, k: nat)
    requires t.Valid() && t.n == 2 * len && len > 0 && k < 2 * len
    ensures var y := Scaled(R2HC(t, Zeros(len) + UnitTap(len)), 1.0 / (2 * len) as real);
            At(y, k) == if 2 * k <= 2 * len then DiracFactor(2 * len, k) else 0.0
  {
    ImpulseBins(t, len, k);
    ImpulseBins(t, len, 2 * len - k);
    hide Re, Im, Alternating, UnitTap;
    var c := 1.0 / (2 * len) as real;
    Swapped(Alternating(k), c);
  }

  lemma Swapped(a: real, b: real)
    ensures a * b == b * a && 0.0 * b == 0.0 == b * 0.0
  {
  }

  /** The parity of a packed position is that of its bin. */
  lemma PackedParity(n: int, p: int)
    requires Packable(n) && 0 <= p < n && RealSlot(p)
    ensures 0 <= 2 * Ord(n, p) <= n && Ord(n, p) % 2 == p % 2
  {
    var g, q := p / 8, p % 8;
    assert p == 8 * g + q;
    if p == 4 {
      FirstGroup(n);
      HalfEven(n);
    } else {
      GroupParity(g, q);
      hide Ord;
      Parts(n, g, q);
    }
  }

  lemma HalfEven(n: int)
    requires n % 8 == 0
    ensures n / 2 % 2 == 0 && 2 * (n / 2) == n
  {
    var q := n / 8;
    assert n == 2 * (4 * q) && 4 * q == 2 * (2 * q);
  }

  lemma GroupParity(g: int, q: int)
    ensures (4 * g + q) % 2 == (8 * g + q) % 2
  {
  }

  /** The impulse's packed spectrum: alternating signs in the real slots, nothing in the imaginary ones. */
  lemma ImpulsePacked(t: Table, len: nat, p: int)
    requires t.Valid() && t.n == 2 * len && Packable(t.n) && 0 <= p < 2 * len
    ensures At(TapSpectrum(t, UnitTap(len)), p) ==
            if RealSlot(p) then DiracFactor(2 * len, p) else 0.0
  {
    assert len > 0;
    var y := Scaled(R2HC(t, Zeros(len) + UnitTap(len)), 1.0 / (2 * len) as real);
    assert |y| == 2 * len && TapSpectrum(t, UnitTap(len)) == Pack(y);
    hide *;
    PackAt(y, p);
    ImpulseSpectrum(t, len, Ord(2 * len, p));
    if RealSlot(p) {
      PackedParity(2 * len, p);
      SameFactor(2 * len, Ord(2 * len, p), p);
    } else {
      ImaginarySlot(2 * len, p);
    }
  }

  lemma SameFactor(n: nat, k: int, p: int)
    requires n > 0 && k % 2 == p % 2
    ensures DiracFactor(n, k) == DiracFactor(n, p)
  {
  }

  lemma ImaginarySlot(n: int, p: int)
    requires Packable(n) && 0 <= p < n && !RealSlot(p)
    ensures 2 * Ord(n, p) > n
  {
  }

  lemma Eighth(p: int)
    requires p >= 0 && !RealSlot(p)
    ensures 0 < p - 4 && (p - 4) % 8 == p % 8 - 4 && RealSlot(p - 4) && (p - 4) % 2 == p % 2
  {
  }

  /** The spectral product with the impulse is one multiplication per entry. */
  lemma DiracEntry(t: Table, len: nat, z: seq<real>, p: int)
    requires t.Valid() && t.n == 2 * len && Packable(t.n) && |z| == 2 * len && 0 <= p < |z|
    ensures PackedEntry(z, TapSpectrum(t, UnitTap(len)), p) == Times(z[p], DiracFactor(2 * len, p))
  {
    assert len > 0;
    var c := TapSpectrum(t, UnitTap(len));
    hide *;
    ImpulsePacked(t, len, p);
    if RealSlot(p) {
      if p != 0 && p != 4 {
        SlotAbove(2 * len, p);
        ImpulsePacked(t, len, p + 4);
      }
    } else {
      Eighth(p);
      ImpulsePacked(t, len, p - 4);
      SameFactor(2 * len, p - 4, p);
    }
    EntryWith(z, c, p, DiracFactor(2 * len, p));
  }

  /** Multiplying with a bin that has no imaginary part. */
  lemma EntryWith(z: seq<real>, c: seq<real>, p: int, f: real)
    requires 0 <= p < |z|
    requires RealSlot(p) ==> At(c, p) == f && (p != 0 && p != 4 ==> At(c, p + 4) == 0.0)
    requires !RealSlot(p) ==> At(c, p) == 0.0 && At(c, p - 4) == f
    ensures PackedEntry(z, c, p) == Times(z[p], f)
  {
  }

  lemma SlotAbove(n: int, p: int)
    requires Packable(n) && 0 < p < n && RealSlot(p) && p != 4
    ensures p + 4 < n && !RealSlot(p + 4)
  {
  }

  /** One pass of the loop. */
  method DiracPass(input: array<real>, output: array<real>, n: nat, fraction: real)
    requires input.Length == output.Length && n + 4 <= input.Length && n % 2 == 0
    modifies output
    ensures forall p :: n <= p < n + 4 ==> output[p] == Times(old(input[p]), Times(Alternating(p), fraction))
    ensures forall p :: 0 <= p < n || n + 4 <= p < output.Length ==> output[p] == old(output[p])
  {
    Signs(n, fraction);
    hide Times, Alternating;
    output[n+0] := Times(input[n+0], fraction);
    output[n+1] := Times(input[n+1], -fraction);
    output[n+2] := Times(input[n+2], fraction);
    output[n+3] := Times(input[n+3], -fraction);
  }

  lemma Signs(n: int, fraction: real)
    requires n % 2 == 0
    ensures Times(Alternating(n), fraction) == fraction == Times(Alternating(n + 2), fraction)
    ensures Times(Alternating(n + 1), fraction) == -fraction == Times(Alternating(n + 3), fraction)
  {
  }

  /** The loop over the spectrum, four entries a pass. */
  method DiracLoop(input: array<real>, output: array<real>)
    requires input.Length == output.Length > 0 && input.Length % 4 == 0
    modifies output
    ensures forall p :: 0 <= p < output.Length ==> output[p] == Times(old(input[p]), DiracFactor(output.Length, p))
  {
    hide *;
    var size := input.Length;
    var fraction := Fraction(size);
    FactorsAre(size);
    ghost var q, passes := 0, Passes(size);
    var n := 0;
    while n < size
      invariant 0 <= q <= passes && n == 4 * q
      invariant forall p :: 0 <= p < n ==> output[p] == Times(old(input[p]), DiracFactor(size, p))
      invariant forall p :: n <= p < size ==> input[p] == old(input[p])
      decreases passes - q
    {
      EvenStart(n, q);
      DiracPass(input, output, n, fraction);
      n := n + 4;
      q := q + 1;
    }
  }

  function Passes(size: nat): (passes: nat)
    requires size % 4 == 0
    ensures size == 4 * passes
  {
    size / 4
  }

  lemma EvenStart(n: int, q: int)
    requires n == 4 * q
    ensures n % 2 == 0
  {
  }

  /** Convolution with a unit impulse, into another buffer or in place. */
  method DiracConvolve(ghost t: Table, input: array<real>, output: array<real>)
    requires t.Valid() && Packable(t.n) && input.Length == output.Length == t.n
    modifies output
    ensures output[..] == PackedProduct(old(input[..]), TapSpectrum(t, UnitTap(t.n / 2)))
  {
    DiracProduct(t, input[..]);
    assert t.n > 0 && t.n % 4 == 0;
    hide *;
    DiracLoop(input, output);
  }

  lemma FactorsAre(n: nat)
    requires n > 0
    ensures forall p :: DiracFactor(n, p) == Times(Alternating(p), Fraction(n))
  {
  }

  lemma DiracProduct(t: Table, z: seq<real>)
    requires t.Valid() && Packable(t.n) && |z| == t.n
    ensures |PackedProduct(z, TapSpectrum(t, UnitTap(t.n / 2)))| == |z|
    ensures forall p :: 0 <= p < |z| ==>
              PackedProduct(z, TapSpectrum(t, UnitTap(t.n / 2)))[p] ==
              Times(z[p], DiracFactor(|z|, p))
  {
    assert t.n / 2 > 0 && t.n == 2 * (t.n / 2);
    var len := t.n / 2;
    var c := TapSpectrum(t, UnitTap(len));
    hide TapSpectrum, PackedEntry, UnitTap, Table.Valid, Packable, DiracFactor, Times;
    forall p | 0 <= p < |z| ensures PackedProduct(z, c)[p] == Times(z[p], DiracFactor(|z|, p)) {
      DiracEntry(t, len, z, p);
    }
  }

  /** The signal passes a unit impulse unchanged. */
  lemma UnitResponse(len: nat, x: seq<real>, i: int)
    requires len > 0
    ensures Response(UnitTap(len), x, i) == At(x, i)
  {
    var h := UnitTap(len);
    var f := Tap(h, x, i);
    forall k | 0 <= k < len && k != 0 ensures f(k) == 0.0 {
      assert h[k] == 0.0;
    }
    SumOnly(len, 0, f);
    assert h[0] == 1.0;
  }

  /** Block b through the impulse stage comes back as it went in, scaled. */
  lemma DiracPassesThrough(t: Table, x: seq<real>, len: nat, b: int, s: real, u: int)
    requires t.Valid() && t.n == 2 * len && Packable(t.n) && 0 <= u < len
    ensures TimeSample(t, PackedProduct(InputSpectrum(t, x, len, b, s), TapSpectrum(t, UnitTap(len))), u)
         == s * At(x, b * len + u)
  {
    hide *;
    assert |UnitTap(len)| == len;
    PartitionResponse(t, x, UnitTap(len), b, s, u);
    UnitResponse(len, x, b * len + u);
  }
}
