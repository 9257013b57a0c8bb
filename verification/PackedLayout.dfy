/**
 The convolver's own spectral layout: groups of four real parts followed by the four imaginary parts of
 the same bins, with the purely real last bin in the empty imaginary slot of bin 0.
 */
module PackedLayout {
  import opened Sums
  import opened HalfComplex

  /** Sizes the layout loops step through without a remainder; evenness is spelled out for the solver. */
  predicate Packable(n: int) {
    n >= 8 && n % 8 == 0 && n % 2 == 0
  }

  /** The half-complex index stored in slot q of group g. */
  function OrdAt(n: int, g: int, q: int): int {
    if q < 4 then 4 * g + q else if g == 0 && q == 4 then n / 2 else n - (4 * g + (q - 4))
  }

  /** The half-complex index stored at packed position p. */
  function Ord(n: int, p: int): int {
    OrdAt(n, p / 8, p % 8)
  }

  /** The packed position of half-complex index i. */
  function Pos(n: int, i: int): int {
    if 2 * i == n then 4
    else if 2 * i < n then 8 * (i / 4) + i % 4
    else 8 * ((n - i) / 4) + (n - i) % 4 + 4
  }

  lemma ByEight(g: int, q: int)
    requires 0 <= q < 8
    ensures (8 * g + q) / 8 == g && (8 * g + q) % 8 == q
  {
  }

  lemma ByFour(g: int, q: int)
    requires 0 <= q < 4
    ensures (4 * g + q) / 4 == g && (4 * g + q) % 4 == q
  {
  }

  /** Both directions of the layout, for the parts of bin 4*g + q. */
  lemma Parts(n: int, g: int, q: int)
    requires Packable(n) && 0 <= g < n / 8 && 0 <= q < 4
    ensures Ord(n, 8 * g + q) == 4 * g + q && 0 <= 2 * (4 * g + q) < n && Pos(n, 4 * g + q) == 8 * g + q
    ensures g + q > 0 ==>
              Ord(n, 8 * g + (q + 4)) == n - (4 * g + q) && Pos(n, n - (4 * g + q)) == 8 * g + (q + 4)
  {
    ByEight(g, q);
    ByEight(g, q + 4);
    ByFour(g, q);
  }

  lemma FirstGroup(n: int)
    requires Packable(n)
    ensures Ord(n, 0) == 0 && Ord(n, 4) == n / 2 && Pos(n, n / 2) == 4
  {
  }

  lemma OrdThenPos(n: int, p: int)
    requires Packable(n) && 0 <= p < n
    ensures 0 <= Ord(n, p) < n && Pos(n, Ord(n, p)) == p
  {
    hide Ord, Pos;
    var g, q := p / 8, p % 8;
    assert p == 8 * g + q;
    if p == 4 {
      FirstGroup(n);
    } else if q < 4 {
      Parts(n, g, q);
    } else {
      Parts(n, g, q - 4);
    }
  }

  lemma PosThenOrd(n: int, i: int)
    requires Packable(n) && 0 <= i < n
    ensures 0 <= Pos(n, i) < n && Ord(n, Pos(n, i)) == i
  {
    hide Ord, Pos;
    if 2 * i == n {
      FirstGroup(n);
    } else {
      var bin := if 2 * i < n then i else n - i;
      assert bin == 4 * (bin / 4) + bin % 4;
      Parts(n, bin / 4, bin % 4);
    }
  }

  /** The layout is a permutation of the n entries. */
  lemma Permutation(n: int, p: int)
    requires Packable(n) && 0 <= p < n
    ensures 0 <= Ord(n, p) < n && Pos(n, Ord(n, p)) == p
    ensures 0 <= Pos(n, p) < n && Ord(n, Pos(n, p)) == p
  {
    hide Ord, Pos;
    OrdThenPos(n, p);
    PosThenOrd(n, p);
  }

  function Pack(y: seq<real>): (z: seq<real>)
    ensures |z| == |y|
  {
    seq(|y|, p => At(y, Ord(|y|, p)))
  }

  function Unpack(z: seq<real>): (y: seq<real>)
    ensures |y| == |z|
  {
    seq(|z|, i => At(z, Pos(|z|, i)))
  }

  lemma OrdOf(n: int, g: nat, r: nat)
    requires r < 8
    ensures Ord(n, 8 * g + r) == OrdAt(n, g, r)
  {
    assert (8 * g + r) / 8 == g && (8 * g + r) % 8 == r;
  }

  lemma GroupInside(n: int, g: nat)
    requires Packable(n) && 8 * g < n
    ensures 8 * g + 8 <= n && n >= 8 && 0 <= n / 2 < n
  {
  }

  /** Of every eight numbers the first four are the real parts of four bins and the others their imaginary parts, the
      last bin of all taking the place of the imaginary part that the first one does not have. */
  lemma PackedAt(y: seq<real>, g: nat, q: nat)
    requires Packable(|y|) && 8 * g < |y| && q < 4
    ensures Pack(y)[8 * g + q] == y[4 * g + q]
    ensures g > 0 || q > 0 ==> Pack(y)[8 * g + 4 + q] == y[|y| - (4 * g + q)]
    ensures Pack(y)[4] == y[|y| / 2]
  {
    GroupInside(|y|, g);
    OrdOf(|y|, g, q);
    OrdOf(|y|, g, 4 + q);
    OrdOf(|y|, 0, 4);
    hide Ord, Packable;
  }

  /** Packing and unpacking undo each other. */
  lemma PackRoundTrip(y: seq<real>)
    requires Packable(|y|)
    ensures Unpack(Pack(y)) == y && Pack(Unpack(y)) == y
  {
    hide Ord, Pos;
    forall i | 0 <= i < |y| ensures Unpack(Pack(y))[i] == y[i] && Pack(Unpack(y))[i] == y[i] {
      Permutation(|y|, i);
    }
  }

  function Times(b: real, c: real): real {
    b * c
  }

  /** Real and imaginary part of the product of b and c, given by their parts. */
  function CRe(br: real, bi: real, cr: real, ci: real): real {
    br * cr - bi * ci
  }

  function CIm(br: real, bi: real, cr: real, ci: real): real {
    br * ci + bi * cr
  }

  /** What the multiplication loops compute at packed position p. */
  function PackedEntry(b: seq<real>, c: seq<real>, p: int): real {
    if p == 0 || p == 4 then Times(At(b, p), At(c, p))
    else if p % 8 < 4 then CRe(At(b, p), At(b, p + 4), At(c, p), At(c, p + 4))
    else CIm(At(b, p - 4), At(b, p), At(c, p - 4), At(c, p))
  }

  function PackedProduct(b: seq<real>, c: seq<real>): (d: seq<real>)
    ensures |d| == |b|
  {
    seq(|b|, p => PackedEntry(b, c, p))
  }

  lemma PackAt(y: seq<real>, p: int)
    requires Packable(|y|) && 0 <= p < |y|
    ensures 0 <= Ord(|y|, p) < |y| && At(Pack(y), p) == At(y, Ord(|y|, p))
  {
  }

  /** Four positions apart sit the two parts of one bin. */
  lemma Partner(n: int, p: int)
    requires Packable(n) && 0 < p < n && p % 8 < 4
    ensures p + 4 < n && 0 < 2 * Ord(n, p) < n && Ord(n, p + 4) == n - Ord(n, p)
  {
  }

  /** The two multiplication formulas, for the parts of one bin. */
  lemma BinEntries(y: seq<real>, z: seq<real>, p: int)
    requires Packable(|y|) && |y| == |z| && 0 < p < |y| && p % 8 < 4
    ensures p + 4 < |y|
    ensures CRe(At(Pack(y), p), At(Pack(y), p + 4), At(Pack(z), p), At(Pack(z), p + 4))
         == ProductEntry(y, z, Ord(|y|, p))
    ensures CIm(At(Pack(y), p), At(Pack(y), p + 4), At(Pack(z), p), At(Pack(z), p + 4))
         == ProductEntry(y, z, Ord(|y|, p + 4))
  {
    hide Ord, At, Pack;
    Partner(|y|, p);
    PackAt(y, p);
    PackAt(z, p);
    PackAt(y, p + 4);
    PackAt(z, p + 4);
  }

  lemma PackedEntryIsProductEntry(y: seq<real>, z: seq<real>, p: int)
    requires Packable(|y|) && |y| == |z| && 0 <= p < |y|
    ensures PackedEntry(Pack(y), Pack(z), p) == ProductEntry(y, z, Ord(|y|, p))
  {
    hide Ord, At, Pack;
    if p == 0 || p == 4 {
      FirstGroup(|y|);
      PackAt(y, p);
      PackAt(z, p);
    } else if p % 8 < 4 {
      hide ProductEntry, CRe, CIm;
      BinEntries(y, z, p);
    } else {
      hide ProductEntry, CRe, CIm;
      BinEntries(y, z, p - 4);
    }
  }

  /** Multiplying packed spectra is the packed image of multiplying half-complex spectra, the zero and
      Nyquist bins included. */
  lemma PackedProductIsProduct(y: seq<real>, z: seq<real>)
    requires Packable(|y|) && |y| == |z|
    ensures PackedProduct(Pack(y), Pack(z)) == Pack(Product(y, z))
  {
    hide Ord, Pos, ProductEntry, PackedEntry;
    forall p | 0 <= p < |y| ensures PackedProduct(Pack(y), Pack(z))[p] == Pack(Product(y, z))[p] {
      PackedEntryIsProductEntry(y, z, p);
      OrdThenPos(|y|, p);
    }
  }

  lemma PackLinear(y: seq<real>, z: seq<real>, s: real)
    requires Packable(|y|) && |z| == |y|
    ensures Unpack(Added(y, z)) == Added(Unpack(y), Unpack(z))
    ensures Pack(Scaled(y, s)) == Scaled(Pack(y), s)
    ensures Unpack(Scaled(y, s)) == Scaled(Unpack(y), s)
  {
    hide Ord, Pos;
    forall i | 0 <= i < |y|
      ensures Unpack(Added(y, z))[i] == Added(Unpack(y), Unpack(z))[i]
      ensures Pack(Scaled(y, s))[i] == Scaled(Pack(y), s)[i]
      ensures Unpack(Scaled(y, s))[i] == Scaled(Unpack(y), s)[i]
    {
      Permutation(|y|, i);
    }
  }
}
