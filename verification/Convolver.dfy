/**
 The convolver's loops over its buffers: transforming, mixing and reordering, multiplying. Each is proved
 against a function on the contents of the buffers.
 */
module Convolver {
  import opened HalfComplex
  import opened PackedLayout

  // ---------------------------------------------------------------- the foreign transforms

  /** Forward transform, in place or from one buffer to another. The library's algorithm is foreign; its
      result is the defining sum. */
  method Time2Freq(t: Table, input: array<real>, output: array<real>)
    requires input.Length == output.Length
    modifies output
    ensures output[..] == R2HC(t, old(input[..]))
  {
    var y := R2HC(t, input[..]);
    forall k | 0 <= k < output.Length {
      output[k] := y[k];
    }
  }

  /** Inverse transform. Out of place it may also overwrite its input, which a caller must not rely on. */
  method Freq2Time(t: Table, input: array<real>, output: array<real>)
    requires input.Length == output.Length
    modifies input, output
    ensures output[..] == HC2R(t, old(input[..]))
  {
    var x := HC2R(t, input[..]);
    forall k | 0 <= k < input.Length {
      input[k] := 0.0;
    }
    forall k | 0 <= k < output.Length {
      output[k] := x[k];
    }
  }

  // ---------------------------------------------------------------- multiplying packed spectra

  /** The eight results of one pass of a multiplication loop, at group n. */
  function Group(b: seq<real>, c: seq<real>, n: nat): (g: seq<real>)
    requires n + 8 <= |b| && |c| == |b|
    ensures |g| == 8
  {
    [CRe(b[n+0], b[n+4], c[n+0], c[n+4]), CRe(b[n+1], b[n+5], c[n+1], c[n+5]),
     CRe(b[n+2], b[n+6], c[n+2], c[n+6]), CRe(b[n+3], b[n+7], c[n+3], c[n+7]),
     CIm(b[n+0], b[n+4], c[n+0], c[n+4]), CIm(b[n+1], b[n+5], c[n+1], c[n+5]),
     CIm(b[n+2], b[n+6], c[n+2], c[n+6]), CIm(b[n+3], b[n+7], c[n+3], c[n+7])]
  }

  /** Away from the two real bins, position p of the product is slot p % 8 of its group. */
  lemma GroupEntry(b: seq<real>, c: seq<real>, n: nat, p: nat)
    requires |c| == |b| && |b| % 8 == 0 && n % 8 == 0 && n <= p < n + 8 <= |b|
    requires p != 0 && p != 4
    ensures PackedEntry(b, c, p) == Group(b, c, n)[p - n]
  {
    hide CRe, CIm;
    ByEight(n / 8, p - n);
  }

  /** The passes so far have computed `prefix` of the product, the two real bins left to be corrected. */
  ghost predicate Passed(prefix: seq<real>, b: seq<real>, c: seq<real>) {
    |prefix| <= |b| && forall p :: 0 <= p < |prefix| && p != 0 && p != 4 ==> prefix[p] == PackedEntry(b, c, p)
  }

  lemma NextPass(prefix: seq<real>, b: seq<real>, c: seq<real>)
    requires |c| == |b| && |b| % 8 == 0 && |prefix| % 8 == 0 && |prefix| + 8 <= |b|
    requires Passed(prefix, b, c)
    ensures Passed(prefix + Group(b, c, |prefix|), b, c)
  {
    hide Group, PackedEntry;
    var n := |prefix|;
    forall p | n <= p < n + 8 && p != 0 && p != 4
      ensures (prefix + Group(b, c, n))[p] == PackedEntry(b, c, p)
    {
      GroupEntry(b, c, n, p);
    }
  }

  lemma AllPassed(all: seq<real>, b: seq<real>, c: seq<real>, p: nat)
    requires |b| == |c| == |all| && Passed(all, b, c) && p < |b|
    ensures PackedProduct(b, c)[p] == if p == 0 || p == 4 then Times(b[p], c[p]) else all[p]
  {
  }

  lemma NothingPassed(b: seq<real>, c: seq<real>)
    ensures Passed([], b, c)
  {
  }

  /** One pass of the multiplication loop. */
  method ConvolvePass(b: array<real>, c: seq<real>, d: array<real>, n: nat)
    requires b.Length == d.Length == |c| && n + 8 <= b.Length
    requires b != d
    modifies d
    ensures forall p :: n <= p < n + 8 ==> d[p] == Group(b[..], c, n)[p - n]
    ensures forall p :: 0 <= p < n || n + 8 <= p < d.Length ==> d[p] == old(d[p])
  {
    hide CRe, CIm;
    d[n+0], d[n+1], d[n+2], d[n+3] :=
      CRe(b[n+0], b[n+4], c[n+0], c[n+4]),
      CRe(b[n+1], b[n+5], c[n+1], c[n+5]),
      CRe(b[n+2], b[n+6], c[n+2], c[n+6]),
      CRe(b[n+3], b[n+7], c[n+3], c[n+7]);

    d[n+4], d[n+5], d[n+6], d[n+7] :=
      CIm(b[n+0], b[n+4], c[n+0], c[n+4]),
      CIm(b[n+1], b[n+5], c[n+1], c[n+5]),
      CIm(b[n+2], b[n+6], c[n+2], c[n+6]),
      CIm(b[n+3], b[n+7], c[n+3], c[n+7]);
  }

  /** One pass of the in-place loop: the real parts are saved before they are overwritten. */
  method ConvolveInplacePass(b: array<real>, c: seq<real>, n: nat)
    requires b.Length == |c| && n + 8 <= b.Length
    modifies b
    ensures forall p :: n <= p < n + 8 ==> b[p] == Group(old(b[..]), c, n)[p - n]
    ensures forall p :: 0 <= p < n || n + 8 <= p < b.Length ==> b[p] == old(b[p])
  {
    hide CRe, CIm;
    var a0, a1, a2, a3 := b[n+0], b[n+1], b[n+2], b[n+3];

    b[n+0], b[n+1], b[n+2], b[n+3] :=
      CRe(a0, b[n+4], c[n+0], c[n+4]),
      CRe(a1, b[n+5], c[n+1], c[n+5]),
      CRe(a2, b[n+6], c[n+2], c[n+6]),
      CRe(a3, b[n+7], c[n+3], c[n+7]);

    b[n+4], b[n+5], b[n+6], b[n+7] :=
      CIm(a0, b[n+4], c[n+0], c[n+4]),
      CIm(a1, b[n+5], c[n+1], c[n+5]),
      CIm(a2, b[n+6], c[n+2], c[n+6]),
      CIm(a3, b[n+7], c[n+3], c[n+7]);
  }

  /** One pass of the accumulating loop. */
  method ConvolveAddPass(b: array<real>, c: seq<real>, d: array<real>, n: nat)
    requires b.Length == d.Length == |c| && n + 8 <= b.Length
    requires b != d
    modifies d
    ensures forall p :: n <= p < n + 8 ==> d[p] == old(d[p]) + Group(b[..], c, n)[p - n]
    ensures forall p :: 0 <= p < n || n + 8 <= p < d.Length ==> d[p] == old(d[p])
  {
    hide CRe, CIm;
    d[n+0], d[n+1], d[n+2], d[n+3] :=
      d[n+0] + CRe(b[n+0], b[n+4], c[n+0], c[n+4]),
      d[n+1] + CRe(b[n+1], b[n+5], c[n+1], c[n+5]),
      d[n+2] + CRe(b[n+2], b[n+6], c[n+2], c[n+6]),
      d[n+3] + CRe(b[n+3], b[n+7], c[n+3], c[n+7]);

    d[n+4], d[n+5], d[n+6], d[n+7] :=
      d[n+4] + CIm(b[n+0], b[n+4], c[n+0], c[n+4]),
      d[n+5] + CIm(b[n+1], b[n+5], c[n+1], c[n+5]),
      d[n+6] + CIm(b[n+2], b[n+6], c[n+2], c[n+6]),
      d[n+7] + CIm(b[n+3], b[n+7], c[n+3], c[n+7]);
  }

  /** d := b * c. */
  method Convolve(b: array<real>, c: seq<real>, d: array<real>)
    requires b.Length == d.Length == |c| && Packable(b.Length)
    requires b != d
    modifies d
    ensures d[..] == PackedProduct(b[..], c)
  {
    hide Times, Group, PackedProduct, Passed;
    var nFft := b.Length;
    var d1s, d2s := Times(b[0], c[0]), Times(b[4], c[4]);
    NothingPassed(b[..], c);
    var n := 0;
    while n < nFft
      invariant 0 <= n <= nFft && n % 8 == 0
      invariant Passed(d[..n], b[..], c)
    {
      ghost var prefix := d[..n];
      NextPass(prefix, b[..], c);
      ConvolvePass(b, c, d, n);
      assert d[..n + 8] == prefix + Group(b[..], c, n);
      n := n + 8;
    }
    assert d[..n] == d[..];
    ghost var all := d[..];
    d[0] := d1s;
    d[4] := d2s;
    forall p | 0 <= p < nFft ensures d[p] == PackedProduct(b[..], c)[p] {
      AllPassed(all, b[..], c, p);
    }
  }

  /** b := b * c. */
  method ConvolveInplace(b: array<real>, c: seq<real>)
    requires b.Length == |c| && Packable(b.Length)
    modifies b
    ensures b[..] == PackedProduct(old(b[..]), c)
  {
    hide Times, Group, PackedProduct, Passed;
    var nFft := b.Length;
    var d1s, d2s := Times(b[0], c[0]), Times(b[4], c[4]);
    ghost var b0 := b[..];
    NothingPassed(b0, c);
    var n := 0;
    while n < nFft
      invariant 0 <= n <= nFft && n % 8 == 0
      invariant Passed(b[..n], b0, c)
      invariant forall p :: n <= p < nFft ==> b[p] == b0[p]
    {
      ghost var prefix := b[..n];
      NextPass(prefix, b0, c);
      SameGroup(b[..], b0, c, n);
      ConvolveInplacePass(b, c, n);
      assert b[..n + 8] == prefix + Group(b0, c, n);
      n := n + 8;
    }
    assert b[..n] == b[..];
    ghost var all := b[..];
    b[0] := d1s;
    b[4] := d2s;
    forall p | 0 <= p < nFft ensures b[p] == PackedProduct(b0, c)[p] {
      AllPassed(all, b0, c, p);
    }
  }

  /** A group depends only on its own eight entries. */
  lemma SameGroup(b: seq<real>, b': seq<real>, c: seq<real>, n: nat)
    requires n + 8 <= |b| && |b'| == |b| == |c|
    requires forall p :: n <= p < |b| ==> b[p] == b'[p]
    ensures Group(b, c, n) == Group(b', c, n)
  {
  }

  /** d := d + b * c. */
  method ConvolveAdd(b: array<real>, c: seq<real>, d: array<real>)
    requires b.Length == d.Length == |c| && Packable(b.Length)
    requires b != d
    modifies d
    ensures d[..] == Added(old(d[..]), PackedProduct(b[..], c))
  {
    hide Times, Group, PackedProduct, Passed;
    var nFft := b.Length;
    var d1s, d2s := d[0] + Times(b[0], c[0]), d[4] + Times(b[4], c[4]);
    ghost var d0 := d[..];
    ghost var prefix: seq<real> := [];
    NothingPassed(b[..], c);
    var n := 0;
    while n < nFft
      invariant 0 <= n <= nFft && n % 8 == 0 && |prefix| == n
      invariant Passed(prefix, b[..], c)
      invariant forall p :: 0 <= p < n ==> d[p] == d0[p] + prefix[p]
      invariant forall p :: n <= p < nFft ==> d[p] == d0[p]
    {
      NextPass(prefix, b[..], c);
      ConvolveAddPass(b, c, d, n);
      prefix := prefix + Group(b[..], c, n);
      n := n + 8;
    }
    d[0] := d1s;
    d[4] := d2s;
    forall p | 0 <= p < nFft ensures d[p] == d0[p] + PackedProduct(b[..], c)[p] {
      AllPassed(prefix, b[..], c, p);
    }
  }

  /** The product in half-complex order, as the short time-domain filters use it. */
  method ConvolveInplaceOrdered(b: array<real>, c: seq<real>)
    requires b.Length == |c| && b.Length >= 2 && b.Length % 2 == 0
    modifies b
    ensures b[..] == Product(old(b[..]), c)
  {
    hide Product, ProductEntry;
    var size := b.Length;
    var size2 := size / 2;
    ghost var b0 := b[..];
    OrderedEntries(b0, c, 0);
    b[0] := b[0] * c[0];
    var n := 1;
    while n < size2
      invariant 1 <= n <= size2
      invariant forall k :: 0 <= k < n || size - n < k < size ==> b[k] == ProductEntry(b0, c, k)
      invariant forall k :: n <= k <= size - n ==> b[k] == b0[k]
    {
      OrderedEntries(b0, c, n);
      var a := b[n];
      b[n] := a * c[n] - b[size - n] * c[size - n];
      b[size - n] := a * c[size - n] + b[size - n] * c[n];
      n := n + 1;
    }
    OrderedEntries(b0, c, size2);
    b[size2] := b[size2] * c[size2];
    OrderedProduct(b0, c, b[..]);
  }

  lemma OrderedEntries(b: seq<real>, c: seq<real>, k: nat)
    requires |c| == |b| && |b| % 2 == 0 && k <= |b| / 2 && |b| > 0
    ensures k == 0 || 2 * k == |b| ==> ProductEntry(b, c, k) == b[k] * c[k]
    ensures 0 < 2 * k < |b| ==> ProductEntry(b, c, k) == b[k] * c[k] - b[|b| - k] * c[|b| - k]
    ensures 0 < 2 * k < |b| ==> ProductEntry(b, c, |b| - k) == b[k] * c[|b| - k] + b[|b| - k] * c[k]
  {
  }

  lemma OrderedProduct(b: seq<real>, c: seq<real>, d: seq<real>)
    requires |b| == |c| == |d|
    requires forall k :: 0 <= k < |b| ==> d[k] == ProductEntry(b, c, k)
    ensures d == Product(b, c)
  {
  }
}
