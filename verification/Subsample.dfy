/**
 Short time-domain filters run by overlap-save on a buffer of their own, and the fractional delay that
 carries its overlap from one fragment to the next.
 */
module Subsample {
  import opened Arithmetic
  import opened Sums
  import opened HalfComplex
  import opened Fir
  import opened OverlapSave
  import Convolver

  /** The taps filled up to a block. */
  function Padded(h: seq<real>, len: nat): (p: seq<real>)
    requires |h| <= len
    ensures |p| == len
  {
    h + Zeros(len - |h|)
  }

  /** What a prepared filter holds: the spectrum of [zeros | taps] over the transform size. */
  function Prepared(t: Table, h: seq<real>): (s: seq<real>)
    requires t.n > 0 && |h| <= t.n / 2
  {
    Scaled(R2HC(t, Zeros(t.n / 2) + Padded(h, t.n / 2)), 1.0 / t.n as real)
  }

  /** Preparing a filter of nCoeffs taps for blocks of blocklen samples. */
  method TdNew(t: Table, coeffs: seq<real>) returns (tdc: array<real>)
    requires t.n > 0 && t.n % 2 == 0 && |coeffs| <= t.n / 2
    ensures fresh(tdc) && tdc.Length == t.n
    ensures tdc[..] == Prepared(t, coeffs)
  {
    hide R2HC;
    var blocklen := t.n / 2;
    tdc := new real[2 * blocklen](_ => 0.0);
    forall k | 0 <= k < |coeffs| {
      tdc[blocklen + k] := coeffs[k];
    }
    assert tdc[..] == Zeros(blocklen) + Padded(coeffs, blocklen);
    Convolver.Time2Freq(t, tdc, tdc);
    ScaleAll(tdc, 1.0 / (2 * blocklen) as real);
  }

  method ScaleAll(tdc: array<real>, scale: real)
    modifies tdc
    ensures tdc[..] == Scaled(old(tdc[..]), scale)
  {
    ghost var spectrum := tdc[..];
    for n := 0 to tdc.Length
      invariant forall k :: 0 <= k < n ==> tdc[k] == Scaled(spectrum, scale)[k]
      invariant forall k :: n <= k < tdc.Length ==> tdc[k] == spectrum[k]
    {
      tdc[n] := tdc[n] * scale;
    }
    assert tdc[..] == Scaled(spectrum, scale);
  }

  /** Filtering the second half of the block; the result appears in the first half. */
  method TdConvolve(t: Table, tdc: seq<real>, block: array<real>, ghost h: seq<real>)
    requires t.Valid() && block.Length == t.n && |h| <= t.n / 2 && tdc == Prepared(t, h)
    modifies block
    ensures forall u :: 0 <= u < t.n / 2 ==> block[u] == Response(h, old(block[..]), t.n / 2 + u)
  {
    hide R2HC, HC2R, Product, Response, Scaled;
    ghost var x := block[..];
    Convolver.Time2Freq(t, block, block);
    Convolver.ConvolveInplaceOrdered(block, tdc);
    Convolver.Freq2Time(t, block, block);
    forall u | 0 <= u < t.n / 2 ensures block[u] == Response(h, x, t.n / 2 + u) {
      BlockResponse(t, x, h, u);
    }
  }

  lemma BlockResponse(t: Table, x: seq<real>, h: seq<real>, u: int)
    requires t.Valid() && |x| == t.n && |h| <= t.n / 2 && 0 <= u < t.n / 2
    ensures HC2R(t, Product(R2HC(t, x), Prepared(t, h)))[u] == Response(h, x, t.n / 2 + u)
  {
    hide R2HC, HC2R, Product, Response, Circular, Scaled;
    var len := t.n / 2;
    var taps := Padded(h, len);
    var f, g := R2HC(t, x), R2HC(t, Zeros(len) + taps);
    var c := 1.0 / t.n as real;
    ProductScaledRight(f, g, c);
    InverseScaled(t, Product(f, g), c, u);
    ConvolutionTheorem(t, x, Zeros(len) + taps, u);
    OverlapSaveStep(x, taps, u);
    PaddedTaps(h, len - |h|, x, len + u);
    Unit(t.n as real, Response(h, x, len + u));
  }

  lemma ProductScaledRight(y: seq<real>, z: seq<real>, b: real)
    requires |y| == |z|
    ensures Product(y, Scaled(z, b)) == Scaled(Product(y, z), b)
  {
    hide Product;
    assert Scaled(y, 1.0) == y;
    assert 1.0 * b == b;
    ProductScaled(y, z, 1.0, b);
  }

  lemma Unit(n: real, v: real)
    requires n != 0.0
    ensures (1.0 / n) * (n * v) == v
  {
  }

  /** The last n samples of x, silence where x is shorter. */
  function Tail(x: seq<real>, n: nat): (r: seq<real>)
    ensures |r| == n
  {
    seq(n, i => At(x, |x| - n + i))
  }

  /** A window over the last samples gives the same response as the whole stream. */
  lemma WindowResponse(h: seq<real>, x: seq<real>, cur: seq<real>, u: int)
    requires |h| <= |cur| && 0 <= u < |cur|
    ensures Response(h, Tail(x, |cur|) + cur, |cur| + u) == Response(h, x + cur, |x| + u)
  {
    var n := |cur|;
    var f, g := Tap(h, Tail(x, n) + cur, n + u), Tap(h, x + cur, |x| + u);
    forall k | 0 <= k < |h| ensures f(k) == g(k) {
      WindowSample(x, cur, u - k);
    }
    SumEq(|h|, f, g);
  }

  lemma WindowSample(x: seq<real>, cur: seq<real>, d: int)
    requires -|cur| < d < |cur|
    ensures At(Tail(x, |cur|) + cur, |cur| + d) == At(x + cur, |x| + d)
  {
    var n := |cur|;
    if d >= 0 {
      assert (Tail(x, n) + cur)[n + d] == cur[d] == (x + cur)[|x| + d];
    } else {
      assert (Tail(x, n) + cur)[n + d] == At(x, |x| - n + (n + d));
      assert |x| + d >= 0 ==> (x + cur)[|x| + d] == x[|x| + d];
    }
  }

  /** Position i is a whole number of blocks of n. */
  predicate Aligned(i: nat, n: nat)
    requires n > 0
  {
    i % n == 0
  }

  lemma StartAligned(n: nat)
    requires n > 0
    ensures Aligned(0, n)
  {
  }

  /** The last block becomes the first half of the window, the next block its second half and the new rest. */
  method SlideWindow(buf: array<real>, rest: array<real>, cbuffer: array<real>, i: nat)
    requires cbuffer.Length == 2 * rest.Length && cbuffer != rest && cbuffer != buf && rest != buf
    requires i + rest.Length <= buf.Length
    modifies rest, cbuffer
    ensures cbuffer[..] == old(rest[..]) + buf[i..i + rest.Length]
    ensures rest[..] == buf[i..i + rest.Length]
  {
    var blocksize := rest.Length;
    forall k | 0 <= k < blocksize {
      cbuffer[k] := rest[k];
    }
    forall k | 0 <= k < blocksize {
      cbuffer[blocksize + k] := buf[i + k];
    }
    forall k | 0 <= k < blocksize {
      rest[k] := cbuffer[blocksize + k];
    }
  }

  /** The first half of the window goes back to where its block came from. */
  method WriteBack(buf: array<real>, cbuffer: array<real>, i: nat, blocksize: nat)
    requires blocksize <= cbuffer.Length && i + blocksize <= buf.Length && cbuffer != buf
    modifies buf
    ensures buf[..i] == old(buf[..i]) && buf[i + blocksize..] == old(buf[i + blocksize..])
    ensures forall k :: i <= k < i + blocksize ==> buf[k] == cbuffer[k - i]
  {
    forall k | i <= k < i + blocksize {
      buf[k] := cbuffer[k - i];
    }
  }

  /** One block: slide the window on, filter it, write the block back. */
  method SubsampleBlock(t: Table, filter: seq<real>, buf: array<real>, rest: array<real>, cbuffer: array<real>, i: nat,
                        ghost h: seq<real>, ghost x: seq<real>, ghost input: seq<real>)
    requires t.Valid() && |h| <= rest.Length && t.n == 2 * rest.Length && filter == Prepared(t, h)
    requires cbuffer.Length == t.n && buf != rest && cbuffer != rest && cbuffer != buf
    requires buf.Length == |input| && i + rest.Length <= buf.Length && buf[i..] == input[i..]
    requires rest[..] == Tail(x + input[..i], rest.Length)
    modifies buf, rest, cbuffer
    ensures rest[..] == Tail(x + input[..i + rest.Length], rest.Length)
    ensures buf[..i] == old(buf[..i]) && buf[i + rest.Length..] == input[i + rest.Length..]
    ensures forall k :: i <= k < i + rest.Length ==> buf[k] == Response(h, x + input, |x| + k)
  {
    hide *;
    var n := rest.Length;
    assert buf[i..i + n] == input[i..i + n] && buf[i + n..] == input[i + n..] by {
      assert buf[i..i + n] == buf[i..][..n] && buf[i + n..] == buf[i..][n..];
    }
    SlideWindow(buf, rest, cbuffer, i);
    ghost var window := cbuffer[..];
    TdConvolve(t, filter, cbuffer, h);
    ghost var y := cbuffer[..];
    WriteBack(buf, cbuffer, i, n);
    forall k | i <= k < i + n ensures buf[k] == Response(h, x + input, |x| + k) {
      StepResponse(h, x, input, i, n, k - i);
      assert y[k - i] == Response(h, window, n + (k - i));
    }
    NextTail(x, input, i, n);
  }

  /** All blocks of a fragment. */
  method SubsampleBlocks(t: Table, filter: seq<real>, buf: array<real>, rest: array<real>,
                         ghost h: seq<real>, ghost x: seq<real>, ghost input: seq<real>)
    requires t.Valid() && |h| <= rest.Length && 0 < t.n == 2 * rest.Length && filter == Prepared(t, h)
    requires Aligned(buf.Length, rest.Length) && buf != rest && buf[..] == input
    requires rest[..] == Tail(x, rest.Length)
    modifies buf, rest
    ensures rest[..] == Tail(x + input, rest.Length)
    ensures forall i :: 0 <= i < buf.Length ==> buf[i] == Response(h, x + input, |x| + i)
  {
    hide *;
    var blocksize := rest.Length;
    StartAligned(blocksize);
    var cbuffer := new real[t.n];
    var i := 0;
    assert x + input[..i] == x;
    while i < buf.Length
      invariant 0 <= i <= buf.Length && Aligned(i, blocksize)
      invariant rest[..] == Tail(x + input[..i], blocksize)
      invariant buf[i..] == input[i..]
      invariant forall k :: 0 <= k < i ==> buf[k] == Response(h, x + input, |x| + k)
      decreases buf.Length - i
    {
      NextMultiple(i, buf.Length, blocksize);
      ghost var done := buf[..i];
      SubsampleBlock(t, filter, buf, rest, cbuffer, i, h, x, input);
      forall k | 0 <= k < i + blocksize ensures buf[k] == Response(h, x + input, |x| + k) {
        if k < i {
          assert buf[k] == buf[..i][k] == done[k];
        }
      }
      i := i + blocksize;
    }
    assert input[..i] == input;
  }

  /** One fragment through the fractional delay. x is everything the delay has seen before; `rest` carries
      its last block. A step outside the prepared range leaves the fragment alone. */
  method SubsampleUpdate(t: Table, filters: map<int, seq<real>>, stepCount: int, buf: array<real>, rest: array<real>,
                         subdelay: int, ghost taps: map<int, seq<real>>, ghost x: seq<real>)
    requires t.Valid() && 0 < t.n == 2 * rest.Length && Aligned(buf.Length, rest.Length) && buf != rest
    requires forall s :: -stepCount < s < stepCount ==>
               s in filters && s in taps && |taps[s]| <= rest.Length && filters[s] == Prepared(t, taps[s])
    requires rest[..] == Tail(x, rest.Length)
    modifies buf, rest
    ensures -stepCount < subdelay < stepCount ==>
              rest[..] == Tail(x + old(buf[..]), rest.Length) &&
              forall i :: 0 <= i < buf.Length ==> buf[i] == Response(taps[subdelay], x + old(buf[..]), |x| + i)
    ensures !(-stepCount < subdelay < stepCount) ==> buf[..] == old(buf[..]) && rest[..] == old(rest[..])
  {
    hide *;
    if subdelay <= -stepCount || subdelay >= stepCount {
      return;
    }
    SubsampleBlocks(t, filters[subdelay], buf, rest, taps[subdelay], x, buf[..]);
  }

  /** The filter prepared for step zero: one tap in the middle. */
  function CentreTap(half: nat): (h: seq<real>)
    ensures |h| == 2 * half + 1
  {
    Zeros(half) + [1.0] + Zeros(half)
  }

  /** It is a plain delay of half its length, which is what every other step is late by as well. */
  lemma CentreTapDelays(half: nat, x: seq<real>, t: int)
    ensures Response(CentreTap(half), x, t) == At(x, t - half)
  {
    var h := CentreTap(half);
    var f := Tap(h, x, t);
    forall k | 0 <= k < |h| && k != half ensures f(k) == 0.0 {
      assert h[k] == 0.0;
    }
    SumOnly(|h|, half, f);
    assert h[half] == 1.0;
  }

  /** Output u of the block at i, through the window and from the whole stream. */
  lemma StepResponse(h: seq<real>, x: seq<real>, input: seq<real>, i: nat, n: nat, u: int)
    requires i + n <= |input| && |h| <= n && 0 <= u < n
    ensures Response(h, Tail(x + input[..i], n) + input[i..i + n], n + u) == Response(h, x + input, |x| + i + u)
  {
    hide Response, Tail;
    var cur, before := input[i..i + n], x + input[..i];
    assert x + input == (before + cur) + input[i + n..];
    WindowResponse(h, before, cur, u);
    Causal(h, before + cur, input[i + n..], |x| + i + u);
  }

  lemma NextTail(x: seq<real>, input: seq<real>, i: nat, n: nat)
    requires i + n <= |input|
    ensures Tail(x + input[..i + n], n) == input[i..i + n]
  {
    var y := x + input[..i + n];
    var tail, cur := Tail(y, n), input[i..i + n];
    forall k | 0 <= k < n ensures tail[k] == cur[k] {
      assert |y| == |x| + i + n;
      assert tail[k] == At(y, |x| + i + k) == y[|x| + (i + k)] == input[i + k];
    }
  }

  lemma NextMultiple(i: nat, size: nat, n: nat)
    requires n > 0 && Aligned(i, n) && Aligned(size, n) && i < size
    ensures i + n <= size && Aligned(i + n, n)
  {
    var p, q := i / n, size / n;
    assert i == n * p && size == n * q;
    assert i + n == n * (p + 1) by { Expand(n, p); }
    ModOfMultiple(n, p + 1);
    if q < p + 1 {
      RowsUpTo(q, p, n);
    } else {
      RowsUpTo(p + 1, q, n);
    }
  }

  lemma Expand(n: int, p: int)
    ensures n * (p + 1) == n * p + n
  {
  }
}
