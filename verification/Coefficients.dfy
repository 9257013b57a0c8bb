/**
 Cutting an impulse response into blocks and transforming each block.
 */
module Coefficients {
  import opened Arithmetic
  import opened Sums
  import opened HalfComplex
  import opened PackedLayout
  import opened Fir
  import opened OverlapSave
  import opened MixNScale
  import Convolver

  /** The first n taps of a response, scaled; zeros where it is shorter. */
  function ScaledTaps(coeffs: seq<real>, scale: real, n: nat): (h: seq<real>)
    ensures |h| == n
  {
    seq(n, k => At(coeffs, k) * scale)
  }

  /** The spectrum of up to one block of coefficients, ready for multiplying. */
  method Coeffs2Cbuf(t: Table, coeffs: seq<real>, nCoeffs: nat, scale: real) returns (data: array<real>)
    requires Packable(t.n)
    requires nCoeffs <= |coeffs|
    ensures fresh(data) && data.Length == t.n
    ensures data[..] == TapSpectrum(t, ScaledTaps(coeffs[..nCoeffs], scale, t.n / 2))
  {
    hide R2HC, Pack, Scaled, Mixed;
    var nFft2 := t.n / 2;
    var len := if nCoeffs > nFft2 then nFft2 else nCoeffs;
    var rcoeffs := new real[t.n](_ => 0.0);
    ghost var h := ScaledTaps(coeffs[..nCoeffs], scale, nFft2);
    for n := 0 to len
      invariant forall k :: 0 <= k < n ==> rcoeffs[nFft2 + k] == h[k]
      invariant forall p :: 0 <= p < nFft2 || nFft2 + n <= p < t.n ==> rcoeffs[p] == 0.0
    {
      assert h[n] == coeffs[n] * scale by {
        assert At(coeffs[..nCoeffs], n) == coeffs[n];
      }
      rcoeffs[nFft2 + n] := coeffs[n] * scale;
    }
    forall k | len <= k < nFft2 ensures h[k] == 0.0 {
      assert At(coeffs[..nCoeffs], k) == 0.0;
    }
    assert rcoeffs[..] == Zeros(nFft2) + h;
    Convolver.Time2Freq(t, rcoeffs, rcoeffs);
    data := new real[t.n];
    var norm := 1.0 / t.n as real;
    var _ := MixInput([rcoeffs], data, [norm]);
    assert Contents([rcoeffs]) == [rcoeffs[..]];
    MixOne(rcoeffs[..], norm);
  }

  /** The block that starts at sample off: full, partial or past the end of the response. */
  method PreprocessBlock(t: Table, coeffs: seq<real>, coeffLength: nat, off: nat, scale: real, zbuf: seq<real>,
                         ghost total: nat)
    returns (block: array<real>)
    requires Packable(t.n) && coeffLength <= |coeffs| && off + t.n / 2 <= total
    requires off > coeffLength ==> zbuf == Zeros(t.n / 2)
    ensures fresh(block) && block.Length == t.n
    ensures block[..] == TapSpectrum(t, ScaledTaps(coeffs[..coeffLength], scale, total)[off..off + t.n / 2])
  {
    hide TapSpectrum, ScaledTaps;
    var filterLength := t.n / 2;
    if off > coeffLength {
      ZeroBlock(coeffs[..coeffLength], scale, total, off, filterLength);
      block := Coeffs2Cbuf(t, zbuf, filterLength, scale);
      assert zbuf[..filterLength] == Zeros(filterLength);
    } else if off + filterLength > coeffLength {
      CoefficientBlock(coeffs, coeffLength, scale, total, off, coeffLength - off, filterLength);
      block := Coeffs2Cbuf(t, coeffs[off..], coeffLength - off, scale);
    } else {
      CoefficientBlock(coeffs, coeffLength, scale, total, off, filterLength, filterLength);
      block := Coeffs2Cbuf(t, coeffs[off..], filterLength, scale);
    }
  }

  /** Splitting a response of coeffLength samples into coeffBlocks transformed blocks. */
  method PreprocessCoeff(t: Table, coeffs: seq<real>, filterLength: nat, coeffBlocks: nat, coeffLength: nat,
                         scale: real)
    returns (cbuf: seq<array<real>>)
    requires Packable(t.n) && t.n == 2 * filterLength
    requires coeffLength <= |coeffs|
    ensures |cbuf| == coeffBlocks
    ensures forall n :: 0 <= n < coeffBlocks ==> fresh(cbuf[n])
    ensures var taps := ScaledTaps(coeffs[..coeffLength], scale, coeffBlocks * filterLength);
            forall n :: 0 <= n < coeffBlocks ==> HoldsPart(t, cbuf[n][..], taps, filterLength, n)
  {
    hide HoldsPart, ScaledTaps;
    var total := coeffBlocks * filterLength;
    ghost var taps := ScaledTaps(coeffs[..coeffLength], scale, total);
    var zbuf: seq<real> := [];
    if coeffLength < total {
      zbuf := Zeros(filterLength);
    }
    cbuf := [];
    var n := 0;
    while n < coeffBlocks
      invariant 0 <= n <= coeffBlocks && |cbuf| == n
      invariant forall m :: 0 <= m < n ==> fresh(cbuf[m])
      invariant forall m :: 0 <= m < n ==> HoldsPart(t, cbuf[m][..], taps, filterLength, m)
    {
      RowInside(n, coeffBlocks, filterLength);
      var block := PreprocessBlock(t, coeffs, coeffLength, n * filterLength, scale, zbuf, total);
      HoldsSlice(t, block[..], taps, filterLength, n);
      cbuf := cbuf + [block];
      n := n + 1;
    }
  }

  lemma HoldsSlice(t: Table, block: seq<real>, taps: seq<real>, len: nat, n: nat)
    requires len > 0 && n * len + len <= |taps| && block == TapSpectrum(t, taps[n * len..n * len + len])
    ensures HoldsPart(t, block, taps, len, n)
  {
  }

  /** A block that starts inside the response holds its samples and then zeros. */
  lemma CoefficientBlock(coeffs: seq<real>, length: nat, scale: real, total: nat, off: nat, count: nat, len: nat)
    requires off + count <= length <= |coeffs| && count <= len && off + len <= total
    requires count == len || off + count == length
    ensures ScaledTaps(coeffs[..length], scale, total)[off..off + len] == ScaledTaps(coeffs[off..][..count], scale, len)
  {
    forall k | 0 <= k < len
      ensures ScaledTaps(coeffs[..length], scale, total)[off + k] == ScaledTaps(coeffs[off..][..count], scale, len)[k]
    {
      assert At(coeffs[..length], off + k) == At(coeffs[off..][..count], k);
    }
  }

  /** A block past the response is all zeros. */
  lemma ZeroBlock(coeffs: seq<real>, scale: real, total: nat, off: nat, len: nat)
    requires off >= |coeffs| && off + len <= total
    ensures ScaledTaps(coeffs, scale, total)[off..off + len] == ScaledTaps(Zeros(len), scale, len)
  {
  }

  /** The smallest positive multiple of factor that is at least value. */
  ghost predicate IsNextMultiple(multiple: nat, value: nat, factor: nat)
    requires factor > 0
  {
    multiple % factor == 0 && multiple >= factor && multiple >= value &&
    forall m :: m % factor == 0 && m >= factor && m >= value ==> multiple <= m
  }

  /** It is the value itself if that is a positive multiple. */
  method GetNextMultiple(value: nat, factor: nat) returns (multiple: nat)
    requires factor > 0
    ensures IsNextMultiple(multiple, value, factor)
    ensures multiple == value <==> value > 0 && value % factor == 0
  {
    multiple := factor;
    ghost var q := 1;
    while value > multiple
      invariant multiple == factor * q && q >= 1 && (q > 1 ==> factor * (q - 1) < value)
      decreases value - multiple
    {
      NextRow(q, factor);
      multiple := multiple + factor;
      q := q + 1;
    }
    LeastMultiple(value, factor, q);
  }

  lemma LeastMultiple(value: nat, factor: nat, q: nat)
    requires factor > 0 && q >= 1 && value <= factor * q && (q > 1 ==> factor * (q - 1) < value)
    ensures IsNextMultiple(factor * q, value, factor)
    ensures factor * q == value <==> value > 0 && value % factor == 0
  {
    ModOfMultiple(factor, q);
    RowsUpTo(1, q, factor);
    forall m: nat | m % factor == 0 && m >= factor && m >= value ensures factor * q <= m {
      NotBetween(value, factor, q, m);
    }
    if value > 0 && value % factor == 0 {
      Itself(value, factor);
      NotBetween(value, factor, q, value);
    }
  }

  lemma Itself(value: nat, factor: nat)
    requires factor > 0 && value > 0 && value % factor == 0
    ensures value >= factor
  {
    if value < factor {
      assert false;
    }
  }

  lemma NotBetween(value: nat, factor: nat, q: nat, m: nat)
    requires factor > 0 && q >= 1 && (q > 1 ==> factor * (q - 1) < value)
    requires m % factor == 0 && m >= factor && m >= value
    ensures factor * q <= m
  {
    var p := m / factor;
    assert m == factor * p;
    if p < q {
      RowsUpTo(p, q - 1, factor);
      assert false;
    }
    RowsUpTo(q, p, factor);
  }
}
