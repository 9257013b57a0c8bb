/**
 Rounding real samples to integers of limited range: the plain quantiser and its overflow meters, and the
 dithered one with its error feedback.
 */
module Quantiser {
  /** Conversion to an integer as the language does it: towards zero. */
  function Truncated(r: real): int {
    if r < 0.0 then -((-r).Floor) else r.Floor
  }

  /** Half a step is already added; truncation downwards and clipping make an integer of it. */
  function Sample(d: real, imin: int, imax: int): (y: int) {
    if d < 0.0 then (if d <= imin as real then imin else Truncated(d) - 1)
    else (if d > imax as real then imax else Truncated(d))
  }

  predicate Clips(d: real, imin: int, imax: int) {
    if d < 0.0 then d <= imin as real else d > imax as real
  }

  /** Every case written out: below the range and above it the limits, and between them the integer below, which for a
      negative integer is the one before it. */
  lemma SampleExact(d: real, imin: int, imax: int)
    requires imin < 0 <= imax
    ensures Clips(d, imin, imax) <==> d <= imin as real || d > imax as real
    ensures d <= imin as real ==> Sample(d, imin, imax) == imin
    ensures d > imax as real ==> Sample(d, imin, imax) == imax
    ensures 0.0 <= d <= imax as real ==>
              Sample(d, imin, imax) as real <= d < Sample(d, imin, imax) as real + 1.0
    ensures imin as real < d < 0.0 ==>
              (Sample(d, imin, imax) as real) < d <= Sample(d, imin, imax) as real + 1.0
  {
  }

  /** Unclipped, a sample lies at most one step below what was truncated and never above it. */
  lemma SampleBelow(d: real, imin: int, imax: int)
    requires imin < 0 <= imax && !Clips(d, imin, imax)
    ensures d - 1.0 <= Sample(d, imin, imax) as real <= d
    ensures imin <= Sample(d, imin, imax) <= imax
  {
  }

  lemma SampleInRange(d: real, imin: int, imax: int)
    requires imin < 0 <= imax
    ensures imin <= Sample(d, imin, imax) <= imax
  {
  }

  lemma SampleMonotone(a: real, b: real, imin: int, imax: int)
    requires imin < 0 <= imax && a <= b
    ensures Sample(a, imin, imax) <= Sample(b, imin, imax)
  {
  }

  /** A sample is within half a step of the input exactly if the input is within half a step of the range. */
  lemma WithinHalf(x: real, imin: int, imax: int)
    requires imin < 0 <= imax
    ensures (-0.5 <= Sample(x + 0.5, imin, imax) as real - x <= 0.5)
       <==> (imin as real - 0.5 <= x <= imax as real + 0.5)
  {
  }

  /** An integer in range comes back; only the largest one counts as clipped. */
  lemma IntegerSample(v: int, imin: int, imax: int)
    requires imin < 0 <= imax && imin <= v <= imax
    ensures Sample(v as real + 0.5, imin, imax) == v
    ensures Clips(v as real + 0.5, imin, imax) <==> v == imax
  {
  }

  // ---------------------------------------------------------------- the meters

  datatype Meters = Meters(nOverflows: nat, intlargest: int, largest: real)

  /** Counts clipped samples, and keeps the largest unclipped output and the largest clipped input. */
  class Overflow {
    var nOverflows: nat
    var intlargest: int
    var largest: real

    constructor ()
      ensures nOverflows == 0 && intlargest == 0 && largest == 0.0
    {
      nOverflows, intlargest, largest := 0, 0, 0.0;
    }

    function Value(): Meters
      reads this
    {
      Meters(nOverflows, intlargest, largest)
    }
  }

  function Abs(n: int): (a: nat)
    ensures a == n || a == -n
  {
    if n < 0 then -n else n
  }

  function RealAbs(r: real): (a: real)
    ensures a >= 0.0 && (a == r || a == -r)
  {
    if r < 0.0 then -r else r
  }

  function Max(a: int, b: int): (m: int)
    ensures m >= a && m >= b && (m == a || m == b)
  {
    if a < b then b else a
  }

  function RealMax(a: real, b: real): (m: real)
    ensures m >= a && m >= b && (m == a || m == b)
  {
    if a < b then b else a
  }

  /** One sample without dither. */
  method Real2IntNoDither(x: real, imin: int, imax: int, overflow: Overflow) returns (sample: int)
    requires imin < 0 <= imax
    modifies overflow
    ensures sample == Sample(x + 0.5, imin, imax)
    ensures Clips(x + 0.5, imin, imax) ==>
              overflow.nOverflows == old(overflow.nOverflows) + 1 && overflow.intlargest == old(overflow.intlargest) &&
              overflow.largest == RealMax(old(overflow.largest), RealAbs(x + 0.5))
    ensures !Clips(x + 0.5, imin, imax) ==>
              overflow.nOverflows == old(overflow.nOverflows) && overflow.largest == old(overflow.largest) &&
              overflow.intlargest == Max(old(overflow.intlargest), Abs(sample))
  {
    var realSample := x + 0.5;
    if realSample < 0.0 {
      if realSample <= imin as real {
        sample := imin;
        overflow.nOverflows := overflow.nOverflows + 1;
        if realSample < -overflow.largest {
          overflow.largest := -realSample;
        }
      } else {
        sample := Truncated(realSample);
        sample := sample - 1;
        SampleBelow(realSample, imin, imax);
        if sample < -overflow.intlargest {
          overflow.intlargest := -sample;
        }
      }
    } else {
      if realSample > imax as real {
        sample := imax;
        overflow.nOverflows := overflow.nOverflows + 1;
        if realSample > overflow.largest {
          overflow.largest := realSample;
        }
      } else {
        sample := Truncated(realSample);
        SampleBelow(realSample, imin, imax);
        if sample > overflow.intlargest {
          overflow.intlargest := sample;
        }
      }
    }
  }

  // ---------------------------------------------------------------- what the meters show after a buffer

  /** How many of the samples clip. */
  function ClipCount(xs: seq<real>, imin: int, imax: int): (n: nat) {
    if xs == [] then 0
    else ClipCount(xs[..|xs| - 1], imin, imax) + if Clips(xs[|xs| - 1] + 0.5, imin, imax) then 1 else 0
  }

  /** m is the largest of start and the sizes of the unclipped outputs. */
  ghost predicate IsIntLargest(xs: seq<real>, imin: int, imax: int, start: int, m: int) {
    m >= start &&
    (forall i :: 0 <= i < |xs| && !Clips(xs[i] + 0.5, imin, imax) ==> Abs(Sample(xs[i] + 0.5, imin, imax)) <= m) &&
    (m == start ||
     exists i :: 0 <= i < |xs| && !Clips(xs[i] + 0.5, imin, imax) && Abs(Sample(xs[i] + 0.5, imin, imax)) == m)
  }

  /** m is the largest of start and the sizes of the clipped inputs, half a step added. */
  ghost predicate IsLargest(xs: seq<real>, imin: int, imax: int, start: real, m: real) {
    m >= start &&
    (forall i :: 0 <= i < |xs| && Clips(xs[i] + 0.5, imin, imax) ==> RealAbs(xs[i] + 0.5) <= m) &&
    (m == start || exists i :: 0 <= i < |xs| && Clips(xs[i] + 0.5, imin, imax) && RealAbs(xs[i] + 0.5) == m)
  }

  lemma IntLargestStep(xs: seq<real>, x: real, imin: int, imax: int, start: int, m: int)
    requires IsIntLargest(xs, imin, imax, start, m)
    ensures Clips(x + 0.5, imin, imax) ==> IsIntLargest(xs + [x], imin, imax, start, m)
    ensures !Clips(x + 0.5, imin, imax) ==>
              IsIntLargest(xs + [x], imin, imax, start, Max(m, Abs(Sample(x + 0.5, imin, imax))))
  {
    hide Sample, Clips;
    var more := xs + [x];
    assert more[|xs|] == x;
    if m != start {
      var i :| 0 <= i < |xs| && !Clips(xs[i] + 0.5, imin, imax) && Abs(Sample(xs[i] + 0.5, imin, imax)) == m;
      assert more[i] == xs[i];
    }
  }

  lemma LargestStep(xs: seq<real>, x: real, imin: int, imax: int, start: real, m: real)
    requires IsLargest(xs, imin, imax, start, m)
    ensures Clips(x + 0.5, imin, imax) ==> IsLargest(xs + [x], imin, imax, start, RealMax(m, RealAbs(x + 0.5)))
    ensures !Clips(x + 0.5, imin, imax) ==> IsLargest(xs + [x], imin, imax, start, m)
  {
    hide Clips;
    var more := xs + [x];
    assert more[|xs|] == x;
    if m != start {
      var i :| 0 <= i < |xs| && Clips(xs[i] + 0.5, imin, imax) && RealAbs(xs[i] + 0.5) == m;
      assert more[i] == xs[i];
    }
  }
}
