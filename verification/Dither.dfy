/**
 Dither: one table of random bytes shared by all channels, each reading its own window of it, and a quantiser
 that feeds its error back.
 */
module Dither {
  import opened Arithmetic
  import opened Quantiser

  // ---------------------------------------------------------------- the offset map

  predicate IsByte(b: int) {
    -128 <= b <= 127
  }

  /** The dither offset for the difference of two table bytes, half a step included. The map ends at 254: beyond
      stands for what lies behind it. */
  function Offset(d: int, beyond: real): (r: real)
    requires -255 <= d <= 255
  {
    if d == 255 then beyond else if d == 254 then 1.5 else 0.5 + 1.0 / 255.0 + 1.0 / 255.0 * d as real
  }

  /** Inside the map the offset is half a step, and a 255th for the difference and one more. */
  lemma OffsetLaw(d: int, beyond: real)
    requires -255 <= d <= 254
    ensures Offset(d, beyond) == 0.5 + (d + 1) as real / 255.0
  {
  }

  /** The offsets a channel has added between two of its bytes. */
  function OffsetSum(seen: seq<int>, from: nat, to: nat, beyond: real): real
    requires from <= to < |seen| && forall k :: 0 <= k < |seen| ==> IsByte(seen[k])
  {
    if from == to then 0.0 else OffsetSum(seen, from, to - 1, beyond) + Offset(seen[to] - seen[to - 1], beyond)
  }

  /** The dither is high-passed: less its mean it adds up to the difference of two bytes, however long the stretch. */
  lemma {:induction false} HighPass(seen: seq<int>, from: nat, to: nat, beyond: real)
    requires from <= to < |seen| && forall k :: 0 <= k < |seen| ==> IsByte(seen[k])
    requires forall k :: from <= k < to ==> seen[k + 1] - seen[k] <= 254
    ensures OffsetSum(seen, from, to, beyond) - (to - from) as real * (0.5 + 1.0 / 255.0)
         == (seen[to] - seen[from]) as real / 255.0
  {
    if from < to {
      HighPass(seen, from, to - 1, beyond);
      assert seen[to - 1 + 1] - seen[to - 1] <= 254;
      OffsetLaw(seen[to] - seen[to - 1], beyond);
      hide Offset;
    }
  }

  /** Offsets inside the map run from -0.5 to 1.5. */
  lemma OffsetRange(d: int, beyond: real)
    requires -255 <= d <= 254
    ensures -0.5 <= Offset(d, beyond) <= 1.5
  {
  }

  /** The map covers a difference exactly unless it is the largest byte after the smallest. */
  lemma DifferenceCovered(a: int, b: int)
    requires IsByte(a) && IsByte(b)
    ensures -255 <= a - b <= 255
    ensures a - b <= 254 <==> !(a == 127 && b == -128)
  {
  }

  // ---------------------------------------------------------------- how long the table is

  datatype Spacing = Apart(samples: int) | TooSmall

  /** One stretch a channel and the shared first byte. */
  function TableBytes(nChannels: int, spacing: int): int {
    nChannels * spacing + 1
  }

  /** Ten seconds or a block, whichever is more, if the limit allows it; otherwise what the limit allows. */
  function Allowed(nChannels: int, sampleRate: int, maxSize: int, maxSamplesPerLoop: int): int
    requires nChannels > 0
  {
    var wanted := Max(10 * sampleRate, maxSamplesPerLoop);
    if maxSize > 0 && nChannels * wanted > maxSize then maxSize / nChannels else wanted
  }

  /** Distance between the channels' first windows: ten seconds, less if the table would exceed its limit, but
      at least one second and one block. */
  method TableSpacing(nChannels: int, sampleRate: int, maxSize: int, maxSamplesPerLoop: int) returns (r: Spacing)
    requires nChannels > 0 && sampleRate > 0 && maxSamplesPerLoop > 0
    ensures r.Apart? ==> r.samples == Allowed(nChannels, sampleRate, maxSize, maxSamplesPerLoop)
    ensures r.Apart? ==> Max(sampleRate, maxSamplesPerLoop) <= r.samples <= Max(10 * sampleRate, maxSamplesPerLoop)
    ensures r.Apart? && maxSize > 0 ==> TableBytes(nChannels, r.samples) <= maxSize + 1
    ensures r.Apart? && maxSize > 0 ==>
              (TableBytes(nChannels, r.samples) > maxSize <==>
               nChannels * Max(10 * sampleRate, maxSamplesPerLoop) >= maxSize && maxSize % nChannels == 0)
    ensures r.TooSmall? <==> maxSize > 0 && nChannels * Max(10 * sampleRate, maxSamplesPerLoop) > maxSize &&
                             maxSize / nChannels < Max(sampleRate, maxSamplesPerLoop)
  {
    var spacing := 10 * sampleRate;
    var minSpacing := if sampleRate > maxSamplesPerLoop then sampleRate else maxSamplesPerLoop;
    if spacing < minSpacing {
      spacing := minSpacing;
    }
    if maxSize > 0 {
      if nChannels * spacing > maxSize {
        spacing := maxSize / nChannels;
      }
    }
    if maxSize > 0 {
      LimitedTable(nChannels, sampleRate, maxSize, maxSamplesPerLoop);
    }
    if spacing < minSpacing {
      return TooSmall;
    }
    return Apart(spacing);
  }

  /** The first byte is not in the reckoning: the table is one byte over its limit exactly when the channels' wishes
      reach the limit and the channels fill it evenly. */
  lemma LimitedTable(nChannels: int, sampleRate: int, maxSize: int, maxSamplesPerLoop: int)
    requires nChannels > 0 && maxSize > 0
    ensures var bytes := TableBytes(nChannels, Allowed(nChannels, sampleRate, maxSize, maxSamplesPerLoop));
            bytes <= maxSize + 1 &&
            (bytes > maxSize <==>
             nChannels * Max(10 * sampleRate, maxSamplesPerLoop) >= maxSize && maxSize % nChannels == 0)
  {
    var wanted := Max(10 * sampleRate, maxSamplesPerLoop);
    hide Max;
    if nChannels * wanted > maxSize {
      Quotient(maxSize, nChannels);
    } else if nChannels * wanted == maxSize {
      ModOfMultiple(nChannels, wanted);
    }
  }

  /** One channel, one sample a second, a limit of ten bytes. */
  lemma OneByteOver()
    ensures TableBytes(1, Allowed(1, 1, 10, 1)) == 11
  {
  }

  lemma Quotient(a: int, n: int)
    requires n > 0
    ensures n * (a / n) <= a && (n * (a / n) == a <==> a % n == 0)
  {
  }

  // ---------------------------------------------------------------- one channel's state

  /** What became of one sample: the input and the limits it met, the output and the error. */
  datatype Done = Done(x: real, imin: int, imax: int, y: int, e: real)

  class DitherState {
    /** Start of the next window, start of the present one, and the last two errors. */
    var randtabPtr: int
    var randtab: int
    var sd0: real
    var sd1: real
    /** The table bytes the channel has seen: the one before its first window, then those of its windows. */
    ghost var seen: seq<int>
    /** Every sample of the channel since the start. */
    ghost var done: seq<Done>

    constructor (ptr: int)
      ensures randtabPtr == ptr && sd0 == 0.0 && sd1 == 0.0 && seen == [] && done == []
    {
      randtabPtr, randtab, sd0, sd1, seen, done := ptr, 0, 0.0, 0.0, [], [];
    }
  }

  /** The error of sample n; there was none before the first. */
  function Error(done: seq<Done>, n: int): real
    requires n < |done|
  {
    if n < 0 then 0.0 else done[n].e
  }

  /** The differences of neighbours add up to the difference of the ends. */
  function DifferenceSum(seen: seq<int>, from: nat, to: nat): int
    requires from <= to < |seen|
  {
    if from == to then 0 else DifferenceSum(seen, from, to - 1) + (seen[to] - seen[to - 1])
  }

  lemma {:induction false} Telescopes(seen: seq<int>, from: nat, to: nat)
    requires from <= to < |seen| && forall k :: 0 <= k < |seen| ==> IsByte(seen[k])
    ensures DifferenceSum(seen, from, to) == seen[to] - seen[from]
    ensures -255 <= DifferenceSum(seen, from, to) <= 255
  {
    if from < to {
      Telescopes(seen, from, to - 1);
    }
  }

  // ---------------------------------------------------------------- error feedback

  /** An input this far inside the range cannot clip, whatever the dither. */
  predicate Comfortable(x: real, imin: int, imax: int) {
    imin as real + 3.5 < x <= imax as real - 4.5
  }

  predicate SmallErrors(e1: real, e2: real) {
    -1.5 <= e1 <= 1.5 && -1.5 <= e2 <= 1.5
  }

  /** One step: x with the last two errors e1 and e2, dither offset and output y. */
  lemma FeedbackStep(x: real, e1: real, e2: real, offset: real, imin: int, imax: int)
    requires imin < 0 <= imax && Comfortable(x, imin, imax) && SmallErrors(e1, e2) && -0.5 <= offset <= 1.5
    ensures !Clips(x + e1 - e2 + offset, imin, imax)
    ensures var y := Sample(x + e1 - e2 + offset, imin, imax) as real;
            -1.5 <= x + e1 - e2 - y <= 1.5 && -4.5 <= y - x <= 4.5
  {
  }

  /** Where the second error ended up and what it says: y is x less the error filtered by 1 - z + z^2. */
  predicate Shaped(x: real, y: int, e1: real, e2: real, e: real) {
    y as real == x - (e - e1 + e2)
  }

  /** The largest clipped value: the undithered input r decides whether the dithered one is noted. */
  function NewLargest(largest: real, r: real, dithered: real): real {
    if (if dithered < 0.0 then r < -largest else r > largest) then RealAbs(dithered) else largest
  }

  /** The two inputs lie on different sides of the largest value so far. */
  predicate Straddles(largest: real, r: real, dithered: real) {
    if dithered < 0.0 then
      -dithered < largest < -r || -r <= largest < -dithered
    else
      dithered < largest < r || r <= largest < dithered
  }

  /** A clipped sample is noted at the low end if the undithered input lies below what was noted, at the high end if it
      lies above, and with its dithered value. */
  lemma LargestIs(largest: real, r: real, dithered: real)
    ensures dithered < 0.0 && r < -largest ==> NewLargest(largest, r, dithered) == -dithered
    ensures dithered >= 0.0 && r > largest ==> NewLargest(largest, r, dithered) == dithered
    ensures (dithered < 0.0 && r >= -largest) || (dithered >= 0.0 && r <= largest) ==>
              NewLargest(largest, r, dithered) == largest
  {
  }

  /** Whatever the dither, the meter shows the largest clipped value exactly if the two inputs do not straddle it. */
  lemma LargestKept(largest: real, r: real, dithered: real)
    ensures NewLargest(largest, r, dithered) == RealMax(largest, RealAbs(dithered)) <==>
            !Straddles(largest, r, dithered)
  {
  }

  /** The meter shows the largest clipped value exactly if the two inputs do not straddle it. It never shows more, and
      at most one and a half less. */
  lemma LargestRight(largest: real, r: real, offset: real)
    requires largest >= 0.0 && -0.5 <= offset <= 1.5
    ensures var d := r + offset;
            var right := RealMax(largest, RealAbs(d));
            (NewLargest(largest, r, d) == right <==> !Straddles(largest, r, d)) &&
            right - 1.5 <= NewLargest(largest, r, d) <= right
  {
  }

  /** A peak that is missed, and one that lowers the meter, with differences of bytes. */
  lemma LargestWrong(beyond: real)
    ensures var peak := 199.8 + Offset(152, beyond);
            peak > 200.0 && NewLargest(200.0, 199.8, peak) == 200.0
    ensures var low := 200.2 + Offset(-231, beyond);
            low < 200.0 && NewLargest(200.0, 200.2, low) == low
  {
  }

  // ---------------------------------------------------------------- the table and its readers

  class Dither {
    const randtab: array<int>
    const states: seq<DitherState>
    /** What lies behind the offset map. */
    const beyond: real
    /** The values the table was filled with. */
    ghost const bytes: set<int>

    ghost predicate Bytes()
      reads randtab
    {
      forall p :: 0 <= p < randtab.Length ==> IsByte(randtab[p]) && randtab[p] in bytes
    }

    ghost predicate OfTable(seen: seq<int>) {
      forall k :: 0 <= k < |seen| ==> IsByte(seen[k]) && seen[k] in bytes
    }

    ghost function DitheredInput(x: real, e1: real, e2: real, seen: seq<int>, p: nat): real
      requires p + 1 < |seen| && IsByte(seen[p]) && IsByte(seen[p + 1])
    {
      x + e1 - e2 + Offset(seen[p + 1] - seen[p], beyond)
    }

    ghost predicate ClipsAt(x: real, e1: real, e2: real, seen: seq<int>, p: nat, imin: int, imax: int) {
      p + 1 < |seen| && IsByte(seen[p]) && IsByte(seen[p + 1]) &&
      Clips(DitheredInput(x, e1, e2, seen, p), imin, imax)
    }

    /** A sample with last errors e1 and e2 and dither from bytes p and p + 1. */
    ghost predicate Quantised(d: Done, e1: real, e2: real, seen: seq<int>, p: nat) {
      d.imin < 0 <= d.imax &&
      p + 1 < |seen| && IsByte(seen[p]) && IsByte(seen[p + 1]) &&
      d.y == Sample(DitheredInput(d.x, e1, e2, seen, p), d.imin, d.imax) && Shaped(d.x, d.y, e1, e2, d.e)
    }

    /** Every sample was quantised with the errors of the two before it and the difference of its bytes. */
    ghost predicate History(done: seq<Done>, seen: seq<int>) {
      |seen| == |done| + 1 &&
      forall n :: 0 <= n < |done| ==> Quantised(done[n], Error(done, n - 1), Error(done, n - 2), seen, n)
    }

    /** How many of the first n samples clipped. */
    ghost function Clipped(done: seq<Done>, seen: seq<int>, n: nat): nat
      requires n <= |done|
    {
      if n == 0 then 0
      else
        var d := done[n - 1];
        Clipped(done, seen, n - 1) +
        if ClipsAt(d.x, Error(done, n - 2), Error(done, n - 3), seen, n - 1, d.imin, d.imax) then 1 else 0
    }

    /** The history of a channel, which may not have begun. */
    ghost predicate Coherent(done: seq<Done>, seen: seq<int>) {
      if seen == [] then done == [] else History(done, seen)
    }

    /** The meters after one more sample. */
    ghost function MetersNext(m: Meters, d: Done, e1: real, e2: real, seen: seq<int>, p: nat): Meters {
      if ClipsAt(d.x, e1, e2, seen, p, d.imin, d.imax) then
        Meters(m.nOverflows + 1, m.intlargest,
               NewLargest(m.largest, d.x + e1 - e2, DitheredInput(d.x, e1, e2, seen, p)))
      else m.(intlargest := Max(m.intlargest, Abs(d.y)))
    }

    /** The meters after the samples from the given one up to n. */
    ghost function MetersAfter(done: seq<Done>, seen: seq<int>, from: nat, n: nat, start: Meters): Meters
      requires from <= n <= |done|
    {
      if n == from then start
      else
        MetersNext(MetersAfter(done, seen, from, n - 1, start), done[n - 1], Error(done, n - 2), Error(done, n - 3),
                   seen, n - 1)
    }

    ghost predicate Remembers(state: DitherState)
      reads state`seen, state`done, state`sd0, state`sd1
    {
      Coherent(state.done, state.seen) &&
      state.sd0 == Error(state.done, |state.done| - 1) && state.sd1 == Error(state.done, |state.done| - 2)
    }

    /** The byte before a channel's next window is the last one it has seen, and is never the shared first byte. */
    ghost predicate StateValid(state: DitherState)
      reads state, randtab
    {
      1 <= state.randtabPtr <= randtab.Length && Remembers(state) && OfTable(state.seen) &&
      (state.seen != [] ==> state.randtabPtr >= 2 && randtab[state.randtabPtr - 1] == state.seen[|state.seen| - 1])
    }

    ghost predicate Distinct() {
      forall i, j :: 0 <= i < j < |states| ==> states[i] != states[j]
    }

    ghost predicate Valid()
      reads randtab, states
    {
      Bytes() && Distinct() && forall i :: 0 <= i < |states| ==> StateValid(states[i])
    }

    /** A table of the given random bytes, the channels' first windows spacing apart. */
    constructor (nChannels: nat, spacing: nat, random: seq<int>, beyond: real)
      requires spacing > 0 && |random| == nChannels * spacing + 1 && forall k :: 0 <= k < |random| ==> IsByte(random[k])
      ensures Valid() && fresh(randtab) && fresh(states) && |states| == nChannels && randtab[..] == random
      ensures forall i :: 0 <= i < nChannels ==>
                states[i].sd0 == 0.0 && states[i].sd1 == 0.0 && states[i].seen == [] && states[i].done == []
      ensures forall i :: 0 <= i < nChannels ==> states[i].randtabPtr == i * spacing + 1
      ensures this.beyond == beyond && bytes == set b | b in random
    {
      var table := new int[|random|](k requires 0 <= k < |random| => random[k]);
      assert table[..] == random;
      this.beyond := beyond;
      var made: seq<DitherState> := [];
      for n := 0 to nChannels
        invariant |made| == n && fresh(made) && table[..] == random
        invariant forall i, j :: 0 <= i < j < n ==> made[i] != made[j]
        invariant forall i :: 0 <= i < n ==> 1 <= made[i].randtabPtr <= |random| &&
                                             made[i].sd0 == 0.0 && made[i].sd1 == 0.0 &&
                                             made[i].seen == [] && made[i].done == []
        invariant forall i :: 0 <= i < n ==> made[i].randtabPtr == i * spacing + 1
      {
        RowsUpTo(n, nChannels, spacing);
        var state := new DitherState(n * spacing + 1);
        made := made + [state];
      }
      bytes := set b | b in random;
      randtab, states := table, made;
    }

    /** The window of a block that began at ptr: the next bytes of the table, or at its end the first ones, the byte
        before the old window put in front of them. Nothing else in the table changes. */
    ghost predicate Window(state: DitherState, size: nat, ptr: int, before: seq<int>, table: seq<int>)
      reads state`randtab, state`randtabPtr
    {
      1 <= ptr <= |before| == |table| && state.randtabPtr == state.randtab + size &&
      if ptr + size >= |before| then state.randtab == 1 && table == before[0 := before[ptr - 1]]
      else state.randtab == ptr && table == before
    }

    /** Moves a channel to its next window; at the end of the table it starts over, its last byte put first. */
    method Preloop(state: DitherState, samplesPerLoop: nat)
      requires Valid() && state in states && 1 <= samplesPerLoop < randtab.Length
      modifies state`randtabPtr, state`randtab, randtab
      ensures Bytes() && forall i :: 0 <= i < |states| && states[i] != state ==> StateValid(states[i])
      ensures 1 <= state.randtab && state.randtab + samplesPerLoop == state.randtabPtr <= randtab.Length
      ensures state.seen != [] ==> randtab[state.randtab - 1] == state.seen[|state.seen| - 1]
      ensures Remembers(state) && OfTable(state.seen)
      ensures Window(state, samplesPerLoop, old(state.randtabPtr), old(randtab[..]), randtab[..])
      ensures var ptr := old(state.randtabPtr);
              1 <= ptr <= randtab.Length &&
              if ptr + samplesPerLoop >= randtab.Length then
                state.randtab == 1 && randtab[..] == old(randtab[..])[0 := old(randtab[..])[ptr - 1]]
              else state.randtab == ptr && randtab[..] == old(randtab[..])
    {
      hide Remembers;
      if state.randtabPtr + samplesPerLoop >= randtab.Length {
        randtab[0] := randtab[state.randtabPtr - 1];
        state.randtabPtr := 1;
      }
      state.randtab := state.randtabPtr;
      state.randtabPtr := state.randtabPtr + samplesPerLoop;
    }

    /** One sample: feed back, dither, truncate, meter, keep the error. */
    method Real2IntHpTpdf(x: real, imin: int, imax: int, overflow: Overflow, state: DitherState, loopCounter: nat)
      returns (sample: int)
      requires imin < 0 <= imax && Bytes() && state.randtab >= 1 && state.randtab + loopCounter < randtab.Length
      modifies overflow, state`sd0, state`sd1
      ensures var d := randtab[state.randtab + loopCounter] - randtab[state.randtab + loopCounter - 1];
              var r := x + old(state.sd0) - old(state.sd1);
              -255 <= d <= 255 && sample == Sample(r + Offset(d, beyond), imin, imax) &&
              (Clips(r + Offset(d, beyond), imin, imax) ==>
                overflow.nOverflows == old(overflow.nOverflows) + 1 &&
                overflow.intlargest == old(overflow.intlargest) &&
                overflow.largest == NewLargest(old(overflow.largest), r, r + Offset(d, beyond))) &&
              (!Clips(r + Offset(d, beyond), imin, imax) ==>
                overflow.nOverflows == old(overflow.nOverflows) && overflow.largest == old(overflow.largest) &&
                overflow.intlargest == Max(old(overflow.intlargest), Abs(sample)))
      ensures state.sd1 == old(state.sd0) && Shaped(x, sample, old(state.sd0), old(state.sd1), state.sd0)
      ensures state.sd0 == x + old(state.sd0) - old(state.sd1) - sample as real
      ensures var a, b := randtab[state.randtab + loopCounter - 1], randtab[state.randtab + loopCounter];
              b - a <= 254 ==>
                sample == Sample(x + old(state.sd0) - old(state.sd1) + (0.5 + (b - a + 1) as real / 255.0), imin, imax)
    {
      var realSample := x + (state.sd0 - state.sd1);
      state.sd1 := state.sd0;
      var d := randtab[state.randtab + loopCounter] - randtab[state.randtab + loopCounter - 1];
      var ditheredSample := realSample + Offset(d, beyond);
      if d <= 254 {
        OffsetLaw(d, beyond);
      }
      hide Offset;
      if ditheredSample < 0.0 {
        if ditheredSample <= imin as real {
          sample := imin;
          overflow.nOverflows := overflow.nOverflows + 1;
          if realSample < -overflow.largest {
            overflow.largest := -ditheredSample;
          }
        } else {
          sample := Truncated(ditheredSample);
          sample := sample - 1;
          SampleBelow(ditheredSample, imin, imax);
          if sample < -overflow.intlargest {
            overflow.intlargest := -sample;
          }
        }
      } else {
        if ditheredSample > imax as real {
          sample := imax;
          overflow.nOverflows := overflow.nOverflows + 1;
          if realSample > overflow.largest {
            overflow.largest := ditheredSample;
          }
        } else {
          sample := Truncated(ditheredSample);
          SampleBelow(ditheredSample, imin, imax);
          if sample > overflow.intlargest {
            overflow.intlargest := sample;
          }
        }
      }
      state.sd0 := realSample - sample as real;
    }

    /** The last bytes the channel has seen are the first n of its window and the one before. */
    ghost predicate Saw(state: DitherState, n: nat)
      reads state`seen, state`randtab, randtab
    {
      1 <= state.randtab && state.randtab + n <= randtab.Length && n + 1 <= |state.seen| &&
      state.seen[|state.seen| - n - 1..] == randtab[state.randtab - 1..state.randtab + n]
    }

    lemma SawNext(seen: seq<int>, table: seq<int>, from: nat, n: nat, b: int)
      requires n + 1 <= |seen| && from + n + 1 < |table| && b == table[from + n + 1]
      requires seen[|seen| - n - 1..] == table[from..from + n + 1]
      ensures (seen + [b])[|seen| - n - 1..] == table[from..from + n + 2]
    {
      assert (seen + [b])[|seen| - n - 1..] == seen[|seen| - n - 1..] + [b];
      assert table[from..from + n + 2] == table[from..from + n + 1] + [b];
    }

    /** n samples of a block are done: the channel has seen its window up to there. */
    ghost predicate Running(state: DitherState, n: nat)
      reads state, randtab
    {
      Remembers(state) && |state.seen| == |state.done| + 1 && Saw(state, n) && OfTable(state.seen) &&
      state.seen[|state.done|] == randtab[state.randtab + n - 1]
    }

    /** The samples from the given one on are these inputs and outputs. */
    ghost predicate Records(done: seq<Done>, from: nat, xs: seq<real>, ys: seq<int>, imin: int, imax: int) {
      |done| == from + |ys| && |ys| <= |xs| &&
      forall k :: 0 <= k < |ys| ==> Done(xs[k], imin, imax, ys[k], done[from + k].e) == done[from + k]
    }

    /** All samples of the channel that have clipped. */
    ghost function ClippedSoFar(state: DitherState): nat
      reads state`seen, state`done
    {
      Clipped(state.done, state.seen, |state.done|)
    }

    ghost function MetersSince(state: DitherState, from: nat, start: Meters): Meters
      requires from <= |state.done|
      reads state`seen, state`done
    {
      MetersAfter(state.done, state.seen, from, |state.done|, start)
    }

    /** What an overflow meter shows that has served this channel alone from the start. */
    ghost function RunMeters(state: DitherState): Meters
      reads state`seen, state`done
    {
      MetersSince(state, 0, Meters(0, 0, 0.0))
    }

    /** One more sample and byte leave what was there as it was. */
    lemma {:induction false} ClippedBefore(done: seq<Done>, d: Done, seen: seq<int>, b: int, n: nat)
      requires n <= |done| && n < |seen|
      ensures Clipped(done + [d], seen + [b], n) == Clipped(done, seen, n)
    {
      if n > 0 {
        ClippedBefore(done, d, seen, b, n - 1);
        assert (seen + [b])[n - 1] == seen[n - 1] && (seen + [b])[n] == seen[n];
      }
    }

    /** Samples and bytes that follow leave the meters of those before as they were. */
    lemma {:induction false} MetersBefore(done: seq<Done>, done': seq<Done>, seen: seq<int>, seen': seq<int>,
                                          from: nat, n: nat, start: Meters)
      requires from <= n <= |done| && n <= |seen| && done <= done' && seen <= seen' && (from < n ==> n < |seen|)
      ensures MetersAfter(done', seen', from, n, start) == MetersAfter(done, seen, from, n, start)
    {
      if n > from {
        MetersBefore(done, done', seen, seen', from, n - 1, start);
        assert seen'[n - 1] == seen[n - 1] && seen'[n] == seen[n];
      }
    }

    /** Meters of one stretch after those of the stretch before it. */
    lemma {:induction false} MetersJoin(done: seq<Done>, seen: seq<int>, from: nat, mid: nat, n: nat, start: Meters)
      requires from <= mid <= n <= |done|
      ensures MetersAfter(done, seen, from, n, start)
           == MetersAfter(done, seen, mid, n, MetersAfter(done, seen, from, mid, start))
    {
      if n > mid {
        MetersJoin(done, seen, from, mid, n - 1, start);
      }
    }

    /** A sample of a stretch that was not clipped. */
    ghost predicate Whole(done: seq<Done>, seen: seq<int>, k: nat)
      requires k < |done|
    {
      !ClipsAt(done[k].x, Error(done, k - 1), Error(done, k - 2), seen, k, done[k].imin, done[k].imax)
    }

    ghost function DitheredAt(done: seq<Done>, seen: seq<int>, k: nat): real
      requires k < |done|
    {
      if k + 1 < |seen| && IsByte(seen[k]) && IsByte(seen[k + 1]) then
        DitheredInput(done[k].x, Error(done, k - 1), Error(done, k - 2), seen, k)
      else 0.0
    }

    /** What the meters show after the samples from the given one up to n: the largest output that was not clipped, and
        either the old largest value or that of a sample that was. */
    ghost predicate Shown(done: seq<Done>, seen: seq<int>, from: nat, n: nat, start: Meters, m: Meters)
      requires from <= n <= |done| && History(done, seen)
    {
      m.intlargest >= start.intlargest &&
      (forall k :: from <= k < n && Whole(done, seen, k) ==> Abs(done[k].y) <= m.intlargest) &&
      (m.intlargest == start.intlargest ||
       exists k :: from <= k < n && Whole(done, seen, k) && m.intlargest == Abs(done[k].y)) &&
      (m.largest == start.largest ||
       exists k :: from <= k < n && !Whole(done, seen, k) && m.largest == RealAbs(DitheredAt(done, seen, k)))
    }

    lemma ShownWhole(done: seq<Done>, seen: seq<int>, from: nat, n: nat, start: Meters, m: Meters)
      requires History(done, seen) && from <= n < |done| && Shown(done, seen, from, n, start, m)
      requires Whole(done, seen, n)
      ensures Shown(done, seen, from, n + 1, start, m.(intlargest := Max(m.intlargest, Abs(done[n].y))))
    {
      hide History, Whole, DitheredAt, Abs, RealAbs;
    }

    lemma ShownClipped(done: seq<Done>, seen: seq<int>, from: nat, n: nat, start: Meters, m: Meters, largest: real)
      requires History(done, seen) && from <= n < |done| && Shown(done, seen, from, n, start, m)
      requires !Whole(done, seen, n) && (largest == m.largest || largest == RealAbs(DitheredAt(done, seen, n)))
      ensures Shown(done, seen, from, n + 1, start, Meters(m.nOverflows + 1, m.intlargest, largest))
    {
      hide History, Whole, DitheredAt, Abs, RealAbs;
    }

    lemma MetersStep(done: seq<Done>, seen: seq<int>, n: nat, m: Meters)
      requires n < |done| && n + 1 < |seen| && IsByte(seen[n]) && IsByte(seen[n + 1])
      ensures var next := MetersNext(m, done[n], Error(done, n - 1), Error(done, n - 2), seen, n);
              if Whole(done, seen, n) then next == m.(intlargest := Max(m.intlargest, Abs(done[n].y)))
              else
                next == Meters(m.nOverflows + 1, m.intlargest, next.largest) &&
                (next.largest == m.largest || next.largest == RealAbs(DitheredAt(done, seen, n)))
    {
      hide Clips, Abs, RealAbs, Max, Offset;
    }

    lemma BytesOf(done: seq<Done>, seen: seq<int>, n: nat)
      requires History(done, seen) && n < |done|
      ensures n + 1 < |seen| && IsByte(seen[n]) && IsByte(seen[n + 1])
    {
      assert Quantised(done[n], Error(done, n - 1), Error(done, n - 2), seen, n);
    }

    lemma ClippedStep(done: seq<Done>, seen: seq<int>, n: nat)
      requires n < |done|
      ensures Clipped(done, seen, n + 1) == Clipped(done, seen, n) + if Whole(done, seen, n) then 0 else 1
    {
      hide ClipsAt;
    }

    /** What the meters show after a stretch, and that the count has grown by the samples that clipped. */
    lemma {:induction false} MetersSay(done: seq<Done>, seen: seq<int>, from: nat, n: nat, start: Meters)
      requires History(done, seen) && from <= n <= |done|
      ensures Shown(done, seen, from, n, start, MetersAfter(done, seen, from, n, start))
      ensures MetersAfter(done, seen, from, n, start).nOverflows
           == start.nOverflows + Clipped(done, seen, n) - Clipped(done, seen, from)
    {
      if n > from {
        MetersSay(done, seen, from, n - 1, start);
        var m, next := MetersAfter(done, seen, from, n - 1, start), MetersAfter(done, seen, from, n, start);
        hide MetersNext, History, Whole, Shown, Clipped, DitheredAt;
        BytesOf(done, seen, n - 1);
        MetersStep(done, seen, n - 1, m);
        ClippedStep(done, seen, n - 1);
        if Whole(done, seen, n - 1) {
          ShownWhole(done, seen, from, n - 1, start, m);
        } else {
          ShownClipped(done, seen, from, n - 1, start, m, next.largest);
        }
      }
    }

    /** The meter as sample k met it was not straddled by it. */
    ghost predicate Fair(done: seq<Done>, seen: seq<int>, from: nat, k: nat, start: Meters)
      requires from <= k < |done|
    {
      Whole(done, seen, k) ||
      !Straddles(MetersAfter(done, seen, from, k, start).largest,
                 done[k].x + Error(done, k - 1) - Error(done, k - 2), DitheredAt(done, seen, k))
    }

    /** m is the largest of start and the sizes of the clipped dithered inputs. */
    ghost predicate IsPeak(done: seq<Done>, seen: seq<int>, from: nat, n: nat, start: real, m: real)
      requires from <= n <= |done|
    {
      m >= start &&
      (forall k :: from <= k < n && !Whole(done, seen, k) ==> RealAbs(DitheredAt(done, seen, k)) <= m) &&
      (m == start || exists k :: from <= k < n && !Whole(done, seen, k) && m == RealAbs(DitheredAt(done, seen, k)))
    }

    lemma PeakStep(done: seq<Done>, seen: seq<int>, from: nat, n: nat, start: real, m: real)
      requires from <= n < |done| && IsPeak(done, seen, from, n, start, m)
      ensures IsPeak(done, seen, from, n + 1, start,
                     if Whole(done, seen, n) then m else RealMax(m, RealAbs(DitheredAt(done, seen, n))))
    {
      hide Whole, DitheredAt, RealAbs;
    }

    lemma LargestStep(done: seq<Done>, seen: seq<int>, n: nat, m: Meters)
      requires n < |done| && n + 1 < |seen| && IsByte(seen[n]) && IsByte(seen[n + 1])
      ensures MetersNext(m, done[n], Error(done, n - 1), Error(done, n - 2), seen, n).largest ==
              if Whole(done, seen, n) then m.largest
              else
                NewLargest(m.largest, done[n].x + Error(done, n - 1) - Error(done, n - 2), DitheredAt(done, seen, n))
    {
      hide Clips, NewLargest, Offset;
    }

    /** If no clipped sample of a stretch straddled the meter, it ends as the largest clipped value. */
    lemma {:induction false} LargestRun(done: seq<Done>, seen: seq<int>, from: nat, n: nat, start: Meters)
      requires History(done, seen) && from <= n <= |done|
      requires forall k :: from <= k < n ==> Fair(done, seen, from, k, start)
      ensures IsPeak(done, seen, from, n, start.largest, MetersAfter(done, seen, from, n, start).largest)
    {
      if n > from {
        LargestRun(done, seen, from, n - 1, start);
        var m := MetersAfter(done, seen, from, n - 1, start);
        assert Fair(done, seen, from, n - 1, start);
        hide MetersNext, History, Whole, DitheredAt, IsPeak, NewLargest, Straddles;
        BytesOf(done, seen, n - 1);
        LargestStep(done, seen, n - 1, m);
        PeakStep(done, seen, from, n - 1, start.largest, m.largest);
        LargestKept(m.largest, done[n - 1].x + Error(done, n - 2) - Error(done, n - 3), DitheredAt(done, seen, n - 1));
      }
    }

    lemma HistoryStep(done: seq<Done>, d: Done, seen: seq<int>, b: int)
      requires History(done, seen)
      requires Quantised(d, Error(done, |done| - 1), Error(done, |done| - 2), seen + [b], |done|)
      ensures History(done + [d], seen + [b])
    {
      var done', seen' := done + [d], seen + [b];
      forall n | 0 <= n < |done'|
        ensures Quantised(done'[n], Error(done', n - 1), Error(done', n - 2), seen', n)
      {
        if n < |done| {
          assert Quantised(done[n], Error(done, n - 1), Error(done, n - 2), seen, n);
          assert seen'[n] == seen[n] && seen'[n + 1] == seen[n + 1];
        }
      }
    }

    /** The count after one more sample. */
    lemma ClippedNext(done: seq<Done>, d: Done, seen: seq<int>, b: int)
      requires |seen| == |done| + 1
      ensures Clipped(done + [d], seen + [b], |done| + 1) == Clipped(done, seen, |done|) +
              if ClipsAt(d.x, Error(done, |done| - 1), Error(done, |done| - 2), seen + [b], |done|, d.imin, d.imax)
              then 1 else 0
    {
      ClippedBefore(done, d, seen, b, |done|);
    }

    /** The first n inputs are inside the range by the margin, and their differences inside the map. */
    ghost predicate CalmUpTo(done: seq<Done>, seen: seq<int>, n: nat)
      requires n <= |done| && n < |seen|
    {
      forall k :: 0 <= k < n ==>
                    Comfortable(done[k].x, done[k].imin, done[k].imax) && seen[k + 1] - seen[k] <= 254
    }

    lemma CalmStep(d: Done, e1: real, e2: real, seen: seq<int>, p: nat)
      requires Quantised(d, e1, e2, seen, p) && Comfortable(d.x, d.imin, d.imax) && seen[p + 1] - seen[p] <= 254
      requires SmallErrors(e1, e2)
      ensures !ClipsAt(d.x, e1, e2, seen, p, d.imin, d.imax)
      ensures -1.5 <= d.e <= 1.5 && -4.5 <= d.y as real - d.x <= 4.5
    {
      FeedbackStep(d.x, e1, e2, Offset(seen[p + 1] - seen[p], beyond), d.imin, d.imax);
    }

    /** Then nothing clips, the errors stay small, and every output is within 4.5 of its input. */
    lemma {:induction false} CalmSamples(done: seq<Done>, seen: seq<int>, n: nat)
      requires History(done, seen) && n <= |done| && CalmUpTo(done, seen, n)
      ensures Clipped(done, seen, n) == 0 && SmallErrors(Error(done, n - 1), Error(done, n - 2))
      ensures forall k :: 0 <= k < n ==> -1.5 <= done[k].e <= 1.5 && -4.5 <= done[k].y as real - done[k].x <= 4.5
    {
      if n > 0 {
        CalmSamples(done, seen, n - 1);
        hide Comfortable, ClipsAt, Quantised;
        CalmStep(done[n - 1], Error(done, n - 2), Error(done, n - 3), seen, n - 1);
      }
    }

    ghost predicate Calm(state: DitherState)
      reads state`seen, state`done
    {
      state.seen != [] ==> |state.seen| == |state.done| + 1 && CalmUpTo(state.done, state.seen, |state.done|)
    }

    /** The counts before and after a block of a calm run. */
    lemma CalmBlock(state: DitherState, done: seq<Done>, seen: seq<int>)
      requires Remembers(state) && Calm(state) && done <= state.done && seen <= state.seen
      requires Coherent(done, seen)
      ensures ClippedSoFar(state) == 0 && Clipped(done, seen, |done|) == 0
    {
      hide Quantised, ClipsAt, Comfortable;
      if state.seen != [] {
        CalmSamples(state.done, state.seen, |state.done|);
      }
      if seen != [] {
        assert CalmUpTo(done, seen, |done|);
        CalmSamples(done, seen, |done|);
      }
    }

    /** From the start on, over any blocks of this and other channels: if every input was comfortable and no
        difference beyond the map, no sample clipped, every error is small, and every output near its input. */
    lemma CalmRun(ch: nat)
      requires Valid() && ch < |states| && Calm(states[ch])
      ensures ClippedSoFar(states[ch]) == 0 && SmallErrors(states[ch].sd0, states[ch].sd1)
      ensures forall k :: 0 <= k < |states[ch].done| ==>
                          var d := states[ch].done[k];
                          -1.5 <= d.e <= 1.5 && -4.5 <= d.y as real - d.x <= 4.5
    {
      if states[ch].seen != [] {
        CalmSamples(states[ch].done, states[ch].seen, |states[ch].done|);
      }
    }

    /** Sample k of a channel, written out: the input with the two last errors fed back, half a step, and the dither of
        the channel's bytes k and k + 1; the error is what the sample left of the undithered value. */
    lemma SampleWritten(ch: nat, k: nat)
      requires Valid() && ch < |states| && k < |states[ch].done| && states[ch].seen[k + 1] - states[ch].seen[k] <= 254
      ensures var d, seen := states[ch].done[k], states[ch].seen;
              var e1 := if k < 1 then 0.0 else states[ch].done[k - 1].e;
              var e2 := if k < 2 then 0.0 else states[ch].done[k - 2].e;
              var v := d.x + e1 - e2 + (0.5 + (seen[k + 1] - seen[k] + 1) as real / 255.0);
              d.e == d.x + e1 - e2 - d.y as real &&
              (v <= d.imin as real ==> d.y == d.imin) && (v > d.imax as real ==> d.y == d.imax) &&
              (0.0 <= v <= d.imax as real ==> d.y as real <= v < d.y as real + 1.0) &&
              (d.imin as real < v < 0.0 ==> (d.y as real) < v <= d.y as real + 1.0)
    {
      var done, seen := states[ch].done, states[ch].seen;
      assert Quantised(done[k], Error(done, k - 1), Error(done, k - 2), seen, k);
      OffsetLaw(seen[k + 1] - seen[k], beyond);
      hide Offset, Sample, History;
      SampleExact(DitheredInput(done[k].x, Error(done, k - 1), Error(done, k - 2), seen, k),
                  done[k].imin, done[k].imax);
    }

    /** The inputs alone decide if the table does not hold both the smallest and the largest byte. */
    lemma CalmTable(ch: nat)
      requires Valid() && ch < |states| && !(127 in bytes && -128 in bytes)
      ensures Calm(states[ch]) <==>
              forall k :: 0 <= k < |states[ch].done| ==>
                            var d := states[ch].done[k];
                            d.imin as real + 3.5 < d.x <= d.imax as real - 4.5
    {
      var state: DitherState := states[ch];
      hide Quantised;
      if state.seen != [] {
        forall k | 0 <= k < |state.done| ensures state.seen[k + 1] - state.seen[k] <= 254 {
          DifferenceCovered(state.seen[k + 1], state.seen[k]);
        }
      }
    }

    /** One sample of a block. */
    method DitherOne(x: real, imin: int, imax: int, overflow: Overflow, state: DitherState, n: nat)
      returns (sample: int)
      requires imin < 0 <= imax && Bytes() && Running(state, n) && state.randtab + n < randtab.Length
      modifies overflow, state`sd0, state`sd1, state`seen, state`done
      ensures Running(state, n + 1) && old(state.seen) <= state.seen
      ensures state.done == old(state.done) + [Done(x, imin, imax, sample, state.sd0)]
      ensures overflow.nOverflows == old(overflow.nOverflows) + ClippedSoFar(state) - old(ClippedSoFar(state))
      ensures overflow.Value() == MetersNext(old(overflow.Value()), Done(x, imin, imax, sample, state.sd0),
                                             old(state.sd0), old(state.sd1), state.seen, |old(state.done)|)
    {
      hide Sample, Clips, Offset, Shaped, NewLargest;
      sample := Real2IntHpTpdf(x, imin, imax, overflow, state, n);
      ghost var d, b := Done(x, imin, imax, sample, state.sd0), randtab[state.randtab + n];
      HistoryStep(state.done, d, state.seen, b);
      ClippedNext(state.done, d, state.seen, b);
      hide History, Quantised, Clipped, Bytes;
      Note(state, d, b, n);
    }

    /** The history and the bytes grow by one sample. */
    ghost method Note(state: DitherState, d: Done, b: int, n: nat)
      requires |state.seen| == |state.done| + 1 && Saw(state, n) && OfTable(state.seen)
      requires state.randtab + n < randtab.Length && b == randtab[state.randtab + n] && OfTable([b])
      requires History(state.done + [d], state.seen + [b])
      requires state.sd0 == d.e && state.sd1 == Error(state.done, |state.done| - 1)
      modifies state`seen, state`done
      ensures Running(state, n + 1)
      ensures state.done == old(state.done) + [d] && state.seen == old(state.seen) + [b]
    {
      hide History, Coherent, OfTable, Error;
      SawNext(state.seen, randtab[..], state.randtab - 1, n, b);
      Noted(state.done, d, state.seen, b);
      state.done, state.seen := state.done + [d], state.seen + [b];
    }

    lemma Noted(done: seq<Done>, d: Done, seen: seq<int>, b: int)
      requires History(done + [d], seen + [b]) && OfTable(seen) && OfTable([b])
      ensures Coherent(done + [d], seen + [b]) && OfTable(seen + [b])
      ensures Error(done + [d], |done|) == d.e && Error(done + [d], |done| - 1) == Error(done, |done| - 1)
    {
      assert [b][0] == b;
      hide History, IsByte;
    }

    lemma BeginsCoherent(state: DitherState)
      requires Remembers(state)
      ensures Coherent(state.done, state.seen)
      ensures ClippedSoFar(state) == Clipped(state.done, state.seen, |state.done|)
      ensures RunMeters(state) == MetersAfter(state.done, state.seen, 0, |state.done|, Meters(0, 0, 0.0))
    {
    }

    lemma BlockEnds(state: DitherState, n: nat)
      requires Running(state, n) && n >= 1 && state.randtab + n == state.randtabPtr
      ensures StateValid(state) && Remembers(state) && Saw(state, n) && |state.seen| == |state.done| + 1
    {
    }

    /** The meters of the whole run are those of the stretch after those of the run before it. */
    lemma MetersGoOn(done: seq<Done>, seen: seq<int>, state: DitherState)
      requires Coherent(done, seen) && done <= state.done && seen <= state.seen
      ensures RunMeters(state)
           == MetersSince(state, |done|, MetersAfter(done, seen, 0, |done|, Meters(0, 0, 0.0)))
    {
      MetersJoin(state.done, state.seen, 0, |done|, |state.done|, Meters(0, 0, 0.0));
      MetersBefore(done, state.done, seen, state.seen, 0, |done|, Meters(0, 0, 0.0));
    }

    /** The first window of a channel begins after a byte it has not seen yet. */
    ghost method BeginSeeing(state: DitherState)
      requires Bytes() && 1 <= state.randtab <= randtab.Length && Remembers(state)
      requires OfTable(state.seen)
      requires state.seen != [] ==> randtab[state.randtab - 1] == state.seen[|state.seen| - 1]
      modifies state`seen
      ensures Running(state, 0) && old(state.seen) <= state.seen
      ensures ClippedSoFar(state) == old(ClippedSoFar(state))
    {
      if state.seen == [] {
        state.seen := [randtab[state.randtab - 1]];
      }
    }

    /** The samples of a block. */
    method DitherLoop(state: DitherState, xs: seq<real>, imin: int, imax: int, overflow: Overflow)
      returns (ys: seq<int>)
      requires Bytes() && Running(state, 0) && state.randtab + |xs| <= randtab.Length && imin < 0 <= imax
      modifies overflow, state`sd0, state`sd1, state`seen, state`done
      ensures |ys| == |xs| && Running(state, |xs|)
      ensures old(state.seen) <= state.seen && old(state.done) <= state.done
      ensures Records(state.done, |old(state.done)|, xs, ys, imin, imax)
      ensures overflow.nOverflows == old(overflow.nOverflows) + ClippedSoFar(state) - old(ClippedSoFar(state))
      ensures overflow.Value() == MetersSince(state, |old(state.done)|, old(overflow.Value()))
    {
      ys := [];
      hide Clipped, Bytes, Running, MetersNext;
      for n := 0 to |xs|
        invariant |ys| == n && Running(state, n)
        invariant old(state.seen) <= state.seen && old(state.done) <= state.done
        invariant Records(state.done, |old(state.done)|, xs, ys, imin, imax)
        invariant overflow.nOverflows == old(overflow.nOverflows) + ClippedSoFar(state) - old(ClippedSoFar(state))
        invariant overflow.Value() == MetersSince(state, |old(state.done)|, old(overflow.Value()))
      {
        ghost var done, seen := state.done, state.seen;
        RunningSizes(state, n);
        var y := DitherOne(xs[n], imin, imax, overflow, state, n);
        MetersGrow(done, seen, state.done, state.seen, |old(state.done)|, old(overflow.Value()));
        ys := ys + [y];
      }
    }

    lemma RunningSizes(state: DitherState, n: nat)
      requires Running(state, n)
      ensures |state.seen| == |state.done| + 1
      ensures state.sd0 == Error(state.done, |state.done| - 1) && state.sd1 == Error(state.done, |state.done| - 2)
    {
    }

    lemma MetersGrow(done: seq<Done>, seen: seq<int>, done': seq<Done>, seen': seq<int>, from: nat, start: Meters)
      requires from <= |done| && |seen| == |done| + 1 && |done'| == |done| + 1 && done <= done' && seen <= seen'
      ensures MetersAfter(done', seen', from, |done'|, start)
           == MetersNext(MetersAfter(done, seen, from, |done|, start), done'[|done|],
                         Error(done, |done| - 1), Error(done, |done| - 2), seen', |done|)
    {
      MetersBefore(done, done', seen, seen', from, |done|, start);
    }

    /** The samples of a block whose window is chosen. */
    method DitherWindow(state: DitherState, xs: seq<real>, imin: int, imax: int, overflow: Overflow)
      returns (ys: seq<int>)
      requires Bytes() && 1 <= state.randtab && state.randtab + |xs| == state.randtabPtr <= randtab.Length
      requires 1 <= |xs| && imin < 0 <= imax && Remembers(state)
      requires OfTable(state.seen)
      requires state.seen != [] ==> randtab[state.randtab - 1] == state.seen[|state.seen| - 1]
      modifies overflow, state`sd0, state`sd1, state`seen, state`done
      ensures StateValid(state) && |ys| == |xs| && Saw(state, |xs|)
      ensures old(state.seen) <= state.seen && old(state.done) <= state.done
      ensures |state.seen| == |state.done| + 1
      ensures Records(state.done, |old(state.done)|, xs, ys, imin, imax)
      ensures Remembers(state)
      ensures overflow.nOverflows == old(overflow.nOverflows) + ClippedSoFar(state) - old(ClippedSoFar(state))
      ensures overflow.Value() == MetersSince(state, |old(state.done)|, old(overflow.Value()))
    {
      hide *;
      BeginSeeing(state);
      ys := DitherLoop(state, xs, imin, imax, overflow);
      BlockEnds(state, |xs|);
    }

    /** What a block adds up to, seen from the whole run. */
    lemma Totals(done: seq<Done>, seen: seq<int>, state: DitherState, start: Meters)
      requires Coherent(done, seen) && Remembers(state) && done <= state.done && seen <= state.seen
      ensures Calm(state) ==> ClippedSoFar(state) == Clipped(done, seen, |done|) == 0
      ensures start == MetersAfter(done, seen, 0, |done|, Meters(0, 0, 0.0)) ==>
                MetersSince(state, |done|, start) == RunMeters(state)
    {
      MetersGoOn(done, seen, state);
      hide *;
      if Calm(state) {
        CalmBlock(state, done, seen);
      }
    }

    /** A block of one channel. Whatever blocks of this and other channels came before, the channel's history goes
        on from where it was. */
    method DitherBlock(ch: nat, xs: seq<real>, imin: int, imax: int, overflow: Overflow) returns (ys: seq<int>)
      requires Valid() && ch < |states| && 1 <= |xs| < randtab.Length && imin < 0 <= imax
      modifies states[ch], randtab, overflow
      ensures Valid() && |ys| == |xs|
      ensures Window(states[ch], |xs|, old(states[ch].randtabPtr), old(randtab[..]), randtab[..])
      ensures Saw(states[ch], |xs|)
      ensures old(states[ch].seen) <= states[ch].seen && old(states[ch].done) <= states[ch].done
      ensures |states[ch].seen| == |states[ch].done| + 1
      ensures Records(states[ch].done, |old(states[ch].done)|, xs, ys, imin, imax)
      ensures overflow.nOverflows == old(overflow.nOverflows) +
              ClippedSoFar(states[ch]) - old(ClippedSoFar(states[ch]))
      ensures Calm(states[ch]) ==> overflow.nOverflows == old(overflow.nOverflows)
      ensures overflow.Value() == MetersSince(states[ch], |old(states[ch].done)|, old(overflow.Value()))
      ensures old(overflow.Value()) == old(RunMeters(states[ch])) ==> overflow.Value() == RunMeters(states[ch])
    {
      hide Quantised, Clipped, Records, Remembers, Calm, History, MetersAfter, OfTable, Saw, Window, Coherent,
        RunMeters, MetersSince, ClippedSoFar;
      ghost var done, seen, start := states[ch].done, states[ch].seen, overflow.Value();
      assert StateValid(states[ch]);
      BeginsCoherent(states[ch]);
      Preloop(states[ch], |xs|);
      ys := DitherWindow(states[ch], xs, imin, imax, overflow);
      Totals(done, seen, states[ch], start);
    }
  }
}
