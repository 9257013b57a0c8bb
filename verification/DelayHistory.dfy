/**
 What a delay line owes its caller over a whole run: every output sample is the input sample d earlier, where
 d may change between fragments.
 */
module DelayHistory {
  /** A stretch of the stream under one delay: it took effect at position start; cleared says whether the
      buffers held silence then. */
  datatype Epoch = Epoch(start: nat, delay: nat, cleared: bool)

  /** v is what must come out at position q: the input delay samples earlier once the epoch has seen it, and
      before that silence if the buffers were cleared. Otherwise v is a leftover of an earlier epoch. */
  predicate Owed(input: seq<int>, e: Epoch, q: int, v: int) {
    (q - e.delay >= e.start ==> q - e.delay < |input| && v == input[q - e.delay]) &&
    (q - e.delay < e.start && e.cleared ==> v == 0)
  }

  /** pending is what the epoch's buffers hold after input has gone in: the next samples to come out. */
  predicate Awaits(input: seq<int>, e: Epoch, pending: seq<int>) {
    e.start <= |input| && |pending| == e.delay &&
    forall j :: 0 <= j < |pending| ==> Owed(input, e, |input| + j, pending[j])
  }

  /** Where the k-th epoch ends. */
  function End(epochs: seq<Epoch>, len: nat, k: nat): int
    requires k < |epochs|
  {
    if k + 1 < |epochs| then epochs[k + 1].start else len
  }

  /** The whole run so far, all its epochs. */
  ghost predicate Faithful(input: seq<int>, output: seq<int>, epochs: seq<Epoch>) {
    |output| == |input| && |epochs| > 0 && epochs[0].start == 0 &&
    (forall k :: 0 <= k < |epochs| ==> epochs[k].start <= End(epochs, |input|, k) <= |input|) &&
    forall k, p :: 0 <= k < |epochs| && epochs[k].start <= p < End(epochs, |input|, k) ==>
                     Owed(input, epochs[k], p, output[p])
  }

  /** Passing a fragment through the queue gives what is owed and keeps the promise for what stays inside. */
  lemma QueueStep(input: seq<int>, e: Epoch, pending: seq<int>, fragment: seq<int>)
    requires Awaits(input, e, pending)
    ensures var total := pending + fragment;
            Awaits(input + fragment, e, total[|fragment|..]) &&
            forall i :: 0 <= i < |fragment| ==> Owed(input + fragment, e, |input| + i, total[i])
  {
  }

  /** The run grows by one fragment in its last epoch. */
  lemma RunGrows(input: seq<int>, output: seq<int>, epochs: seq<Epoch>, fragment: seq<int>, out: seq<int>)
    requires Faithful(input, output, epochs) && |out| == |fragment|
    requires forall i :: 0 <= i < |fragment| ==>
               Owed(input + fragment, epochs[|epochs| - 1], |input| + i, out[i])
    ensures Faithful(input + fragment, output + out, epochs)
  {
    var x, y := input + fragment, output + out;
    assert forall k :: 0 <= k < |epochs| ==> epochs[k].start <= End(epochs, |input|, k) <= |input|;
    forall k, p | 0 <= k < |epochs| && epochs[k].start <= p < End(epochs, |x|, k)
      ensures Owed(x, epochs[k], p, y[p])
    {
      if p < |input| {
        assert End(epochs, |x|, k) == End(epochs, |input|, k) || k == |epochs| - 1;
        assert Owed(input, epochs[k], p, output[p]);
      } else {
        assert y[p] == out[p - |input|];
        assert Owed(x, epochs[|epochs| - 1], |input| + (p - |input|), out[p - |input|]);
      }
    }
  }

  /** A new delay opens a new epoch at the present position. */
  lemma EpochOpens(input: seq<int>, output: seq<int>, epochs: seq<Epoch>, delay: nat, cleared: bool)
    requires Faithful(input, output, epochs)
    ensures Faithful(input, output, epochs + [Epoch(|input|, delay, cleared)])
  {
  }

  /** What it holds: silence if cleared, anything otherwise. */
  lemma FreshlyAwaits(input: seq<int>, delay: nat, cleared: bool, pending: seq<int>)
    requires |pending| == delay && (cleared ==> forall j :: 0 <= j < delay ==> pending[j] == 0)
    ensures Awaits(input, Epoch(|input|, delay, cleared), pending)
  {
  }

  /** So the output of an epoch is its input, moved later by the delay: before that comes what was in the buffers,
      silence if they were cleared. */
  lemma Delayed(input: seq<int>, output: seq<int>, epochs: seq<Epoch>, k: nat)
    requires Faithful(input, output, epochs) && k < |epochs|
    ensures var start, d, end := epochs[k].start, epochs[k].delay, End(epochs, |input|, k);
            0 <= start <= end <= |input| == |output| &&
            (start + d <= end ==> output[start + d..end] == input[start..end - d]) &&
            (epochs[k].cleared ==>
               forall p :: start <= p < end && p < start + d ==> output[p] == 0)
  {
    hide *;
    var e, end := epochs[k], End(epochs, |input|, k);
    EpochOwed(input, output, epochs, k);
    forall p | e.start <= p < end
      ensures e.start + e.delay <= p ==> output[p] == input[p - e.delay]
      ensures p < e.start + e.delay && e.cleared ==> output[p] == 0
    {
      OwedValue(input, e, p, output[p]);
    }
    if e.start + e.delay <= end {
      SameShifted(input, output, e.start, e.delay, end);
    }
  }

  lemma EpochOwed(input: seq<int>, output: seq<int>, epochs: seq<Epoch>, k: nat)
    requires Faithful(input, output, epochs) && k < |epochs|
    ensures epochs[k].start <= End(epochs, |input|, k) <= |input| == |output|
    ensures forall p :: epochs[k].start <= p < End(epochs, |input|, k) ==> Owed(input, epochs[k], p, output[p])
  {
  }

  lemma OwedValue(input: seq<int>, e: Epoch, p: int, v: int)
    requires Owed(input, e, p, v)
    ensures e.start + e.delay <= p ==> p - e.delay < |input| && v == input[p - e.delay]
    ensures p < e.start + e.delay && e.cleared ==> v == 0
  {
  }

  lemma SameShifted(x: seq<int>, y: seq<int>, start: nat, d: nat, end: nat)
    requires start + d <= end <= |x| && end <= |y|
    requires forall p :: start + d <= p < end ==> y[p] == x[p - d]
    ensures y[start + d..end] == x[start..end - d]
  {
    var later, before := y[start + d..end], x[start..end - d];
    forall i | 0 <= i < |later| ensures later[i] == before[i] {
      var p := start + d + i;
      assert y[p] == x[p - d];
    }
  }
}
