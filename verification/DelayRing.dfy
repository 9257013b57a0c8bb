/**
 The ring of a long delay as a queue: what waits in it, in the order it will come out.
 */
module DelayRing {
  function Flatten(blocks: seq<seq<int>>): (s: seq<int>) {
    if blocks == [] then [] else blocks[0] + Flatten(blocks[1..])
  }

  lemma {:induction false} FlattenAppend(blocks: seq<seq<int>>, last: seq<int>)
    ensures Flatten(blocks + [last]) == Flatten(blocks) + last
  {
    if blocks == [] {
      assert blocks + [last] == [last];
    } else {
      assert (blocks + [last])[1..] == blocks[1..] + [last];
      FlattenAppend(blocks[1..], last);
    }
  }

  /** count buffers of size samples. */
  function Area(count: int, size: int): int {
    count * size
  }

  lemma AreaStep(count: int, size: int)
    ensures Area(0, size) == 0 && Area(count, size) == size + Area(count - 1, size)
  {
  }

  ghost predicate AllSized(blocks: seq<seq<int>>, size: nat) {
    forall i :: 0 <= i < |blocks| ==> |blocks[i]| == size
  }

  lemma {:induction false} FlattenLength(blocks: seq<seq<int>>, size: nat)
    requires AllSized(blocks, size)
    ensures |Flatten(blocks)| == Area(|blocks|, size)
  {
    hide Area;
    AreaStep(|blocks|, size);
    if blocks != [] {
      FlattenLength(blocks[1..], size);
    }
  }

  lemma {:induction false} FlattenAt(blocks: seq<seq<int>>, size: nat, i: nat, j: nat)
    requires AllSized(blocks, size) && i < |blocks| && j < size
    ensures 0 <= Area(i, size) + j < |Flatten(blocks)| && Flatten(blocks)[Area(i, size) + j] == blocks[i][j]
  {
    FlattenLength(blocks[1..], size);
    hide Area;
    AreaStep(i, size);
    assert |blocks[0]| == size;
    if i > 0 {
      FlattenAt(blocks[1..], size, i - 1, j);
    }
  }

  predicate Silent(s: seq<int>) {
    forall i :: 0 <= i < |s| ==> s[i] == 0
  }

  ghost predicate AllSilent(blocks: seq<seq<int>>) {
    forall i :: 0 <= i < |blocks| ==> Silent(blocks[i])
  }

  lemma {:induction false} FlattenSilent(blocks: seq<seq<int>>)
    requires AllSilent(blocks)
    ensures Silent(Flatten(blocks))
  {
    if blocks != [] {
      FlattenSilent(blocks[1..]);
      assert Silent(blocks[0]);
    }
  }

  /** The buffer after the current one. */
  function Next(cur: nat, n: nat): (k: nat)
    requires cur < n
    ensures k < n
  {
    if cur == n - 1 then 0 else cur + 1
  }

  /** What waits in a ring of full buffers and a rest: the rest, then the buffers from the one after the
      current on, the current one excepted. */
  function Queue(ring: seq<seq<int>>, cur: nat, rest: seq<int>): (q: seq<int>)
    requires cur < |ring|
  {
    rest + Flatten(ring[cur + 1..] + ring[..cur])
  }

  lemma QueueLength(ring: seq<seq<int>>, cur: nat, rest: seq<int>, size: nat)
    requires cur < |ring| && AllSized(ring, size)
    ensures |Queue(ring, cur, rest)| == |rest| + Area(|ring| - 1, size)
  {
    var blocks := ring[cur + 1..] + ring[..cur];
    assert |blocks| == |ring| - 1;
    FlattenLength(blocks, size);
  }

  lemma QueueSilent(ring: seq<seq<int>>, cur: nat, rest: seq<int>)
    requires cur < |ring| && Silent(rest) && AllSilent(ring)
    ensures Silent(Queue(ring, cur, rest))
  {
    FlattenSilent(ring[cur + 1..] + ring[..cur]);
  }

  /** One turn: a fragment goes into the current buffer; the rest and the start of the next buffer come out;
      the end of that buffer is the new rest. */
  lemma RingTurns(ring: seq<seq<int>>, cur: nat, rest: seq<int>, fragment: seq<int>)
    requires |ring| >= 2 && cur < |ring| && |rest| <= |fragment|
    requires |ring[Next(cur, |ring|)]| == |fragment|
    ensures var last, split := ring[Next(cur, |ring|)], |fragment| - |rest|;
            var total := Queue(ring, cur, rest) + fragment;
            |total| >= |fragment| && total[..|fragment|] == rest + last[..split] &&
            total[|fragment|..] == Queue(ring[cur := fragment], Next(cur, |ring|), last[split..])
  {
    var next := Next(cur, |ring|);
    var last, split := ring[next], |fragment| - |rest|;
    var waiting := ring[cur + 1..] + ring[..cur];
    TurnedBlocks(ring, cur, fragment);
    assert Flatten(waiting) == last + Flatten(waiting[1..]);
    FlattenAppend(waiting[1..], fragment);
    hide Flatten, Next;
    TurnedSamples(rest, last, split, Flatten(waiting[1..]), fragment);
  }

  /** The buffer after the current one was first in line; the current one is last now. */
  lemma TurnedBlocks(ring: seq<seq<int>>, cur: nat, fragment: seq<int>)
    requires |ring| >= 2 && cur < |ring|
    ensures var waiting, next, after := ring[cur + 1..] + ring[..cur], Next(cur, |ring|), ring[cur := fragment];
            |waiting| > 0 && waiting[0] == ring[next] &&
            after[next + 1..] + after[..next] == waiting[1..] + [fragment]
  {
    var after, waiting := ring[cur := fragment], ring[cur + 1..] + ring[..cur];
    if cur == |ring| - 1 {
      assert waiting[1..] == ring[1..cur];
      assert after[1..] + after[..0] == ring[1..cur] + [fragment];
    } else {
      assert waiting[1..] == ring[cur + 2..] + ring[..cur];
    }
  }

  lemma TurnedSamples(rest: seq<int>, last: seq<int>, split: nat, others: seq<int>, fragment: seq<int>)
    requires |last| == |fragment| && split == |fragment| - |rest|
    ensures var total := rest + (last + others) + fragment;
            total[..|fragment|] == rest + last[..split] &&
            total[|fragment|..] == last[split..] + (others + fragment)
  {
    assert rest + (last + others) + fragment == (rest + last[..split]) + (last[split..] + (others + fragment));
  }
}
