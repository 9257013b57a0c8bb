/**
 How the one allocation of the filter engine is cut into convolver buffers. Positions count in units of
 one convolver buffer.
 */
module BufferLayout {
  import opened Arithmetic

  /** The buffers of the engine: per channel n a ring of spectra, an accumulator, two time buffers, an
      input and an output spectrum. */
  datatype Ref = Ring(n: nat, i: nat) | Accumulator(n: nat) | Time(n: nat, b: nat) | InFreq(n: nat) | OutFreq(n: nat) {
    predicate InUse(channels: nat, blocks: nat) {
      n < channels && (Ring? ==> i < blocks) && (Time? ==> b < 2)
    }
  }

  /** Where the time and spectrum buffers start. */
  function Base(channels: nat, blocks: nat): nat {
    if blocks > 1 then channels * (blocks + 1) else channels
  }

  /** The size of the allocation. */
  function Total(channels: nat, blocks: nat): nat {
    Base(channels, blocks) + 4 * channels
  }

  function Slot(r: Ref, channels: nat, blocks: nat): nat {
    match r
    case Ring(n, i) => if blocks > 1 then n * (blocks + 1) + i else n
    case Accumulator(n) => if blocks > 1 then n * (blocks + 1) + blocks else n
    case Time(n, b) => Base(channels, blocks) + 4 * n + b
    case InFreq(n) => Base(channels, blocks) + 4 * n + 2
    case OutFreq(n) => Base(channels, blocks) + 4 * n + 3
  }

  /** The one intended overlap: with a single block a channel's ring is its accumulator. */
  predicate Shared(r: Ref, s: Ref, blocks: nat) {
    blocks == 1 && r.n == s.n && (r.Ring? || r.Accumulator?) && (s.Ring? || s.Accumulator?)
  }

  lemma RingInside(n: nat, i: nat, channels: nat, blocks: nat)
    requires n < channels && i <= blocks
    ensures n * (blocks + 1) + i < channels * (blocks + 1)
  {
    RowInside(n, channels, blocks + 1);
  }

  lemma SlotInside(r: Ref, channels: nat, blocks: nat)
    requires blocks > 0 && r.InUse(channels, blocks)
    ensures Slot(r, channels, blocks) < Total(channels, blocks)
    ensures r.Ring? || r.Accumulator? <==> Slot(r, channels, blocks) < Base(channels, blocks)
  {
    RingInside(r.n, if r.Ring? then r.i else blocks, channels, blocks);
  }

  /** Buffers never overlap, except as intended. */
  lemma SlotsDisjoint(r: Ref, s: Ref, channels: nat, blocks: nat)
    requires blocks > 0 && r.InUse(channels, blocks) && s.InUse(channels, blocks)
    requires Slot(r, channels, blocks) == Slot(s, channels, blocks)
    ensures r == s || Shared(r, s, blocks)
  {
    SlotInside(r, channels, blocks);
    SlotInside(s, channels, blocks);
    if (r.Ring? || r.Accumulator?) && blocks > 1 {
      if r.n < s.n {
        RowInside(r.n, s.n, blocks + 1);
      } else if s.n < r.n {
        RowInside(s.n, r.n, blocks + 1);
      }
    }
  }

  /** Every unit of the allocation belongs to a buffer: nothing is left over. */
  lemma SlotsFill(k: nat, channels: nat, blocks: nat) returns (r: Ref)
    requires blocks > 0 && k < Total(channels, blocks)
    ensures r.InUse(channels, blocks) && Slot(r, channels, blocks) == k
  {
    var base := Base(channels, blocks);
    if k >= base {
      var n, q := (k - base) / 4, (k - base) % 4;
      r := if q < 2 then Time(n, q) else if q == 2 then InFreq(n) else OutFreq(n);
    } else if blocks > 1 {
      var w := blocks + 1;
      var n, i := k / w, k % w;
      assert k == n * w + i;
      if n >= channels {
        RowsUpTo(channels, n, w);
        assert false;
      }
      r := if i < blocks then Ring(n, i) else Accumulator(n);
    } else {
      r := Ring(k, 0);
    }
  }

  datatype Tables = Tables(ring: seq<seq<nat>>, accumulator: seq<nat>, time: seq<seq<nat>>,
                           inFreq: seq<nat>, outFreq: seq<nat>)

  predicate Placed(t: Tables, channels: nat, blocks: nat) {
    && |t.ring| == |t.accumulator| == |t.time| == |t.inFreq| == |t.outFreq| == channels
    && (forall n :: 0 <= n < channels ==>
          && |t.ring[n]| == blocks && |t.time[n]| == 2
          && t.accumulator[n] == Slot(Accumulator(n), channels, blocks)
          && t.inFreq[n] == Slot(InFreq(n), channels, blocks)
          && t.outFreq[n] == Slot(OutFreq(n), channels, blocks))
    && (forall n, i :: 0 <= n < channels && 0 <= i < blocks ==> t.ring[n][i] == Slot(Ring(n, i), channels, blocks))
    && (forall n, b :: 0 <= n < channels && 0 <= b < 2 ==> t.time[n][b] == Slot(Time(n, b), channels, blocks))
  }

  /** Rings and accumulators of a partitioned filter. */
  method PlaceRings(channels: nat, blocks: nat)
    returns (ring: seq<seq<nat>>, accumulator: seq<nat>, memptr: nat)
    requires blocks > 1
    ensures |ring| == |accumulator| == channels && memptr == channels * (blocks + 1)
    ensures forall m :: 0 <= m < channels ==> |ring[m]| == blocks
    ensures forall m :: 0 <= m < channels ==> accumulator[m] == m * (blocks + 1) + blocks
    ensures forall m, i :: 0 <= m < channels && 0 <= i < blocks ==> ring[m][i] == m * (blocks + 1) + i
  {
    ring, accumulator, memptr := [], [], 0;
    for n := 0 to channels
      invariant |ring| == |accumulator| == n && memptr == n * (blocks + 1)
      invariant forall m :: 0 <= m < n ==> |ring[m]| == blocks
      invariant forall m :: 0 <= m < n ==> accumulator[m] == m * (blocks + 1) + blocks
      invariant forall m, i :: 0 <= m < n && 0 <= i < blocks ==> ring[m][i] == m * (blocks + 1) + i
    {
      ghost var start := memptr;
      var row: seq<nat> := [];
      for i := 0 to blocks
        invariant |row| == i && memptr == start + i
        invariant forall j :: 0 <= j < i ==> row[j] == start + j
      {
        row := row + [memptr];
        memptr := memptr + 1;
      }
      NextRow(n, blocks + 1);
      ring := ring + [row];
      accumulator := accumulator + [memptr];
      memptr := memptr + 1;
    }
  }

  /** Time buffers and spectra, from the running pointer on. */
  method PlaceRest(channels: nat, start: nat)
    returns (time: seq<seq<nat>>, inFreq: seq<nat>, outFreq: seq<nat>, memptr: nat)
    ensures |time| == |inFreq| == |outFreq| == channels && memptr == start + 4 * channels
    ensures forall m :: 0 <= m < channels ==> time[m] == [start + 4 * m, start + 4 * m + 1]
    ensures forall m :: 0 <= m < channels ==> inFreq[m] == start + 4 * m + 2
    ensures forall m :: 0 <= m < channels ==> outFreq[m] == start + 4 * m + 3
  {
    time, inFreq, outFreq, memptr := [], [], [], start;
    for n := 0 to channels
      invariant |time| == |inFreq| == |outFreq| == n && memptr == start + 4 * n
      invariant forall m :: 0 <= m < n ==> time[m] == [start + 4 * m, start + 4 * m + 1]
      invariant forall m :: 0 <= m < n ==> inFreq[m] == start + 4 * m + 2
      invariant forall m :: 0 <= m < n ==> outFreq[m] == start + 4 * m + 3
    {
      time := time + [[memptr, memptr + 1]];
      memptr := memptr + 2;
      inFreq := inFreq + [memptr];
      memptr := memptr + 1;
      outFreq := outFreq + [memptr];
      memptr := memptr + 1;
    }
  }

  /** Accumulators alone: with a single block they are the rings as well. */
  method PlaceShared(channels: nat) returns (ring: seq<seq<nat>>, accumulator: seq<nat>, memptr: nat)
    ensures |ring| == |accumulator| == channels == memptr
    ensures forall m :: 0 <= m < channels ==> ring[m] == [m] && accumulator[m] == m
  {
    ring, accumulator, memptr := [], [], 0;
    for n := 0 to channels
      invariant |ring| == |accumulator| == n == memptr
      invariant forall m :: 0 <= m < n ==> ring[m] == [m] && accumulator[m] == m
    {
      ring := ring + [[memptr]];
      accumulator := accumulator + [memptr];
      memptr := memptr + 1;
    }
  }

  /** Rings and accumulators, shared or not. */
  method PlaceFilters(channels: nat, blocks: nat) returns (ring: seq<seq<nat>>, accumulator: seq<nat>, memptr: nat)
    requires blocks > 0
    ensures |ring| == |accumulator| == channels && memptr == Base(channels, blocks)
    ensures forall n :: 0 <= n < channels ==> |ring[n]| == blocks
    ensures forall n :: 0 <= n < channels ==> accumulator[n] == Slot(Accumulator(n), channels, blocks)
    ensures forall n, i :: 0 <= n < channels && 0 <= i < blocks ==> ring[n][i] == Slot(Ring(n, i), channels, blocks)
  {
    if blocks > 1 {
      ring, accumulator, memptr := PlaceRings(channels, blocks);
    } else {
      ring, accumulator, memptr := PlaceShared(channels);
    }
  }

  lemma MemSize(channels: nat, blocks: nat)
    requires blocks > 0
    ensures Total(channels, blocks) ==
            channels + 2 * channels + channels + channels + if blocks > 1 then channels * blocks else 0
  {
    assert channels * (blocks + 1) == channels * blocks + channels;
  }

  /** Carving the allocation: one running pointer hands out the buffers in turn and ends at the allocated size. */
  method InitBuffers(channels: nat, blocks: nat) returns (t: Tables, memsize: nat, ghost memptr: nat)
    requires channels > 0 && blocks > 0
    ensures Placed(t, channels, blocks)
    ensures memsize == Total(channels, blocks) == memptr
  {
    memsize := channels + 2 * channels + channels + channels;
    if blocks > 1 {
      memsize := memsize + channels * blocks;
    }
    MemSize(channels, blocks);
    hide Base;
    var ring, accumulator, rest := PlaceFilters(channels, blocks);
    var time, inFreq, outFreq, end := PlaceRest(channels, rest);
    t, memptr := Tables(ring, accumulator, time, inFreq, outFreq), end;
  }
}
