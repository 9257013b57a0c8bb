/**
 One block of one channel through the partitioned filter: the body of the engine's channel loop.
 */
module ChannelStep {
  import opened Arithmetic
  import opened Sums
  import opened HalfComplex
  import opened PackedLayout
  import opened Fir
  import opened OverlapSave
  import opened MixNScale
  import opened Interleave
  import Convolver

  /** Block t - 1 of x, silent before x starts. */
  function Previous(x: seq<real>, len: nat, t: int): (b: seq<real>)
    ensures |b| == len
  {
    seq(len, i => At(x, (t - 1) * len + i))
  }

  lemma FrameAt(x: seq<real>, len: nat, b: int, i: nat)
    requires i < 2 * len
    ensures Frame(x, len, b)[i] == At(x, b * len - len + i)
    ensures i < len ==> Previous(x, len, b)[i] == At(x, b * len - len + i)
  {
  }

  /** With history x of t whole blocks, the frame of block t is the previous block and the new one. */
  lemma FrameIsPreviousAndCurrent(x: seq<real>, cur: seq<real>, len: nat, t: nat)
    requires |x| == t * len && |cur| == len
    ensures Frame(x + cur, len, t) == Previous(x, len, t) + cur
    ensures Previous(x + cur, len, t + 1) == cur
    ensures |x + cur| == (t + 1) * len
  {
    assert (t + 1) * len == t * len + len;
    forall i | 0 <= i < 2 * len
      ensures Frame(x + cur, len, t)[i] == (Previous(x, len, t) + cur)[i]
      ensures i < len ==> Previous(x + cur, len, t + 1)[i] == cur[i]
    {
      FrameAt(x + cur, len, t, i);
      FrameAt(x, len, t, i);
      FrameAt(x + cur, len, t + 1, i);
    }
  }

  /** Frames of earlier blocks do not change when the signal grows. */
  lemma EarlierFrames(x: seq<real>, cur: seq<real>, len: nat, t: nat, b: nat)
    requires |x| == t * len && b < t
    ensures Frame(x + cur, len, b) == Frame(x, len, b)
  {
    RowInside(b, t, len);
    forall i | 0 <= i < 2 * len ensures Frame(x + cur, len, b)[i] == Frame(x, len, b)[i] {
      FrameAt(x + cur, len, b, i);
      FrameAt(x, len, b, i);
    }
  }

  /** Blocks less than a full turn apart sit in different ring slots. */
  lemma DifferentSlots(b: int, t: int, size: nat)
    requires size > 0 && t - size < b < t
    ensures b % size != t % size
  {
    if b % size == t % size {
      assert t - b == size * (t / size - b / size);
      SmallMultiple(size, t - b, t / size - b / size);
    }
  }

  /** A configured filter. */
  datatype Plan = Plan(table: Table, len: nat, nBlocks: nat, inScale: real, outScale: real) {
    ghost predicate Valid() {
      table.Valid() && len > 0 && table.n == 2 * len && Packable(2 * len) && nBlocks > 0
    }
  }

  /** What a channel's buffers hold after t blocks x: the last block, and in slot b mod nBlocks the packed
      spectrum of each block b still in reach. A single-block filter keeps no ring. */
  ghost predicate Remembers(p: Plan, time: array<real>, ring: seq<array<real>>, x: seq<real>, t: nat)
    requires p.nBlocks > 0 && |ring| == p.nBlocks
    reads time, if p.nBlocks > 1 then ring else []
  {
    && |x| == t * p.len
    && time.Length == 2 * p.len
    && time[..p.len] == Previous(x, p.len, t)
    && (p.nBlocks > 1 ==>
          forall b :: 0 <= b < t && t - p.nBlocks <= b ==>
            ring[b % p.nBlocks][..] == InputSpectrum(p.table, x, p.len, b, p.inScale))
  }

  /** The buffers of one channel, as the engine lays them out. */
  datatype Buffers = Buffers(time: array<real>, nextTime: array<real>, inFreq: array<real>, outFreq: array<real>,
                             ring: seq<array<real>>, accumulator: array<real>, scratch: array<real>) {

    /** Everything is apart, but for what the layout shares: a single-block ring is the accumulator, and
        the scratch buffer is some channel's accumulator. */
    ghost predicate Apart(p: Plan) {
      && |ring| == p.nBlocks
      && (forall a :: a in {time, nextTime, inFreq, outFreq, accumulator, scratch} ==> a.Length == 2 * p.len)
      && (forall i :: 0 <= i < |ring| ==> ring[i].Length == 2 * p.len)
      && time != nextTime && time != inFreq && time != outFreq && nextTime != inFreq && nextTime != outFreq
      && inFreq != outFreq
      && accumulator !in {time, nextTime, inFreq, outFreq}
      && scratch !in {time, nextTime, inFreq, outFreq}
      && (forall i :: 0 <= i < |ring| ==> ring[i] !in {time, nextTime, inFreq, outFreq})
      && (p.nBlocks == 1 ==> ring[0] == accumulator)
      && (p.nBlocks > 1 ==> forall i :: 0 <= i < |ring| ==> ring[i] != accumulator && ring[i] != scratch)
      && (forall i, j :: 0 <= i < j < |ring| ==> ring[i] != ring[j])
    }
  }

  /** How many partitions take part: the fewer of those loaded and those there is room for. */
  function Partitions(stored: nat, nBlocks: nat): (k: nat)
    ensures k <= stored && k <= nBlocks && (k == stored || k == nBlocks)
  {
    if stored < nBlocks then stored else nBlocks
  }

  /** The taps that take part: partitions beyond the ring are dropped. */
  function Effective(h: seq<real>, len: nat, k: nat): (e: seq<real>) {
    if k * len <= |h| then h[..k * len] else h
  }

  /** The accumulated spectrum after the partitions processed so far already gives the whole filter. */
  lemma ProcessedIsEnough(p: Plan, x: seq<real>, t: nat, h: seq<real>, m: nat, k: nat, u: nat)
    requires p.Valid() && 0 < m <= k && k * p.len <= |h| && u < p.len
    requires m == k || m == t + 1
    ensures m * p.len <= |h|
    ensures TimeSample(p.table, Accumulated(p.table, x, p.len, t, p.inScale, h, m), u)
         == p.inScale * Response(Effective(h, p.len, k), x, t * p.len + u)
  {
    hide TimeSample, Accumulated, Response;
    RowsUpTo(m, k, p.len);
    AccumulatedResponse(p.table, x, p.len, t, p.inScale, h, m, u);
    var e := Effective(h, p.len, k);
    assert e[..m * p.len] == h[..m * p.len];
    if m < k {
      assert (t + 1) * p.len == t * p.len + p.len;
      EarlyTaps(e, m * p.len, x, t * p.len + u);
    } else {
      assert e[..m * p.len] == e;
    }
  }

  /** Multiplying and accumulating the partitions processed so far. */
  method AccumulatePartitions(p: Plan, bufs: Buffers, t: nat, processed: nat, data: seq<seq<real>>,
                              ghost x: seq<real>, ghost h: seq<real>) returns (ghost m: nat)
    requires p.Valid() && bufs.Apart(p)
    requires processed == if t + 1 < p.nBlocks then t + 1 else p.nBlocks
    requires |data| > 0 && |data| * p.len == |h|
    requires forall i :: 0 <= i < |data| ==> HoldsPart(p.table, data[i], h, p.len, i)
    requires bufs.ring[t % p.nBlocks][..] == InputSpectrum(p.table, x, p.len, t, p.inScale)
    requires p.nBlocks > 1 ==>
               forall b :: 0 <= b <= t && t - p.nBlocks < b ==>
                 bufs.ring[b % p.nBlocks][..] == InputSpectrum(p.table, x, p.len, b, p.inScale)
    modifies bufs.accumulator
    ensures m == Partitions(|data|, processed) && 0 < m && m * p.len <= |h|
    ensures bufs.accumulator[..] == Accumulated(p.table, x, p.len, t, p.inScale, h, m)
    ensures p.nBlocks > 1 ==> forall i :: 0 <= i < |bufs.ring| ==> bufs.ring[i][..] == old(bufs.ring[i][..])
  {
    hide TapSpectrum, InputSpectrum, PackedProduct, Part, At, Response;
    var curblock := t % p.nBlocks;
    AccumulatedFirst(p, x, t, h, data[0]);
    if p.nBlocks == 1 {
      Convolver.ConvolveInplace(bufs.ring[0], data[0]);
      m := 1;
    } else {
      Convolver.Convolve(bufs.ring[curblock], data[0], bufs.accumulator);
      var i := 1;
      while i < |data| && i < processed
        invariant 1 <= i <= |data| && i <= processed
        invariant i * p.len <= |h|
        invariant bufs.accumulator[..] == Accumulated(p.table, x, p.len, t, p.inScale, h, i)
        invariant forall j :: 0 <= j < |bufs.ring| ==> bufs.ring[j][..] == old(bufs.ring[j][..])
      {
        var convblock := (t - i) % p.nBlocks;
        AccumulatedNext(p, x, t, h, data[i], i);
        Convolver.ConvolveAdd(bufs.ring[convblock], data[i], bufs.accumulator);
        i := i + 1;
      }
      m := i;
    }
  }

  lemma AccumulatedFirst(p: Plan, x: seq<real>, t: nat, h: seq<real>, block: seq<real>)
    requires p.Valid() && HoldsPart(p.table, block, h, p.len, 0)
    ensures |block| == 2 * p.len && 1 * p.len <= |h|
    ensures Accumulated(p.table, x, p.len, t, p.inScale, h, 1)
         == PackedProduct(InputSpectrum(p.table, x, p.len, t, p.inScale), block)
  {
  }

  lemma AccumulatedNext(p: Plan, x: seq<real>, t: nat, h: seq<real>, block: seq<real>, i: nat)
    requires p.Valid() && i > 0 && i * p.len <= |h| && HoldsPart(p.table, block, h, p.len, i)
    ensures |block| == 2 * p.len && (i + 1) * p.len <= |h|
    ensures Accumulated(p.table, x, p.len, t, p.inScale, h, i + 1)
         == Added(Accumulated(p.table, x, p.len, t, p.inScale, h, i),
                  PackedProduct(InputSpectrum(p.table, x, p.len, t - i, p.inScale), block))
  {
    hide TapSpectrum, InputSpectrum, PackedProduct;
  }

  /** The input side: the new block joins the previous one, and their spectrum enters the ring. */
  method TakeBlock(p: Plan, bufs: Buffers, raw: array<real>, n: nat, channels: nat, t: nat, ghost x: seq<real>)
    requires p.Valid() && bufs.Apart(p) && n < channels && raw.Length == p.len * channels
    requires raw != bufs.time && raw != bufs.nextTime
    requires Remembers(p, bufs.time, bufs.ring, x, t)
    modifies bufs.time, bufs.nextTime, bufs.inFreq, bufs.ring[t % p.nBlocks]
    ensures var x' := x + Channel(old(raw[..]), n, channels);
            && |x'| == (t + 1) * p.len
            && bufs.nextTime[..p.len] == Previous(x', p.len, t + 1)
            && bufs.ring[t % p.nBlocks][..] == InputSpectrum(p.table, x', p.len, t, p.inScale)
            && (p.nBlocks > 1 ==>
                  forall b :: 0 <= b <= t && t - p.nBlocks < b ==>
                    bufs.ring[b % p.nBlocks][..] == InputSpectrum(p.table, x', p.len, b, p.inScale))
  {
    hide R2HC, Pack, Scaled, Mixed, Frame, Previous, At, Channel;
    ghost var cur := Channel(raw[..], n, channels);
    assert |cur| == p.len by {
      FramesOf(p.len, channels);
    }
    FrameIsPreviousAndCurrent(x, cur, p.len, t);
    Raw2Cbuf(raw, bufs.time, bufs.nextTime, n, channels, p.len);
    Convolver.Time2Freq(p.table, bufs.time, bufs.inFreq);
    ghost var spectrum := bufs.inFreq[..];
    MixOne(spectrum, p.inScale);
    assert Contents([bufs.inFreq]) == [spectrum];
    var curblock := t % p.nBlocks;
    var _ := MixInput([bufs.inFreq], bufs.ring[curblock], [p.inScale]);
    if p.nBlocks > 1 {
      forall b | 0 <= b < t && t - p.nBlocks < b
        ensures bufs.ring[b % p.nBlocks][..] == InputSpectrum(p.table, x + cur, p.len, b, p.inScale)
      {
        DifferentSlots(b, t, p.nBlocks);
        EarlierFrames(x, cur, p.len, t, b);
      }
    }
  }

  /** What the filter makes of signal x at time q. */
  function Filtered(p: Plan, h: seq<real>, stored: nat, x: seq<real>, q: int): real {
    p.outScale * (p.inScale * Response(Effective(h, p.len, Partitions(stored, p.nBlocks)), x, q))
  }

  /** The output side: scaling, unpacking and transforming the accumulated spectrum. */
  method EmitBlock(p: Plan, bufs: Buffers, t: nat, ghost x: seq<real>, ghost h: seq<real>,
                   ghost m: nat, ghost stored: nat)
    requires p.Valid() && bufs.Apart(p)
    requires stored * p.len == |h| && 0 < m <= Partitions(stored, p.nBlocks) && m * p.len <= |h|
    requires m == Partitions(stored, p.nBlocks) || m == t + 1
    requires bufs.accumulator[..] == Accumulated(p.table, x, p.len, t, p.inScale, h, m)
    modifies bufs.outFreq, bufs.scratch
    ensures forall u :: 0 <= u < p.len ==> bufs.scratch[u] == Filtered(p, h, stored, x, t * p.len + u)
  {
    hide HC2R, Unpack, Scaled, Mixed, Accumulated, Response, TimeSample;
    ghost var total := bufs.accumulator[..];
    assert Contents([bufs.accumulator]) == [total];
    MixOne(total, p.outScale);
    PackLinear(total, total, p.outScale);
    var _ := MixOutput([bufs.accumulator], bufs.outFreq, [p.outScale]);
    Convolver.Freq2Time(p.table, bufs.outFreq, bufs.scratch);
    forall u: nat | u < p.len ensures bufs.scratch[u] == Filtered(p, h, stored, x, t * p.len + u) {
      RowsUpTo(Partitions(stored, p.nBlocks), stored, p.len);
      ProcessedIsEnough(p, x, t, h, m, Partitions(stored, p.nBlocks), u);
      TimeSampleScaled(p.table, total, p.outScale, u);
    }
  }

  /** One channel's pass through the engine's loop: read, transform, multiply, transform back, write. */
  method ProcessChannel(p: Plan, bufs: Buffers, raw: array<real>, out: array<real>, n: nat, channels: nat,
                        t: nat, procblocks: nat, data: seq<seq<real>>, ghost x: seq<real>, ghost h: seq<real>)
    returns (processed: nat)
    requires p.Valid() && bufs.Apart(p) && n < channels && raw.Length == out.Length == p.len * channels
    requires raw !in {bufs.time, bufs.nextTime}
    requires out !in {bufs.time, bufs.nextTime, bufs.inFreq, bufs.outFreq, bufs.accumulator, bufs.scratch}
    requires forall i :: 0 <= i < |bufs.ring| ==> bufs.ring[i] != out
    requires Remembers(p, bufs.time, bufs.ring, x, t)
    requires procblocks == if t < p.nBlocks then t else p.nBlocks
    requires |data| > 0 && |data| * p.len == |h|
    requires forall i :: 0 <= i < |data| ==> HoldsPart(p.table, data[i], h, p.len, i)
    modifies bufs.time, bufs.nextTime, bufs.inFreq, bufs.outFreq, bufs.accumulator, bufs.scratch
    modifies bufs.ring[t % p.nBlocks], out
    ensures processed == if t + 1 < p.nBlocks then t + 1 else p.nBlocks
    ensures var x' := x + Channel(old(raw[..]), n, channels);
            && Remembers(p, bufs.nextTime, bufs.ring, x', t + 1)
            && forall u :: 0 <= u < p.len ==>
                 0 <= Position(n, u, channels) < out.Length &&
                 out[Position(n, u, channels)] == Filtered(p, h, |data|, x', t * p.len + u)
    ensures forall q :: 0 <= q < out.Length && q % channels != n ==> out[q] == old(out[q])
  {
    hide Filtered, InputSpectrum, Previous, HoldsPart, Channel, Accumulated;
    ghost var x' := x + Channel(raw[..], n, channels);
    TakeBlock(p, bufs, raw, n, channels, t, x);
    processed := procblocks;
    if processed < p.nBlocks {
      processed := processed + 1;
    }
    ghost var m := AccumulatePartitions(p, bufs, t, processed, data, x', h);
    EmitBlock(p, bufs, t, x', h, m, |data|);
    Cbuf2Raw(bufs.scratch, out, n, channels, p.len);
  }
}
