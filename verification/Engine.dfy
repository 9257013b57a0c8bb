/**
 The filter engine: all channels' buffers carved from one allocation, coefficients that may be swapped
 between blocks, and one block of every channel per call.
 */
module Engine {
  import opened Sums
  import opened OverlapSave
  import opened Interleave
  import opened BufferLayout
  import opened Coefficients
  import opened ChannelStep

  /** A coefficient buffer the caller may have failed to load. */
  datatype Loaded = Missing | Samples(s: seq<real>)

  /** count zeroed buffers of one convolver size. */
  method Allocate(count: nat, size: nat) returns (mem: seq<array<real>>)
    ensures |mem| == count
    ensures forall i :: 0 <= i < count ==> fresh(mem[i]) && mem[i].Length == size
    ensures forall i :: 0 <= i < count ==> forall k :: 0 <= k < size ==> mem[i][k] == 0.0
    ensures forall i, j :: 0 <= i < j < count ==> mem[i] != mem[j]
  {
    mem := [];
    for n := 0 to count
      invariant |mem| == n
      invariant forall i :: 0 <= i < n ==> fresh(mem[i]) && mem[i].Length == size
      invariant forall i :: 0 <= i < n ==> forall k :: 0 <= k < size ==> mem[i][k] == 0.0
      invariant forall i, j :: 0 <= i < j < n ==> mem[i] != mem[j]
    {
      var a := new real[size](_ => 0.0);
      mem := mem + [a];
    }
  }

  class BruteFir {
    const plan: Plan
    const nChannels: nat
    const cbuf: seq<seq<array<real>>>
    const ocbuf: seq<array<real>>
    const inputTime: seq<seq<array<real>>>
    const inputFreq: seq<array<real>>
    const outputFreq: seq<array<real>>
    ghost const repr: set<array<real>>

    var curbuf: nat
    var blockcounter: nat
    var procblocks: seq<nat>
    var coeffs: seq<seq<seq<real>>>
    var initialized: bool

    /** Per channel, everything ever fed in and the taps now loaded. */
    ghost var inputs: seq<seq<real>>
    ghost var taps: seq<seq<real>>

    ghost predicate Shaped() {
      && nChannels > 0 && plan.Valid()
      && |cbuf| == |ocbuf| == |inputTime| == |inputFreq| == |outputFreq| == nChannels
      && (forall n :: 0 <= n < nChannels ==> |cbuf[n]| == plan.nBlocks && |inputTime[n]| == 2)
    }

    ghost function Buf(r: Ref): array<real>
      requires Shaped() && r.InUse(nChannels, plan.nBlocks)
    {
      match r
      case Ring(n, i) => cbuf[n][i]
      case Accumulator(n) => ocbuf[n]
      case Time(n, b) => inputTime[n][b]
      case InFreq(n) => inputFreq[n]
      case OutFreq(n) => outputFreq[n]
    }

    /** The buffers are apart, except that a single-block ring is its channel's accumulator. */
    ghost predicate Laid() {
      && Shaped()
      && (forall r: Ref :: r.InUse(nChannels, plan.nBlocks) ==> Buf(r) in repr && Buf(r).Length == 2 * plan.len)
      && (forall r: Ref, s: Ref ::
            r.InUse(nChannels, plan.nBlocks) && s.InUse(nChannels, plan.nBlocks) && Buf(r) == Buf(s) ==>
              r == s || Shared(r, s, plan.nBlocks))
      && (plan.nBlocks == 1 ==> forall n :: 0 <= n < nChannels ==> cbuf[n][0] == ocbuf[n])
      && (forall n, b :: 0 <= n < nChannels && 0 <= b < 2 ==> inputTime[n][b] in repr)
      && (forall n, i :: 0 <= n < nChannels && 0 <= i < plan.nBlocks ==> cbuf[n][i] in repr)
    }

    /** The buffers channel n works on while `cur` is the current time buffer. */
    function BuffersOf(n: nat, cur: nat): (b: Buffers)
      requires |cbuf| == |ocbuf| == |inputTime| == |inputFreq| == |outputFreq| == nChannels
      requires n < nChannels && |inputTime[n]| == 2 && cur < 2
    {
      Buffers(inputTime[n][cur], inputTime[n][1 - cur], inputFreq[n], outputFreq[n], cbuf[n], ocbuf[n], ocbuf[0])
    }

    /** Channel n's coefficient blocks are the partitions of its taps. */
    ghost predicate Coded(data: seq<seq<real>>, h: seq<real>) {
      |data| * plan.len == |h| && forall i :: 0 <= i < |data| ==> HoldsPart(plan.table, data[i], h, plan.len, i)
    }

    ghost predicate Remembering(n: nat, cur: nat, x: seq<real>, t: nat)
      requires Laid() && n < nChannels && cur < 2
      reads repr
    {
      Remembers(plan, inputTime[n][cur], cbuf[n], x, t)
    }

    function Processed(t: nat): nat {
      if t < plan.nBlocks then t else plan.nBlocks
    }

    ghost predicate Valid()
      reads this, repr
    {
      && Laid() && curbuf < 2
      && |procblocks| == |coeffs| == |inputs| == |taps| == nChannels
      && (forall n :: 0 <= n < nChannels ==> procblocks[n] == Processed(blockcounter))
      && (forall n :: 0 <= n < nChannels ==> Remembering(n, curbuf, inputs[n], blockcounter))
      && (forall n :: 0 <= n < nChannels ==> Coded(coeffs[n], taps[n]))
    }

    /** Every channel has coefficients. */
    ghost predicate Ready()
      reads this
    {
      |coeffs| == nChannels && forall n :: 0 <= n < nChannels ==> coeffs[n] != []
    }

    /** Buffers picked from distinct pieces of memory at their slots are laid out as they should be. */
    lemma LaidOut(mem: seq<array<real>>)
      requires Shaped() && |mem| == Total(nChannels, plan.nBlocks) && repr == set a | a in mem
      requires forall r: Ref :: r.InUse(nChannels, plan.nBlocks) ==> PickedAt(r, mem)
      requires forall i :: 0 <= i < |mem| ==> mem[i].Length == 2 * plan.len
      requires forall i, j :: 0 <= i < j < |mem| ==> mem[i] != mem[j]
      ensures Laid()
    {
      hide Slot, Total;
      forall r: Ref | r.InUse(nChannels, plan.nBlocks) ensures Buf(r) in repr && Buf(r).Length == 2 * plan.len {
        assert PickedAt(r, mem);
      }
      forall r: Ref, s: Ref | r.InUse(nChannels, plan.nBlocks) && s.InUse(nChannels, plan.nBlocks) && Buf(r) == Buf(s)
        ensures r == s || Shared(r, s, plan.nBlocks)
      {
        assert PickedAt(r, mem) && PickedAt(s, mem);
        SlotsDisjoint(r, s, nChannels, plan.nBlocks);
      }
      forall n | 0 <= n < nChannels && plan.nBlocks == 1 ensures cbuf[n][0] == ocbuf[n] {
        assert PickedAt(Ring(n, 0), mem) && PickedAt(Accumulator(n), mem);
        SharedSlot(n);
      }
      forall n, b | 0 <= n < nChannels && 0 <= b < 2 ensures inputTime[n][b] in repr {
        assert PickedAt(Time(n, b), mem);
      }
      forall n, i | 0 <= n < nChannels && 0 <= i < plan.nBlocks ensures cbuf[n][i] in repr {
        assert PickedAt(Ring(n, i), mem);
      }
    }

    lemma SharedSlot(n: nat)
      requires plan.nBlocks == 1
      ensures Slot(Ring(n, 0), nChannels, plan.nBlocks) == Slot(Accumulator(n), nChannels, plan.nBlocks)
    {
    }

    ghost predicate PickedAt(r: Ref, mem: seq<array<real>>)
      requires Shaped() && r.InUse(nChannels, plan.nBlocks)
    {
      Slot(r, nChannels, plan.nBlocks) < |mem| && Buf(r) == mem[Slot(r, nChannels, plan.nBlocks)]
    }

    lemma PlacedBuffers(t: Tables, mem: seq<array<real>>)
      requires nChannels > 0 && plan.Valid() && Placed(t, nChannels, plan.nBlocks)
      requires |mem| == Total(nChannels, plan.nBlocks) && repr == set a | a in mem
      requires forall i :: 0 <= i < |mem| ==> mem[i].Length == 2 * plan.len
      requires forall i, j :: 0 <= i < j < |mem| ==> mem[i] != mem[j]
      requires Inside(t, |mem|)
      requires cbuf == PickRows(mem, t.ring) && ocbuf == Pick(mem, t.accumulator)
      requires inputTime == PickRows(mem, t.time)
      requires inputFreq == Pick(mem, t.inFreq) && outputFreq == Pick(mem, t.outFreq)
      ensures Laid()
    {
      hide Slot, Total;
      forall r: Ref | r.InUse(nChannels, plan.nBlocks) ensures PickedAt(r, mem) {
        SlotInside(r, nChannels, plan.nBlocks);
      }
      LaidOut(mem);
    }

    /** Silent buffers remember the empty history. */
    lemma NothingYet(n: nat)
      requires Laid() && n < nChannels
      requires forall a :: a in repr ==> forall k :: 0 <= k < a.Length ==> a[k] == 0.0
      ensures Remembering(n, 0, [], 0)
    {
      assert Buf(Time(n, 0)) in repr && inputTime[n][0].Length == 2 * plan.len;
      var a, silence := inputTime[n][0], Previous([], plan.len, 0);
      assert a in repr;
      forall k | 0 <= k < plan.len ensures a[k] == silence[k] {
        assert a[k] == 0.0;
        assert At([], (0 - 1) * plan.len + k) == 0.0;
      }
      assert a[..plan.len] == silence;
    }

    constructor (plan: Plan, nChannels: nat)
      requires plan.Valid() && nChannels > 0
      ensures Valid() && fresh(repr) && !initialized
      ensures this.plan == plan && this.nChannels == nChannels
      ensures blockcounter == 0 && forall n :: 0 <= n < nChannels ==> inputs[n] == [] && coeffs[n] == []
      ensures forall a :: a in repr ==> forall k :: 0 <= k < a.Length ==> a[k] == 0.0
    {
      hide Slot, Total, Pick, PickRows, Placed, Inside, Remembering, Laid;
      var t, memsize, _ := InitBuffers(nChannels, plan.nBlocks);
      var mem := Allocate(memsize, 2 * plan.len);
      AllInside(t, nChannels, plan.nBlocks);
      InsideRows(t, |mem|);
      this.plan := plan;
      this.nChannels := nChannels;
      this.cbuf := PickRows(mem, t.ring);
      this.ocbuf := Pick(mem, t.accumulator);
      this.inputTime := PickRows(mem, t.time);
      this.inputFreq := Pick(mem, t.inFreq);
      this.outputFreq := Pick(mem, t.outFreq);
      this.repr := set a | a in mem;
      curbuf, blockcounter, initialized := 0, 0, false;
      procblocks := seq(nChannels, _ => 0);
      coeffs := seq(nChannels, _ => []);
      inputs := seq(nChannels, _ => []);
      taps := seq(nChannels, _ => []);
      new;
      PlacedBuffers(t, mem);
      forall n | 0 <= n < nChannels ensures Remembering(n, 0, [], 0) {
        NothingYet(n);
      }
    }

    lemma InLayout(r: Ref)
      requires Laid() && r.InUse(nChannels, plan.nBlocks)
      ensures Buf(r) in repr && Buf(r).Length == 2 * plan.len
    {
    }

    lemma Different(r: Ref, s: Ref)
      requires Laid() && r.InUse(nChannels, plan.nBlocks) && s.InUse(nChannels, plan.nBlocks)
      requires r != s && !Shared(r, s, plan.nBlocks)
      ensures Buf(r) != Buf(s)
    {
    }

    /** A buffer of another kind, or of another channel, is none of channel n's four time and spectrum
        buffers. */
    lemma NotTimeOrSpectrum(r: Ref, n: nat, cur: nat)
      requires Laid() && n < nChannels && cur < 2 && r.InUse(nChannels, plan.nBlocks)
      requires r.n != n || r.Ring? || r.Accumulator?
      ensures Buf(r) !in {inputTime[n][cur], inputTime[n][1 - cur], inputFreq[n], outputFreq[n]}
    {
      assert Shaped();
      hide Laid;
      Different(r, Time(n, cur));
      Different(r, Time(n, 1 - cur));
      Different(r, InFreq(n));
      Different(r, OutFreq(n));
    }

    lemma ChannelApart(n: nat, cur: nat)
      requires Laid() && n < nChannels && cur < 2
      ensures BuffersOf(n, cur).Apart(plan)
    {
      assert plan.nBlocks == 1 ==> cbuf[n][0] == ocbuf[n];
      assert Shaped();
      hide Laid;
      var b := BuffersOf(n, cur);
      InLayout(Time(n, cur));
      InLayout(Time(n, 1 - cur));
      InLayout(InFreq(n));
      InLayout(OutFreq(n));
      InLayout(Accumulator(n));
      InLayout(Accumulator(0));
      Different(Time(n, cur), Time(n, 1 - cur));
      Different(Time(n, cur), InFreq(n));
      Different(Time(n, cur), OutFreq(n));
      Different(Time(n, 1 - cur), InFreq(n));
      Different(Time(n, 1 - cur), OutFreq(n));
      Different(InFreq(n), OutFreq(n));
      NotTimeOrSpectrum(Accumulator(n), n, cur);
      NotTimeOrSpectrum(Accumulator(0), n, cur);
      RingApart(n, cur);
    }

    lemma RingApart(n: nat, cur: nat)
      requires Laid() && n < nChannels && cur < 2
      ensures forall i :: 0 <= i < plan.nBlocks ==> cbuf[n][i].Length == 2 * plan.len
      ensures forall i :: 0 <= i < plan.nBlocks ==>
                cbuf[n][i] !in {inputTime[n][cur], inputTime[n][1 - cur], inputFreq[n], outputFreq[n]}
      ensures plan.nBlocks > 1 ==>
                forall i :: 0 <= i < plan.nBlocks ==> cbuf[n][i] != ocbuf[n] && cbuf[n][i] != ocbuf[0]
      ensures forall i, j :: 0 <= i < j < plan.nBlocks ==> cbuf[n][i] != cbuf[n][j]
    {
      assert Shaped();
      hide Laid;
      forall i | 0 <= i < plan.nBlocks
        ensures cbuf[n][i].Length == 2 * plan.len
        ensures cbuf[n][i] !in {inputTime[n][cur], inputTime[n][1 - cur], inputFreq[n], outputFreq[n]}
        ensures plan.nBlocks > 1 ==> cbuf[n][i] != ocbuf[n] && cbuf[n][i] != ocbuf[0]
      {
        InLayout(Ring(n, i));
        NotTimeOrSpectrum(Ring(n, i), n, cur);
        if plan.nBlocks > 1 {
          Different(Ring(n, i), Accumulator(n));
          Different(Ring(n, i), Accumulator(0));
        }
      }
      forall i, j | 0 <= i < j < plan.nBlocks ensures cbuf[n][i] != cbuf[n][j] {
        Different(Ring(n, i), Ring(n, j));
      }
    }

    /** The buffers a pass over channel n writes, but for its ring. */
    ghost function Writing(n: nat, cur: nat): set<array<real>>
      requires Shaped() && n < nChannels && cur < 2
    {
      {inputTime[n][cur], inputTime[n][1 - cur], inputFreq[n], outputFreq[n], ocbuf[n], ocbuf[0]}
    }

    /** A pass over channel n writes none of what another channel remembers. */
    lemma OthersUntouched(n: nat, m: nat, cur: nat, b: nat)
      requires Laid() && n < nChannels && m < nChannels && m != n && cur < 2 && b < 2
      ensures inputTime[m][b] !in Writing(n, cur)
      ensures forall i :: 0 <= i < plan.nBlocks ==> inputTime[m][b] != cbuf[n][i]
      ensures plan.nBlocks > 1 ==>
                forall j :: 0 <= j < plan.nBlocks ==>
                  && cbuf[m][j] !in Writing(n, cur)
                  && forall i :: 0 <= i < plan.nBlocks ==> cbuf[m][j] != cbuf[n][i]
    {
      assert Shaped();
      hide Laid;
      NotTimeOrSpectrum(Time(m, b), n, cur);
      Different(Time(m, b), Accumulator(n));
      Different(Time(m, b), Accumulator(0));
      forall i | 0 <= i < plan.nBlocks ensures inputTime[m][b] != cbuf[n][i] {
        Different(Time(m, b), Ring(n, i));
      }
      if plan.nBlocks > 1 {
        forall j | 0 <= j < plan.nBlocks
          ensures cbuf[m][j] !in Writing(n, cur)
          ensures forall i :: 0 <= i < plan.nBlocks ==> cbuf[m][j] != cbuf[n][i]
        {
          NotTimeOrSpectrum(Ring(m, j), n, cur);
          Different(Ring(m, j), Accumulator(n));
          Different(Ring(m, j), Accumulator(0));
          forall i | 0 <= i < plan.nBlocks ensures cbuf[m][j] != cbuf[n][i] {
            Different(Ring(m, j), Ring(n, i));
          }
        }
      }
    }

    /** Channel n of out is block t of the filter with taps h, of which `stored` partitions are loaded. */
    ghost predicate Emitted(out: seq<real>, n: nat, h: seq<real>, stored: nat, x: seq<real>, t: nat) {
      forall u :: 0 <= u < plan.len ==>
        0 <= Position(n, u, nChannels) < |out| &&
        out[Position(n, u, nChannels)] == Filtered(plan, h, stored, x, t * plan.len + u)
    }

    /** Writing other channels does not disturb it. */
    lemma StillEmitted(out: seq<real>, out': seq<real>, n: nat, h: seq<real>, stored: nat, x: seq<real>, t: nat)
      requires n < nChannels && |out| == |out'| == plan.len * nChannels
      requires Emitted(out, n, h, stored, x, t)
      requires forall q :: 0 <= q < |out| && q % nChannels == n ==> out'[q] == out[q]
      ensures Emitted(out', n, h, stored, x, t)
    {
      hide Filtered, Position;
      forall u | 0 <= u < plan.len
        ensures 0 <= Position(n, u, nChannels) < |out'|
        ensures out'[Position(n, u, nChannels)] == Filtered(plan, h, stored, x, t * plan.len + u)
      {
        PositionInside(n, u, nChannels, plan.len);
      }
    }

    /** The loop body for channel n, writing no more than the channel's own buffers and the shared scratch. */
    method StepChannel(n: nat, bufs: Buffers, inbuf: array<real>, outbuf: array<real>)
      requires Laid() && n < nChannels && curbuf < 2 && bufs == BuffersOf(n, curbuf)
      requires |procblocks| == |coeffs| == |inputs| == |taps| == nChannels
      requires Remembering(n, curbuf, inputs[n], blockcounter) && procblocks[n] == Processed(blockcounter)
      requires Coded(coeffs[n], taps[n]) && coeffs[n] != []
      requires inbuf.Length == outbuf.Length == plan.len * nChannels
      requires inbuf !in repr && outbuf !in repr
      modifies `procblocks, outbuf
      modifies bufs.time, bufs.nextTime, bufs.inFreq, bufs.outFreq, bufs.accumulator, bufs.scratch, bufs.ring
      ensures procblocks == old(procblocks)[n := Processed(blockcounter + 1)]
      ensures Remembering(n, 1 - curbuf, inputs[n] + Channel(old(inbuf[..]), n, nChannels), blockcounter + 1)
      ensures var x := inputs[n] + Channel(old(inbuf[..]), n, nChannels);
              Emitted(outbuf[..], n, taps[n], |coeffs[n]|, x, blockcounter)
      ensures forall q :: 0 <= q < outbuf.Length && q % nChannels != n ==> outbuf[q] == old(outbuf[q])
    {
      assert Shaped();
      hide Filtered, Channel, Remembers, HoldsPart, Position, Laid;
      ChannelApart(n, curbuf);
      BuffersInLayout(n, curbuf);
      var processed := ProcessChannel(plan, bufs, inbuf, outbuf, n, nChannels, blockcounter,
                                      procblocks[n], coeffs[n], inputs[n], taps[n]);
      procblocks := procblocks[n := processed];
    }

    lemma BuffersInLayout(n: nat, cur: nat)
      requires Laid() && n < nChannels && cur < 2
      ensures var b := BuffersOf(n, cur);
              && {b.time, b.nextTime, b.inFreq, b.outFreq, b.accumulator, b.scratch} <= repr
              && forall i :: 0 <= i < |b.ring| ==> b.ring[i] in repr
    {
      assert Shaped();
      hide Laid;
      InLayout(Time(n, cur));
      InLayout(Time(n, 1 - cur));
      InLayout(InFreq(n));
      InLayout(OutFreq(n));
      InLayout(Accumulator(n));
      InLayout(Accumulator(0));
      forall i | 0 <= i < plan.nBlocks ensures cbuf[n][i] in repr {
        InLayout(Ring(n, i));
      }
    }

    /** The loop body, seen from the other channels: they remember what they remembered. */
    method RunChannel(n: nat, inbuf: array<real>, outbuf: array<real>)
      requires Laid() && n < nChannels && curbuf < 2
      requires |procblocks| == |coeffs| == |inputs| == |taps| == nChannels
      requires Remembering(n, curbuf, inputs[n], blockcounter) && procblocks[n] == Processed(blockcounter)
      requires Coded(coeffs[n], taps[n]) && coeffs[n] != []
      requires inbuf.Length == outbuf.Length == plan.len * nChannels
      requires inbuf !in repr && outbuf !in repr
      modifies `procblocks, repr, outbuf
      ensures procblocks == old(procblocks)[n := Processed(blockcounter + 1)]
      ensures Remembering(n, 1 - curbuf, inputs[n] + Channel(old(inbuf[..]), n, nChannels), blockcounter + 1)
      ensures forall m, b, x, t :: 0 <= m < nChannels && m != n && 0 <= b < 2 && old(Remembering(m, b, x, t)) ==>
                Remembering(m, b, x, t)
      ensures var x := inputs[n] + Channel(old(inbuf[..]), n, nChannels);
              Emitted(outbuf[..], n, taps[n], |coeffs[n]|, x, blockcounter)
      ensures forall q :: 0 <= q < outbuf.Length && q % nChannels != n ==> outbuf[q] == old(outbuf[q])
    {
      assert Shaped();
      hide Filtered, Channel, Remembers, Coded, Emitted, HoldsPart, Position, Laid;
      BuffersInLayout(n, curbuf);
      StepChannel(n, BuffersOf(n, curbuf), inbuf, outbuf);
      forall m, b, x, t | 0 <= m < nChannels && m != n && 0 <= b < 2 && old(Remembering(m, b, x, t))
        ensures Remembering(m, b, x, t)
      {
        OthersUntouched(n, m, curbuf, b);
        BuffersInLayout(m, b);
      }
    }

    /** The first n channels have taken and emitted their block of raw, the others have not yet: what is
        left of their input is still in place, even when input and output share a buffer. */
    ghost predicate Midway(n: nat, inbuf: array<real>, outbuf: array<real>, raw: seq<real>, grown: seq<seq<real>>)
      reads this, repr, inbuf, outbuf
    {
      && Laid() && curbuf < 2 && n <= nChannels
      && |procblocks| == |coeffs| == |inputs| == |taps| == |grown| == nChannels
      && (forall m :: 0 <= m < nChannels ==>
            procblocks[m] == Processed(if m < n then blockcounter + 1 else blockcounter))
      && (forall m :: 0 <= m < n ==> Remembering(m, 1 - curbuf, grown[m], blockcounter + 1))
      && (forall m :: n <= m < nChannels ==> Remembering(m, curbuf, inputs[m], blockcounter))
      && (forall m :: 0 <= m < nChannels ==> grown[m] == inputs[m] + Channel(raw, m, nChannels))
      && (forall m :: n <= m < nChannels ==> Channel(inbuf[..], m, nChannels) == Channel(raw, m, nChannels))
      && (forall m :: 0 <= m < n ==> Emitted(outbuf[..], m, taps[m], |coeffs[m]|, grown[m], blockcounter))
      && (forall m :: 0 <= m < nChannels ==> Coded(coeffs[m], taps[m]) && coeffs[m] != [])
    }

    lemma BeforeLoop(inbuf: array<real>, outbuf: array<real>, raw: seq<real>, grown: seq<seq<real>>)
      requires Valid() && Ready() && raw == inbuf[..] && |grown| == nChannels
      requires forall m :: 0 <= m < nChannels ==> grown[m] == inputs[m] + Channel(raw, m, nChannels)
      ensures Midway(0, inbuf, outbuf, raw, grown)
    {
    }

    lemma AfterLoop(inbuf: array<real>, outbuf: array<real>, raw: seq<real>, grown: seq<seq<real>>)
      requires Midway(nChannels, inbuf, outbuf, raw, grown)
      ensures Laid() && curbuf < 2 && |procblocks| == |coeffs| == |taps| == |grown| == nChannels
      ensures forall m :: 0 <= m < nChannels ==> procblocks[m] == Processed(blockcounter + 1)
      ensures forall m :: 0 <= m < nChannels ==> Remembering(m, 1 - curbuf, grown[m], blockcounter + 1)
      ensures forall m :: 0 <= m < nChannels ==> Emitted(outbuf[..], m, taps[m], |coeffs[m]|, grown[m], blockcounter)
      ensures forall m :: 0 <= m < nChannels ==> Coded(coeffs[m], taps[m]) && coeffs[m] != []
    {
    }

    /** One more channel. */
    method RunNext(n: nat, inbuf: array<real>, outbuf: array<real>, ghost raw: seq<real>, ghost grown: seq<seq<real>>)
      requires n < nChannels && Midway(n, inbuf, outbuf, raw, grown)
      requires inbuf.Length == outbuf.Length == plan.len * nChannels
      requires inbuf !in repr && outbuf !in repr
      modifies `procblocks, repr, outbuf
      ensures Midway(n + 1, inbuf, outbuf, raw, grown)
    {
      assert Shaped();
      hide Channel, Remembering, HoldsPart, Coded, Emitted, Laid;
      ghost var in0, out0 := inbuf[..], outbuf[..];
      RunChannel(n, inbuf, outbuf);
      SameOtherChannels(in0, inbuf[..], n, nChannels, plan.len);
      forall m | 0 <= m < n ensures Emitted(outbuf[..], m, taps[m], |coeffs[m]|, grown[m], blockcounter) {
        StillEmitted(out0, outbuf[..], m, taps[m], |coeffs[m]|, grown[m], blockcounter);
      }
    }

    /** The loop over the channels; grown is everything fed in once this block is taken. */
    method RunChannels(inbuf: array<real>, outbuf: array<real>, ghost raw: seq<real>, ghost grown: seq<seq<real>>)
      requires inbuf.Length == outbuf.Length == plan.len * nChannels
      requires inbuf !in repr && outbuf !in repr
      requires Midway(0, inbuf, outbuf, raw, grown)
      modifies `procblocks, repr, outbuf
      ensures Midway(nChannels, inbuf, outbuf, raw, grown)
    {
      hide Midway, Remembering, Coded, Laid;
      for n := 0 to nChannels
        modifies `procblocks, repr, outbuf
        invariant Midway(n, inbuf, outbuf, raw, grown)
      {
        RunNext(n, inbuf, outbuf, raw, grown);
      }
    }

    /** One block of every channel. The input buffer may be the output buffer. */
    method Run(inbuf: array<real>, outbuf: array<real>)
      requires Valid() && Ready()
      requires inbuf.Length == outbuf.Length == plan.len * nChannels
      requires inbuf !in repr && outbuf !in repr
      modifies this, repr, outbuf
      ensures Valid() && Ready() && initialized == old(initialized)
      ensures blockcounter == old(blockcounter) + 1 && coeffs == old(coeffs) && taps == old(taps)
      ensures forall n :: 0 <= n < nChannels ==> inputs[n] == old(inputs[n]) + Channel(old(inbuf[..]), n, nChannels)
      ensures forall n :: 0 <= n < nChannels ==>
                Emitted(outbuf[..], n, taps[n], |coeffs[n]|, inputs[n], old(blockcounter))
    {
      assert Shaped() && |inputs| == nChannels;
      hide Valid, Emitted, Channel, Remembering, Coded, Laid, Midway, Processed;
      ghost var raw, x := inbuf[..], inputs;
      ghost var grown := seq(nChannels, n requires 0 <= n < nChannels => x[n] + Channel(raw, n, nChannels));
      BeforeLoop(inbuf, outbuf, raw, grown);
      RunChannels(inbuf, outbuf, raw, grown);
      AfterLoop(inbuf, outbuf, raw, grown);
      Advance(grown);
    }

    /** Swapping the time buffers and counting the block. */
    method Advance(ghost grown: seq<seq<real>>)
      requires Laid() && curbuf < 2 && |procblocks| == |coeffs| == |taps| == |grown| == nChannels
      requires forall m :: 0 <= m < nChannels ==> procblocks[m] == Processed(blockcounter + 1)
      requires forall m :: 0 <= m < nChannels ==> Remembering(m, 1 - curbuf, grown[m], blockcounter + 1)
      requires forall m :: 0 <= m < nChannels ==> Coded(coeffs[m], taps[m])
      modifies `inputs, `curbuf, `blockcounter
      ensures Valid() && inputs == grown && blockcounter == old(blockcounter) + 1
    {
      hide Valid, Remembering, Coded, Laid, Processed;
      inputs := grown;
      curbuf := 1 - curbuf;
      blockcounter := blockcounter + 1;
      StillValid();
    }

    lemma StillValid()
      requires Laid() && curbuf < 2 && |procblocks| == |coeffs| == |inputs| == |taps| == nChannels
      requires forall n :: 0 <= n < nChannels ==> procblocks[n] == Processed(blockcounter)
      requires forall n :: 0 <= n < nChannels ==> Remembering(n, curbuf, inputs[n], blockcounter)
      requires forall n :: 0 <= n < nChannels ==> Coded(coeffs[n], taps[n])
      ensures Valid()
    {
    }

    lemma Counts()
      requires Valid()
      ensures Shaped() && |coeffs| == |inputs| == |taps| == nChannels
    {
    }

    /** Dropping all coefficients. */
    method FreeCoeff()
      requires Valid()
      modifies `coeffs, `taps, `initialized
      ensures Valid() && !initialized
      ensures forall n :: 0 <= n < nChannels ==> coeffs[n] == [] && taps[n] == []
    {
      hide Remembering, Laid;
      coeffs := seq(nChannels, _ => []);
      taps := seq(nChannels, _ => []);
      initialized := false;
    }

    /** Loading one channel. */
    method LoadChannel(n: nat, s: seq<real>, length: nat, coeffBlocks: nat, scale: real)
      requires Valid() && n < nChannels && coeffBlocks > 0 && length <= |s|
      modifies `coeffs, `taps
      ensures Valid() && |coeffs| == |taps| == nChannels
      ensures |coeffs[n]| == coeffBlocks && taps[n] == ScaledTaps(s[..length], scale, coeffBlocks * plan.len)
      ensures forall m :: 0 <= m < nChannels && m != n ==> coeffs[m] == old(coeffs[m]) && taps[m] == old(taps[m])
    {
      assert Shaped();
      hide Remembering, Laid, HoldsPart, ScaledTaps;
      var data := PreprocessCoeff(plan.table, s, plan.len, coeffBlocks, length, scale);
      var blocks := seq(coeffBlocks, i requires 0 <= i < |data| reads data => data[i][..]);
      ghost var h := ScaledTaps(s[..length], scale, coeffBlocks * plan.len);
      assert Coded(blocks, h);
      coeffs := coeffs[n := blocks];
      taps := taps[n := h];
    }

    /** Loading coefficients for the first nCoeffs channels; the filter's history stays as it is. When one
        buffer is missing, everything is dropped. */
    method SetCoeff(sets: seq<Loaded>, nCoeffs: nat, length: nat, coeffBlocks: nat, scale: real) returns (r: int)
      requires Valid() && coeffBlocks > 0 && nCoeffs <= |sets|
      requires forall n :: 0 <= n < nCoeffs && sets[n].Samples? ==> length <= |sets[n].s|
      modifies `coeffs, `taps, `initialized
      ensures Valid()
      ensures r == 0 <==> forall n :: 0 <= n < nCoeffs && n < nChannels ==> sets[n].Samples?
      ensures r == 0 ==> initialized
      ensures r == 0 ==>
                forall n :: 0 <= n < nChannels ==>
                  if n < nCoeffs then
                    |coeffs[n]| == coeffBlocks &&
                    taps[n] == ScaledTaps(sets[n].s[..length], scale, coeffBlocks * plan.len)
                  else coeffs[n] == [] && taps[n] == []
      ensures r != 0 ==> r == -2 && !initialized && forall n :: 0 <= n < nChannels ==> coeffs[n] == []
    {
      assert Shaped();
      hide Remembering, Laid, HoldsPart, ScaledTaps;
      FreeCoeff();
      var limit := if nCoeffs > nChannels then nChannels else nCoeffs;
      var n := 0;
      while n < limit
        invariant 0 <= n <= limit && Valid() && !initialized
        invariant forall m :: 0 <= m < n ==>
                    sets[m].Samples? && |coeffs[m]| == coeffBlocks &&
                    taps[m] == ScaledTaps(sets[m].s[..length], scale, coeffBlocks * plan.len)
        invariant forall m :: n <= m < nChannels ==> coeffs[m] == [] && taps[m] == []
      {
        if sets[n].Missing? {
          break;
        }
        LoadChannel(n, sets[n].s, length, coeffBlocks, scale);
        n := n + 1;
      }
      if n < limit {
        FreeCoeff();
        return -2;
      }
      initialized := true;
      return 0;
    }
  }

  lemma SameOtherChannels(raw: seq<real>, raw': seq<real>, n: nat, channels: nat, len: nat)
    requires n < channels && |raw| == |raw'| == len * channels
    requires forall q :: 0 <= q < |raw| && q % channels != n ==> raw'[q] == raw[q]
    ensures forall m :: 0 <= m < channels && m != n ==> Channel(raw', m, channels) == Channel(raw, m, channels)
  {
    hide Channel;
    forall m | 0 <= m < channels && m != n ensures Channel(raw', m, channels) == Channel(raw, m, channels) {
      SameChannel(raw, raw', m, channels, len);
    }
  }

  lemma SameChannel(raw: seq<real>, raw': seq<real>, n: nat, channels: nat, len: nat)
    requires n < channels && |raw| == |raw'| == len * channels
    requires forall q :: 0 <= q < |raw| && q % channels == n ==> raw'[q] == raw[q]
    ensures Channel(raw', n, channels) == Channel(raw, n, channels)
  {
    FramesOf(len, channels);
    forall i | 0 <= i < len ensures Channel(raw', n, channels)[i] == Channel(raw, n, channels)[i] {
      PositionInside(n, i, channels, len);
    }
  }

  ghost predicate Inside(t: Tables, size: nat) {
    && (forall n :: 0 <= n < |t.ring| ==> forall i :: 0 <= i < |t.ring[n]| ==> t.ring[n][i] < size)
    && (forall n :: 0 <= n < |t.time| ==> forall b :: 0 <= b < |t.time[n]| ==> t.time[n][b] < size)
    && (forall n :: 0 <= n < |t.accumulator| ==> t.accumulator[n] < size)
    && (forall n :: 0 <= n < |t.inFreq| ==> t.inFreq[n] < size)
    && (forall n :: 0 <= n < |t.outFreq| ==> t.outFreq[n] < size)
  }

  lemma InsideRows(t: Tables, size: nat)
    requires Inside(t, size)
    ensures forall n :: 0 <= n < |t.ring| ==> forall i :: 0 <= i < |t.ring[n]| ==> t.ring[n][i] < size
    ensures forall n :: 0 <= n < |t.time| ==> forall b :: 0 <= b < |t.time[n]| ==> t.time[n][b] < size
    ensures forall n :: 0 <= n < |t.accumulator| ==> t.accumulator[n] < size
    ensures forall n :: 0 <= n < |t.inFreq| ==> t.inFreq[n] < size
    ensures forall n :: 0 <= n < |t.outFreq| ==> t.outFreq[n] < size
  {
  }

  /** The buffers at the given slots. */
  function Pick(mem: seq<array<real>>, slots: seq<nat>): (r: seq<array<real>>)
    requires forall i :: 0 <= i < |slots| ==> slots[i] < |mem|
    ensures |r| == |slots| && forall i :: 0 <= i < |slots| ==> r[i] == mem[slots[i]]
  {
    seq(|slots|, i requires 0 <= i < |slots| => mem[slots[i]])
  }

  function PickRows(mem: seq<array<real>>, rows: seq<seq<nat>>): (r: seq<seq<array<real>>>)
    requires forall n :: 0 <= n < |rows| ==> forall i :: 0 <= i < |rows[n]| ==> rows[n][i] < |mem|
    ensures |r| == |rows| && forall n :: 0 <= n < |rows| ==> |r[n]| == |rows[n]|
    ensures forall n, i :: 0 <= n < |rows| && 0 <= i < |rows[n]| ==> r[n][i] == mem[rows[n][i]]
  {
    seq(|rows|, n requires 0 <= n < |rows| => Pick(mem, rows[n]))
  }

  lemma AllInside(t: Tables, channels: nat, blocks: nat)
    requires blocks > 0 && Placed(t, channels, blocks)
    ensures Inside(t, Total(channels, blocks))
  {
    hide Slot, Total;
    forall n | 0 <= n < channels
      ensures forall i :: 0 <= i < |t.ring[n]| ==> t.ring[n][i] < Total(channels, blocks)
      ensures forall b :: 0 <= b < |t.time[n]| ==> t.time[n][b] < Total(channels, blocks)
      ensures t.accumulator[n] < Total(channels, blocks)
      ensures t.inFreq[n] < Total(channels, blocks) && t.outFreq[n] < Total(channels, blocks)
    {
      forall i | 0 <= i < blocks ensures t.ring[n][i] < Total(channels, blocks) {
        SlotInside(Ring(n, i), channels, blocks);
      }
      forall b | 0 <= b < 2 ensures t.time[n][b] < Total(channels, blocks) {
        SlotInside(Time(n, b), channels, blocks);
      }
      SlotInside(Accumulator(n), channels, blocks);
      SlotInside(InFreq(n), channels, blocks);
      SlotInside(OutFreq(n), channels, blocks);
    }
  }
}
