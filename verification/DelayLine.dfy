/**
 The delay line: a ring of fragments plus a rest buffer for long delays, two buffers used in turn for short
 ones, updated in place on one channel of an interleaved buffer, with a delay that may change between fragments.
 A null buffer of the original is an empty array here.
 */
module DelayLine {
  import opened Arithmetic
  import opened Strided
  import opened DelayRing
  import opened DelayHistory

  lemma WholeAndRest(d: nat, size: nat)
    requires size > 0
    ensures d == Area(d / size, size) + d % size
  {
  }

  lemma MoreWhole(d: nat, most: nat, size: nat)
    requires size > 0 && d <= most
    ensures d / size <= most / size
  {
    WholeAndRest(d, size);
    WholeAndRest(most, size);
    if most / size < d / size {
      RowsUpTo(most / size + 1, d / size, size);
      AreaStep(most / size + 1, size);
    }
  }

  lemma SomeWhole(d: nat, size: nat)
    requires 0 < size <= d
    ensures d / size >= 1
  {
  }

  lemma NoneWhole(d: nat, size: nat)
    requires d < size
    ensures d / size == 0 && d % size == d
  {
  }

  method Clear(a: array<int>, n: nat)
    requires n <= a.Length
    modifies a
    ensures Silent(a[..n])
  {
    forall i | 0 <= i < n {
      a[i] := 0;
    }
  }

  method CopyBlock(dst: array<int>, src: array<int>, from: nat, n: nat)
    requires dst != src && n <= dst.Length && from + n <= src.Length
    modifies dst
    ensures dst[..n] == src[from..from + n]
  {
    forall i | 0 <= i < n {
      dst[i] := src[from + i];
    }
  }

  /** count new silent buffers. */
  method NewBuffers(count: nat, size: nat) returns (bufs: seq<array<int>>)
    ensures |bufs| == count && fresh(bufs)
    ensures forall i :: 0 <= i < count ==> bufs[i].Length == size && Silent(bufs[i][..])
    ensures forall i, j :: 0 <= i < j < count ==> bufs[i] != bufs[j]
  {
    bufs := [];
    while |bufs| < count
      invariant |bufs| <= count && fresh(bufs)
      invariant forall i :: 0 <= i < |bufs| ==> bufs[i].Length == size && Silent(bufs[i][..])
      invariant forall i, j :: 0 <= i < j < |bufs| ==> bufs[i] != bufs[j]
      decreases count - |bufs|
    {
      var a := new int[size](_ => 0);
      bufs := bufs + [a];
    }
  }

  /** The fragment goes into the current buffer; the rest and the start of the last buffer take its place; the
      end of the last buffer becomes the rest. */
  method TurnBuffers(current: array<int>, lastbuf: array<int>, rbuf: array<int>, nRest: nat, fragsize: nat,
                     buf: array<int>, base: int, spacing: int)
    requires current != lastbuf && current != rbuf && lastbuf != rbuf && buf !in {current, lastbuf, rbuf}
    requires current.Length == lastbuf.Length == fragsize && nRest <= rbuf.Length && nRest <= fragsize
    requires Fits(buf.Length, base, spacing, fragsize)
    modifies current, rbuf, buf
    ensures current[..] == old(Samples(buf[..], base, spacing, fragsize))
    ensures Samples(buf[..], base, spacing, fragsize) == old(rbuf[..nRest]) + lastbuf[..fragsize - nRest]
    ensures rbuf[..nRest] == lastbuf[fragsize - nRest..]
    ensures KeptOutside(old(buf[..]), buf[..], base, spacing, 0, fragsize)
  {
    hide *;
    ghost var start := buf[..];
    Take(current, buf, base, spacing, fragsize, 0, fragsize);
    assert buf[..] == start;
    RestOut(lastbuf, rbuf, nRest, fragsize, buf, base, spacing);
    ghost var half := buf[..];
    Put(buf, base, spacing, fragsize, nRest, lastbuf, fragsize - nRest);
    KeptBoth(start, half, buf[..], base, spacing, fragsize);
  }

  /** The rest comes out at the front and is replaced by the end of the last buffer. */
  method RestOut(lastbuf: array<int>, rbuf: array<int>, nRest: nat, fragsize: nat,
                 buf: array<int>, base: int, spacing: int)
    requires lastbuf != rbuf && buf != lastbuf && buf != rbuf
    requires lastbuf.Length == fragsize && nRest <= rbuf.Length && nRest <= fragsize
    requires Fits(buf.Length, base, spacing, fragsize)
    modifies rbuf, buf
    ensures Samples(buf[..], base, spacing, fragsize) ==
            old(rbuf[..nRest]) + old(Samples(buf[..], base, spacing, fragsize))[nRest..]
    ensures rbuf[..nRest] == lastbuf[fragsize - nRest..]
    ensures KeptOutside(old(buf[..]), buf[..], base, spacing, 0, fragsize)
  {
    hide *;
    KeptAll(buf[..], base, spacing, fragsize);
    if nRest != 0 {
      Put(buf, base, spacing, fragsize, 0, rbuf, nRest);
      ghost var half := buf[..];
      CopyBlock(rbuf, lastbuf, fragsize - nRest, nRest);
      assert buf[..] == half;
    }
  }

  /** The end of the fragment is put away, the start moves to the end, and what was put away before comes out. */
  method ShortTurn(current: array<int>, other: array<int>, nRest: nat, fragsize: nat,
                   buf: array<int>, base: int, spacing: int)
    requires current != other && buf != current && buf != other && nRest <= fragsize
    requires nRest <= current.Length && nRest <= other.Length && Fits(buf.Length, base, spacing, fragsize)
    modifies current, buf
    ensures current[..nRest] == old(Samples(buf[..], base, spacing, fragsize))[fragsize - nRest..]
    ensures Samples(buf[..], base, spacing, fragsize) ==
            other[..nRest] + old(Samples(buf[..], base, spacing, fragsize))[..fragsize - nRest]
    ensures KeptOutside(old(buf[..]), buf[..], base, spacing, 0, fragsize)
  {
    hide *;
    ghost var start := buf[..];
    Take(current, buf, base, spacing, fragsize, fragsize - nRest, nRest);
    assert buf[..] == start;
    Shift(buf, base, spacing, fragsize - nRest, nRest);
    ghost var half := buf[..];
    Put(buf, base, spacing, fragsize, 0, other, nRest);
    KeptBoth(start, half, buf[..], base, spacing, fragsize);
  }

  lemma SilentAwaits(input: seq<int>, delay: nat, cleared: bool, pending: seq<int>)
    requires |pending| == delay && (cleared ==> Silent(pending))
    ensures Awaits(input, Epoch(|input|, delay, cleared), pending)
  {
    hide Awaits;
    FreshlyAwaits(input, delay, cleared, pending);
  }

  lemma SomeEpoch(input: seq<int>, output: seq<int>, epochs: seq<Epoch>)
    requires Faithful(input, output, epochs)
    ensures epochs != []
  {
  }

  lemma KeptAll(s: seq<int>, base: int, spacing: int, n: nat)
    ensures KeptOutside(s, s, base, spacing, 0, n)
  {
  }

  /** The initial delays the allocation is made for: the clamp to maxdelay acts only when maxdelay is zero, so a
      larger one fits only if it fills no more whole fragments than a maximum of more than one fragment does. */
  predicate Accepts(fragsize: nat, initdelay: nat, maxdelay: int)
    requires fragsize > 0
  {
    maxdelay <= 0 || initdelay <= maxdelay || (maxdelay > fragsize && initdelay / fragsize == maxdelay / fragsize)
  }

  /** Nine samples fit into rings made for at most eight, not into short buffers made for at most five. */
  lemma NineSamples()
    ensures Accepts(4, 9, 8) && !Accepts(4, 9, 5)
  {
  }

  /** The delay to start with, what to allocate, and the counters: a short delay needs two buffers of its own
      size, a long one a ring, a rest, and full short buffers if it may become short later. */
  method Sizes(fragsize: nat, initdelay: nat, maxdelay: int)
    returns (init: nat, shortSize: nat, longCount: nat, restSize: nat, nRest: nat, nFbufs: nat)
    requires fragsize > 0
    ensures init == if maxdelay == 0 then 0 else initdelay
    ensures nFbufs > 0 ==> 2 <= nFbufs && nRest < fragsize && nRest <= restSize &&
                           init == Area(nFbufs - 1, fragsize) + nRest
    ensures nFbufs == 0 ==> nRest == init
    ensures nFbufs > 0 <==> init >= fragsize && (if maxdelay > 0 then maxdelay else init) > fragsize
    ensures Accepts(fragsize, initdelay, maxdelay) <==>
            if nFbufs > 0 then nFbufs <= longCount else nRest <= shortSize && nRest <= fragsize
    ensures maxdelay > 0 ==> (if maxdelay < fragsize then maxdelay else fragsize) <= shortSize
    ensures maxdelay > fragsize ==> maxdelay / fragsize + 1 <= longCount && fragsize <= restSize
  {
    var delay := if maxdelay <= 0 then initdelay else maxdelay;
    init := initdelay;
    if maxdelay >= 0 && delay > maxdelay {
      delay, init := maxdelay, maxdelay;
    }
    shortSize, longCount, restSize, nRest, nFbufs := 0, 0, 0, 0, 0;
    if delay == 0 {
      return;
    }
    if delay <= fragsize {
      nRest, shortSize := init, delay;
      return;
    }
    if maxdelay > 0 {
      shortSize := fragsize;
    }
    if init <= delay {
      MoreWhole(init, delay, fragsize);
    } else {
      MoreWhole(delay, init, fragsize);
    }
    WholeAndRest(init, fragsize);
    if init < fragsize {
      NoneWhole(init, fragsize);
    } else {
      SomeWhole(init, fragsize);
    }
    hide Area;
    nRest := init % fragsize;
    nFbufs := init / fragsize + 1;
    if nFbufs == 1 {
      nFbufs := 0;
    }
    longCount := delay / fragsize + 1;
    restSize := if maxdelay > 0 then fragsize else nRest;
  }

  class DelayBuffer {
    const fragsize: nat
    const maxdelay: int
    const fbufs: seq<array<int>>
    const rbuf: array<int>
    const shortbuf: seq<array<int>>
    var curdelay: nat
    var curbuf: nat
    var nFbufs: nat
    var nRest: nat
    /** All fragments seen so far, all fragments produced, and the delays that were in force. */
    ghost var input: seq<int>
    ghost var output: seq<int>
    ghost var epochs: seq<Epoch>

    /** No two buffers are the same. */
    ghost predicate Apart() {
      |shortbuf| == 2 && shortbuf[0] != shortbuf[1] && rbuf !in shortbuf && rbuf !in fbufs &&
      shortbuf[0] !in fbufs && shortbuf[1] !in fbufs &&
      forall i, j :: 0 <= i < j < |fbufs| ==> fbufs[i] != fbufs[j]
    }

    /** The buffers are large enough for every delay the line may be set to. */
    ghost predicate Sized() {
      fragsize > 0 && |shortbuf| == 2 && (forall i :: 0 <= i < |fbufs| ==> fbufs[i].Length == fragsize) &&
      (maxdelay > 0 ==> RoomForShort(if maxdelay < fragsize then maxdelay else fragsize)) &&
      (maxdelay > fragsize ==> maxdelay / fragsize + 1 <= |fbufs| && fragsize <= rbuf.Length)
    }

    predicate RoomForShort(d: int)
      requires |shortbuf| == 2
    {
      d <= shortbuf[0].Length && d <= shortbuf[1].Length
    }

    /** The counters fit the delay, in one of the two modes. */
    ghost predicate InMode()
      requires |shortbuf| == 2
      reads `curdelay, `curbuf, `nFbufs, `nRest
    {
      if nFbufs > 0 then
        2 <= nFbufs <= |fbufs| && curbuf < nFbufs && nRest < fragsize && nRest <= rbuf.Length &&
        curdelay == Area(nFbufs - 1, fragsize) + nRest
      else
        curbuf < 2 && nRest == curdelay <= fragsize && RoomForShort(nRest)
    }

    ghost predicate Shaped()
      reads `curdelay, `curbuf, `nFbufs, `nRest
    {
      Apart() && Sized() && InMode()
    }

    ghost function Ring(): (ring: seq<seq<int>>)
      requires nFbufs <= |fbufs|
      reads `nFbufs, fbufs
      ensures |ring| == nFbufs && forall i :: 0 <= i < nFbufs ==> ring[i] == fbufs[i][..]
    {
      var n := nFbufs;
      seq(n, i requires 0 <= i < n <= |fbufs| reads fbufs => fbufs[i][..])
    }

    /** What will come out next, in order. */
    ghost function Pending(): seq<int>
      requires Shaped()
      reads `curdelay, `curbuf, `nFbufs, `nRest, fbufs, rbuf, shortbuf
    {
      if nFbufs > 0 then Queue(Ring(), curbuf, rbuf[..nRest]) else shortbuf[1 - curbuf][..nRest]
    }

    /** A line allocated with the ring in use for a delay of one fragment has short buffers nothing has touched. */
    ghost predicate Resting()
      requires |shortbuf| == 2
      reads `curdelay, `nFbufs, shortbuf
    {
      nFbufs > 0 && curdelay <= fragsize ==> Silent(shortbuf[0][..]) && Silent(shortbuf[1][..])
    }

    /** The counters fit, and the whole run so far kept its promise and will go on doing so. */
    ghost predicate Valid()
      reads this, fbufs, rbuf, shortbuf
    {
      Shaped() && Resting() && Faithful(input, output, epochs) && epochs[|epochs| - 1].delay == curdelay &&
      Awaits(input, epochs[|epochs| - 1], Pending()) && Silences(epochs)
    }

    /** The first epoch began in silence, and so did every one with a longer delay than the one before, or with a short
        delay after a long one. */
    ghost predicate Silences(epochs: seq<Epoch>) {
      (epochs != [] ==> epochs[0].cleared) &&
      forall k :: 0 < k < |epochs| && Quietens(epochs[k - 1].delay, epochs[k].delay) ==> epochs[k].cleared
    }

    predicate Quietens(before: int, after: int) {
      before < after || after <= fragsize < before
    }

    ghost predicate Own(a: array<int>) {
      a in fbufs || a == rbuf || a in shortbuf
    }

    lemma LongMode()
      requires Shaped() && nFbufs > 0
      ensures 2 <= nFbufs <= |fbufs| && curbuf < nFbufs && nRest < fragsize && nRest <= rbuf.Length
      ensures |Ring()[Next(curbuf, nFbufs)]| == fragsize
      ensures Pending() == Queue(Ring(), curbuf, rbuf[..nRest])
    {
    }

    /** The buffers turn by one place. */
    method Turn(buf: array<int>, base: int, spacing: int)
      requires Shaped() && nFbufs > 0 && !Own(buf) && Fits(buf.Length, base, spacing, fragsize)
      modifies `curbuf, fbufs, rbuf, buf
      ensures Shaped()
      ensures old(curbuf) < nFbufs && curbuf == Next(old(curbuf), nFbufs)
      ensures Ring() == old(Ring())[old(curbuf) := old(Samples(buf[..], base, spacing, fragsize))]
      ensures rbuf[..nRest] == old(Ring())[curbuf][fragsize - nRest..]
      ensures Samples(buf[..], base, spacing, fragsize) ==
              old(rbuf[..nRest]) + old(Ring())[curbuf][..fragsize - nRest]
      ensures KeptOutside(old(buf[..]), buf[..], base, spacing, 0, fragsize)
    {
      assert fragsize > 0 && forall i :: 0 <= i < |fbufs| ==> fbufs[i].Length == fragsize;
      hide Samples, Fits, KeptOutside, Area, Sized, Pending;
      var lastbuf := if curbuf == nFbufs - 1 then fbufs[0] else fbufs[curbuf + 1];
      TurnBuffers(fbufs[curbuf], lastbuf, rbuf, nRest, fragsize, buf, base, spacing);
      curbuf := curbuf + 1;
      if curbuf == nFbufs {
        curbuf := 0;
      }
    }

    /** One fragment through the ring, in place. */
    method UpdateDelayBuffer(buf: array<int>, base: int, spacing: int)
      requires Shaped() && nFbufs > 0 && !Own(buf) && Fits(buf.Length, base, spacing, fragsize)
      modifies `curbuf, fbufs, rbuf, buf
      ensures Shaped()
      ensures Samples(buf[..], base, spacing, fragsize) ==
              (old(Pending()) + old(Samples(buf[..], base, spacing, fragsize)))[..fragsize]
      ensures Pending() == (old(Pending()) + old(Samples(buf[..], base, spacing, fragsize)))[fragsize..]
      ensures KeptOutside(old(buf[..]), buf[..], base, spacing, 0, fragsize)
    {
      hide *;
      LongMode();
      ghost var total := Pending() + Samples(buf[..], base, spacing, fragsize);
      RingTurns(Ring(), curbuf, rbuf[..nRest], Samples(buf[..], base, spacing, fragsize));
      Turn(buf, base, spacing);
      LongMode();
    }

    /** One fragment through the two short buffers, in place. */
    method UpdateDelayShortBuffer(buf: array<int>, base: int, spacing: int)
      requires Shaped() && nFbufs == 0 && !Own(buf) && Fits(buf.Length, base, spacing, fragsize)
      modifies `curbuf, shortbuf, buf
      ensures Shaped()
      ensures Samples(buf[..], base, spacing, fragsize) ==
              (old(Pending()) + old(Samples(buf[..], base, spacing, fragsize)))[..fragsize]
      ensures Pending() == (old(Pending()) + old(Samples(buf[..], base, spacing, fragsize)))[fragsize..]
      ensures KeptOutside(old(buf[..]), buf[..], base, spacing, 0, fragsize)
    {
      hide Samples, Fits, KeptOutside, Area, Queue, Sized;
      ghost var total := Pending() + Samples(buf[..], base, spacing, fragsize);
      ShortTurn(shortbuf[curbuf], shortbuf[1 - curbuf], nRest, fragsize, buf, base, spacing);
      curbuf := 1 - curbuf;
    }

    /** Are the buffers silent once the delay is set to d? After an increase, and on leaving the ring for the short
        buffers. */
    predicate StartsSilent(d: int)
      reads `curdelay, `nFbufs
    {
      curdelay < d || (d <= fragsize && nFbufs > 0)
    }

    method ChangeToShort(newdelay: nat)
      requires Shaped() && Resting() && newdelay <= fragsize && newdelay <= maxdelay
      modifies `curdelay, `curbuf, `nFbufs, `nRest, shortbuf
      ensures Shaped() && Resting() && curdelay == newdelay && |Pending()| == newdelay && nFbufs == 0
      ensures old(curdelay) < newdelay || old(nFbufs) > 0 ==> Silent(Pending())
      ensures newdelay <= old(curdelay) <= fragsize ==> Pending() == old(shortbuf[1][..])[..newdelay]
    {
      assert RoomForShort(newdelay);
      hide Area, Queue, Sized;
      nRest := newdelay;
      if curdelay > fragsize || curdelay < newdelay {
        Clear(shortbuf[0], newdelay);
        Clear(shortbuf[1], newdelay);
      }
      nFbufs := 0;
      curbuf := 0;
      curdelay := newdelay;
    }

    /** The first n full buffers and the start of the rest are silent. */
    ghost predicate Cleared(n: nat, rest: nat)
      requires n <= |fbufs| && rest <= rbuf.Length
      reads fbufs, rbuf
    {
      (forall i :: 0 <= i < n ==> Silent(fbufs[i][..])) && Silent(rbuf[..rest])
    }

    method ClearRing()
      requires Apart() && nFbufs <= |fbufs| && nRest <= rbuf.Length
      requires forall i :: 0 <= i < |fbufs| ==> fbufs[i].Length == fragsize
      modifies fbufs, rbuf
      ensures Cleared(nFbufs, nRest)
    {
      for i := 0 to nFbufs
        invariant forall k :: 0 <= k < i ==> Silent(fbufs[k][..])
      {
        Clear(fbufs[i], fragsize);
      }
      if nRest != 0 {
        Clear(rbuf, nRest);
      }
    }

    /** What a shorter delay of more than a fragment finds in the ring: the start of the rest, and the buffers from the
        second one on. */
    ghost function LeftInRing(d: nat): (s: seq<int>)
      reads `nFbufs, fbufs, rbuf
    {
      if 0 < fragsize && d / fragsize < nFbufs <= |fbufs| && d % fragsize <= rbuf.Length then
        rbuf[..d % fragsize] + Flatten(Ring()[1..d / fragsize + 1])
      else []
    }

    lemma RingRoom(d: nat)
      requires Shaped() && fragsize < d <= maxdelay && d <= curdelay
      ensures nFbufs > 0 && d / fragsize < nFbufs <= |fbufs| && d % fragsize < fragsize <= rbuf.Length
    {
      WholeAndRest(d, fragsize);
      if nFbufs <= d / fragsize {
        RowsUpTo(nFbufs, d / fragsize, fragsize);
        AreaStep(nFbufs, fragsize);
      }
    }

    /** It is the rest, and sample by sample the buffers from the second one on. */
    lemma LeftAt(d: nat, i: nat, j: nat)
      requires Shaped() && fragsize < d <= maxdelay && d <= curdelay && i < d / fragsize && j < fragsize
      ensures d % fragsize < fragsize <= rbuf.Length && i + 1 < |fbufs| && fbufs[i + 1].Length == fragsize
      ensures var rest, left := d % fragsize, LeftInRing(d);
              |left| == d && left[..rest] == rbuf[..rest] && 0 <= rest + Area(i, fragsize) + j < d &&
              left[rest + Area(i, fragsize) + j] == fbufs[i + 1][j]
    {
      RingRoom(d);
      WholeAndRest(d, fragsize);
      var rest, blocks := rbuf[..d % fragsize], Ring()[1..d / fragsize + 1];
      assert LeftInRing(d) == rest + Flatten(blocks);
      assert AllSized(blocks, fragsize) && |blocks| == d / fragsize && blocks[i] == fbufs[i + 1][..];
      hide *;
      FlattenLength(blocks, fragsize);
      FlattenAt(blocks, fragsize, i, j);
    }

    /** The counters of a long delay; only an increase clears the buffers it uses. */
    method SetRing(newdelay: nat)
      requires Shaped() && newdelay / fragsize < |fbufs| && newdelay % fragsize <= rbuf.Length
      modifies `curdelay, `curbuf, `nFbufs, `nRest, fbufs, rbuf
      ensures nRest == newdelay % fragsize && nFbufs == newdelay / fragsize + 1 && curbuf == 0 && curdelay == newdelay
      ensures old(curdelay) < newdelay ==> Cleared(nFbufs, nRest)
      ensures newdelay <= old(curdelay) ==>
                rbuf[..] == old(rbuf[..]) && forall i :: 0 <= i < |fbufs| ==> fbufs[i][..] == old(fbufs[i][..])
    {
      hide Area;
      nRest := newdelay % fragsize;
      nFbufs := newdelay / fragsize + 1;
      if curdelay < newdelay {
        ClearRing();
      }
      curbuf := 0;
      curdelay := newdelay;
    }

    lemma LongShape(d: nat)
      requires fragsize > 0 && Sized() && fragsize < d <= maxdelay
      ensures 1 <= d / fragsize < |fbufs| && d % fragsize < fragsize <= rbuf.Length
      ensures d == Area(d / fragsize, fragsize) + d % fragsize
    {
      MoreWhole(d, maxdelay, fragsize);
      SomeWhole(d, fragsize);
      WholeAndRest(d, fragsize);
    }

    lemma RingQueued()
      requires Shaped() && nFbufs > 0 && curbuf == 0
      ensures |Pending()| == curdelay && Pending() == rbuf[..nRest] + Flatten(Ring()[1..])
      ensures Cleared(nFbufs, nRest) ==> Silent(Pending())
    {
      QueueLength(Ring(), 0, rbuf[..nRest], fragsize);
      assert Ring()[1..] + Ring()[..0] == Ring()[1..];
      if Cleared(nFbufs, nRest) {
        QueueSilent(Ring(), 0, rbuf[..nRest]);
      }
      hide Area, Flatten, Sized, Apart;
    }

    method ChangeToLong(newdelay: nat)
      requires Shaped() && fragsize < newdelay <= maxdelay
      modifies `curdelay, `curbuf, `nFbufs, `nRest, fbufs, rbuf
      ensures Shaped() && Resting() && curdelay == newdelay && |Pending()| == newdelay && nFbufs > 0
      ensures old(curdelay) < newdelay ==> Silent(Pending())
      ensures newdelay <= old(curdelay) ==> Pending() == old(LeftInRing(newdelay))
    {
      hide *;
      ShapedParts();
      LongShape(newdelay);
      ghost var n, rest, ring := newdelay / fragsize + 1, rbuf[..], Ring();
      if newdelay <= curdelay {
        LeftIs(newdelay);
      }
      SetRing(newdelay);
      ShapedLong();
      RingQueued();
      if newdelay <= old(curdelay) {
        assert Ring() == ring[..n];
        assert ring[..n][1..] == ring[1..n];
        assert rbuf[..nRest] == rest[..newdelay % fragsize];
      }
    }

    lemma ShapedParts()
      requires Shaped()
      ensures Apart() && Sized() && fragsize > 0 && nFbufs <= |fbufs| && |shortbuf| == 2
    {
    }

    lemma ShapedLong()
      requires Apart() && Sized() && fragsize < curdelay <= maxdelay
      requires nRest == curdelay % fragsize && nFbufs == curdelay / fragsize + 1 && curbuf == 0
      ensures Shaped() && Resting() && nFbufs > 0
    {
      LongShape(curdelay);
      hide Area, Apart, Sized;
    }

    lemma LeftIs(d: nat)
      requires Shaped() && fragsize < d <= maxdelay && d <= curdelay
      ensures d / fragsize + 1 <= nFbufs <= |fbufs| && d % fragsize <= rbuf.Length
      ensures LeftInRing(d) == rbuf[..d % fragsize] + Flatten(Ring()[1..d / fragsize + 1])
    {
      RingRoom(d);
      hide Ring, Flatten;
    }

    lemma SilentCases(d: nat)
      requires Shaped()
      ensures Quietens(curdelay, d) ==> StartsSilent(d)
      ensures curdelay < d || (d <= fragsize && nFbufs > 0) <==> StartsSilent(d)
    {
      hide Area;
    }

    lemma SilencesNext(epochs: seq<Epoch>, was: nat, delay: nat, cleared: bool)
      requires epochs != [] && epochs[|epochs| - 1].delay == was && Silences(epochs)
      requires Quietens(was, delay) ==> cleared
      ensures Silences(epochs + [Epoch(|input|, delay, cleared)])
    {
    }

    /** A new epoch in the history, for the delay now set. */
    ghost method OpenEpoch(was: nat, cleared: bool)
      requires Shaped() && Resting() && Faithful(input, output, epochs) && epochs[|epochs| - 1].delay == was
      requires Silences(epochs) && (Quietens(was, curdelay) ==> cleared)
      requires |Pending()| == curdelay && (cleared ==> Silent(Pending()))
      modifies `epochs
      ensures Valid() && epochs == old(epochs) + [Epoch(|input|, curdelay, cleared)]
    {
      hide Pending, Faithful, Awaits, Owed, Shaped, Silences, Quietens, Resting, Silent;
      SomeEpoch(input, output, epochs);
      EpochOpens(input, output, epochs, curdelay, cleared);
      SilentAwaits(input, curdelay, cleared, Pending());
      SilencesNext(epochs, was, curdelay, cleared);
      epochs := epochs + [Epoch(|input|, curdelay, cleared)];
    }

    lemma ValidParts()
      requires Valid()
      ensures Shaped() && Resting() && Faithful(input, output, epochs) && Silences(epochs)
      ensures epochs != [] && epochs[|epochs| - 1].delay == curdelay
    {
      SomeEpoch(input, output, epochs);
      hide Shaped, Resting, Faithful, Silences;
    }

    method SetDelay(newdelay: nat)
      requires Shaped() && Resting() && newdelay <= maxdelay && newdelay != curdelay
      modifies `curdelay, `curbuf, `nFbufs, `nRest, fbufs, rbuf, shortbuf
      ensures Shaped() && Resting() && curdelay == newdelay == |Pending()| && (nFbufs > 0 <==> newdelay > fragsize)
      ensures old(curdelay) < newdelay || (old(nFbufs) > 0 && newdelay <= fragsize) ==> Silent(Pending())
      ensures newdelay < old(curdelay) <= fragsize ==> Pending() == old(shortbuf[1][..])[..newdelay]
      ensures fragsize < newdelay < old(curdelay) ==> Pending() == old(LeftInRing(newdelay))
    {
      hide Pending, InMode, Sized, Apart, LeftInRing, Resting;
      if newdelay <= fragsize {
        ChangeToShort(newdelay);
      } else {
        ChangeToLong(newdelay);
      }
    }

    /** A new delay within the limits opens an epoch; any other request, and the present delay, do nothing. */
    method ChangeDelay(newdelay: nat)
      requires Valid()
      modifies `curdelay, `curbuf, `nFbufs, `nRest, `epochs, fbufs, rbuf, shortbuf
      ensures Valid()
      ensures epochs == if newdelay == old(curdelay) || newdelay > maxdelay then old(epochs)
                        else old(epochs) + [Epoch(|input|, newdelay, old(StartsSilent(newdelay)))]
      ensures old(curdelay) < newdelay <= maxdelay ==> epochs == old(epochs) + [Epoch(|input|, newdelay, true)]
      ensures old(nFbufs) > 0 && newdelay <= fragsize && newdelay <= maxdelay && newdelay != old(curdelay) ==>
                epochs == old(epochs) + [Epoch(|input|, newdelay, true)]
      ensures epochs == old(epochs) ==> curdelay == old(curdelay) && nFbufs == old(nFbufs)
      ensures epochs != old(epochs) ==> curdelay == newdelay && (nFbufs > 0 <==> newdelay > fragsize)
      ensures epochs == old(epochs) ==> Pending() == old(Pending())
      ensures newdelay < old(curdelay) <= fragsize && newdelay <= maxdelay ==>
                Pending() == old(shortbuf[1][..])[..newdelay]
      ensures fragsize < newdelay < old(curdelay) && newdelay <= maxdelay ==> Pending() == old(LeftInRing(newdelay))
    {
      hide *;
      ValidParts();
      if newdelay == curdelay || newdelay > maxdelay {
        return;
      }
      ghost var cleared, was := StartsSilent(newdelay), curdelay;
      SilentCases(newdelay);
      SetDelay(newdelay);
      OpenEpoch(was, cleared);
    }

    /** The history after one more fragment. */
    ghost method Record(fragment: seq<int>, out: seq<int>, waiting: seq<int>)
      requires Shaped() && Resting() && Faithful(input, output, epochs) && epochs[|epochs| - 1].delay == curdelay
      requires Awaits(input, epochs[|epochs| - 1], waiting) && |out| == |fragment| && Silences(epochs)
      requires out == (waiting + fragment)[..|fragment|] && Pending() == (waiting + fragment)[|fragment|..]
      modifies `input, `output
      ensures Valid()
      ensures input == old(input) + fragment && output == old(output) + out
    {
      hide Owed, Silences;
      QueueStep(input, epochs[|epochs| - 1], waiting, fragment);
      RunGrows(input, output, epochs, fragment, out);
      input, output := input + fragment, output + out;
    }

    /** One fragment through whichever mode the line is in; without a delay it passes unchanged. */
    method Pass(buf: array<int>, base: int, spacing: int)
      requires Valid() && !Own(buf) && Fits(buf.Length, base, spacing, fragsize)
      modifies `curbuf, `input, `output, fbufs, rbuf, shortbuf, buf
      ensures Valid()
      ensures input == old(input) + old(Samples(buf[..], base, spacing, fragsize))
      ensures output == old(output) + Samples(buf[..], base, spacing, fragsize)
      ensures KeptOutside(old(buf[..]), buf[..], base, spacing, 0, fragsize)
      ensures output + Pending() == old(output) + (old(Pending()) + old(Samples(buf[..], base, spacing, fragsize)))
    {
      hide Samples, Fits, KeptOutside, Pending, Faithful, Awaits, InMode, Sized;
      ghost var fragment, waiting := Samples(buf[..], base, spacing, fragsize), Pending();
      KeptAll(buf[..], base, spacing, fragsize);
      if nFbufs > 0 {
        UpdateDelayBuffer(buf, base, spacing);
      } else if nRest > 0 {
        UpdateDelayShortBuffer(buf, base, spacing);
      } else {
        NothingWaits();
      }
      Record(fragment, Samples(buf[..], base, spacing, fragsize), waiting);
    }

    /** The run as a whole: in every epoch the output is the input moved later by the delay, after what was in the
        buffers. */
    lemma EpochIsShift(k: nat)
      requires Valid() && k < |epochs|
      ensures var start, d, end := epochs[k].start, epochs[k].delay, End(epochs, |input|, k);
              0 <= start <= end <= |input| == |output| &&
              (start + d <= end ==> output[start + d..end] == input[start..end - d]) &&
              (epochs[k].cleared ==> forall p :: start <= p < end && p < start + d ==> output[p] == 0)
    {
      hide Faithful;
      Delayed(input, output, epochs, k);
    }

    /** And the first samples of the run are silent, and those of every epoch with a longer delay than the epoch before,
        or with a delay of at most one fragment after a longer one. */
    lemma SilentStart(k: nat, p: nat)
      requires Valid() && k < |epochs|
      requires k == 0 || epochs[k - 1].delay < epochs[k].delay || epochs[k].delay <= fragsize < epochs[k - 1].delay
      requires epochs[k].start <= p < End(epochs, |input|, k) && p < epochs[k].start + epochs[k].delay
      ensures p < |output| && output[p] == 0
    {
      hide Faithful, Awaits;
      Delayed(input, output, epochs, k);
    }

    lemma NothingWaits()
      requires Shaped() && nFbufs == 0 && nRest == 0
      ensures Pending() == []
    {
    }

    /** One fragment with the delay to use from it on, in place or into a buffer of its own. */
    method Update(buf: array<int>, base: int, spacing: int, delay: nat, target: array?<int>)
      requires Valid() && !Own(buf) && Fits(buf.Length, base, spacing, fragsize)
      requires target != null ==> target != buf && !Own(target) && fragsize <= target.Length
      modifies `curdelay, `curbuf, `nFbufs, `nRest, `epochs, `input, `output, fbufs, rbuf, shortbuf
      modifies if target != null then {target} else {buf}
      ensures Valid()
      ensures epochs == if delay == old(curdelay) || delay > maxdelay then old(epochs)
                        else old(epochs) + [Epoch(|old(input)|, delay, old(StartsSilent(delay)))]
      ensures old(curdelay) < delay <= maxdelay ==> epochs == old(epochs) + [Epoch(|old(input)|, delay, true)]
      ensures old(nFbufs) > 0 && delay <= fragsize && delay <= maxdelay && delay != old(curdelay) ==>
                epochs == old(epochs) + [Epoch(|old(input)|, delay, true)]
      ensures epochs == old(epochs) ==> curdelay == old(curdelay) && nFbufs == old(nFbufs)
      ensures epochs != old(epochs) ==> curdelay == delay && (nFbufs > 0 <==> delay > fragsize)
      ensures input == old(input) + old(Samples(buf[..], base, spacing, fragsize))
      ensures output == old(output) +
              if target != null then target[..fragsize] else Samples(buf[..], base, spacing, fragsize)
      ensures delay == old(curdelay) || delay > maxdelay ==>
                output + Pending() == old(output) + (old(Pending()) + old(Samples(buf[..], base, spacing, fragsize)))
      ensures delay < old(curdelay) <= fragsize && delay <= maxdelay ==>
                output + Pending() ==
                old(output) + (old(shortbuf[1][..])[..delay] + old(Samples(buf[..], base, spacing, fragsize)))
      ensures fragsize < delay < old(curdelay) && delay <= maxdelay ==>
                output + Pending() ==
                old(output) + (old(LeftInRing(delay)) + old(Samples(buf[..], base, spacing, fragsize)))
      ensures target == null ==> KeptOutside(old(buf[..]), buf[..], base, spacing, 0, fragsize)
      ensures target != null ==> target[fragsize..] == old(target[fragsize..])
    {
      hide Samples, Fits, KeptOutside, Valid, Pending, Shaped, LeftInRing;
      ChangeDelay(delay);
      if target != null {
        Gather(target, buf, base, spacing, fragsize);
        OwnBuffer(target[..], fragsize);
        Pass(target, 0, 1);
        OwnBuffer(target[..], fragsize);
      } else {
        Pass(buf, base, spacing);
      }
    }

    /** A line with initdelay samples of silence in it. A negative maxdelay fixes the delay. */
    constructor (fragmentSize: nat, initdelay: nat, maxdelay: int)
      requires fragmentSize > 0 && Accepts(fragmentSize, initdelay, maxdelay)
      ensures Valid() && fragsize == fragmentSize && this.maxdelay == maxdelay
      ensures fresh(fbufs) && fresh(rbuf) && fresh(shortbuf)
      ensures curdelay == if maxdelay == 0 then 0 else initdelay
      ensures nFbufs > 0 <==> curdelay >= fragsize && (if maxdelay > 0 then maxdelay else curdelay) > fragsize
      ensures input == [] && output == [] && epochs == [Epoch(0, curdelay, true)]
    {
      hide Area;
      var init, shortSize, longCount, restSize, rest, inUse := Sizes(fragmentSize, initdelay, maxdelay);
      fragsize := fragmentSize;
      this.maxdelay := maxdelay;
      curdelay, curbuf := init, 0;
      nRest, nFbufs := rest, inUse;
      var longs := NewBuffers(longCount, fragmentSize);
      var shorts := NewBuffers(2, shortSize);
      var restBuffer := new int[restSize](_ => 0);
      fbufs, shortbuf, rbuf := longs, shorts, restBuffer;
      input, output, epochs := [], [], [Epoch(0, init, true)];
      new;
      Starts(shortSize);
    }

    /** Freshly allocated buffers of the right sizes make a valid line. */
    lemma Starts(shortSize: nat)
      requires fragsize > 0 && Apart() && curbuf == 0
      requires nFbufs > 0 ==> 2 <= nFbufs <= |fbufs| && nRest < fragsize && nRest <= rbuf.Length &&
                              curdelay == Area(nFbufs - 1, fragsize) + nRest
      requires nFbufs == 0 ==> nRest == curdelay <= fragsize && nRest <= shortSize
      requires maxdelay > 0 ==> (if maxdelay < fragsize then maxdelay else fragsize) <= shortSize
      requires maxdelay > fragsize ==> maxdelay / fragsize + 1 <= |fbufs| && fragsize <= rbuf.Length
      requires forall i :: 0 <= i < |fbufs| ==> fbufs[i].Length == fragsize && Silent(fbufs[i][..])
      requires forall i :: 0 <= i < 2 ==> shortbuf[i].Length == shortSize && Silent(shortbuf[i][..])
      requires Silent(rbuf[..])
      requires input == [] && output == [] && epochs == [Epoch(0, curdelay, true)]
      ensures Valid()
    {
      assert Shaped() by {
        hide Area;
      }
      AllQuiet();
      hide Pending, Shaped;
      FreshlyAwaits([], curdelay, true, Pending());
    }

    lemma AllQuiet()
      requires Shaped() && Silent(rbuf[..]) && Silent(shortbuf[0][..]) && Silent(shortbuf[1][..])
      requires forall i :: 0 <= i < |fbufs| ==> Silent(fbufs[i][..])
      ensures |Pending()| == curdelay && Silent(Pending())
    {
      if nFbufs > 0 {
        QueueLength(Ring(), curbuf, rbuf[..nRest], fragsize);
        QueueSilent(Ring(), curbuf, rbuf[..nRest]);
      }
    }
  }

  /** A buffer of its own is a channel with spacing one. */
  lemma OwnBuffer(s: seq<int>, n: nat)
    requires n <= |s|
    ensures Fits(|s|, 0, 1, n) && Samples(s, 0, 1, n) == s[..n]
    ensures forall t: seq<int> :: KeptOutside(s, t, 0, 1, 0, n) ==> |t| == |s| && t[n..] == s[n..]
  {
  }
}
