/**
 The host plug-in's re-blocking loop: chunks of any size go in, whole blocks go through the filter, and
 what comes out does not depend on how the stream was cut.
 */
module Host {
  import opened Arithmetic
  import opened Sums
  import opened Fir
  import opened Interleave
  import opened Coefficients
  import opened ChannelStep
  import opened Engine

  // ---------------------------------------------------------------- what a loaded filter does

  lemma ScaledResponse(c: seq<real>, scale: real, x: seq<real>, t: int)
    ensures Response(ScaledTaps(c, scale, |c|), x, t) == scale * Response(c, x, t)
  {
    var f, g := Tap(ScaledTaps(c, scale, |c|), x, t), Tap(c, x, t);
    forall k | 0 <= k < |c| ensures f(k) == scale * g(k) {
      MoveScale(c[k], scale, At(x, t - k));
    }
    SumScale(|c|, scale, g, f);
  }

  lemma MoveScale(c: real, s: real, x: real)
    ensures (c * s) * x == s * (c * x)
  {
  }

  /** The coefficients that fit into so many taps. */
  function Cut(c: seq<real>, room: nat): (k: seq<real>)
    ensures |k| <= room && k <= c && (|c| <= room ==> k == c)
  {
    if |c| <= room then c else c[..room]
  }

  /** Padded to whole blocks, the coefficients make the same response. */
  lemma PaddedFilter(c: seq<real>, scale: real, total: nat, x: seq<real>, q: int)
    requires |c| <= total
    ensures Response(ScaledTaps(c, scale, total), x, q) == scale * Response(c, x, q)
  {
    assert ScaledTaps(c, scale, total) == ScaledTaps(c, scale, |c|) + Zeros(total - |c|) by {
      forall k | |c| <= k < total ensures ScaledTaps(c, scale, total)[k] == 0.0 {
        assert At(c, k) == 0.0;
      }
    }
    hide Response;
    PaddedTaps(ScaledTaps(c, scale, |c|), total - |c|, x, q);
    ScaledResponse(c, scale, x, q);
  }

  lemma SameTaps(c: seq<real>, scale: real, total: nat, room: nat)
    requires room <= total
    ensures ScaledTaps(c, scale, total)[..room] == ScaledTaps(Cut(c, room), scale, room)
  {
    forall k | 0 <= k < room
      ensures ScaledTaps(c, scale, total)[..room][k] == ScaledTaps(Cut(c, room), scale, room)[k]
    {
      assert At(c, k) == At(Cut(c, room), k);
    }
  }

  /** However many blocks were loaded and however long the response is: the filter is the direct-form filter of the
      coefficients that fit into the blocks loaded and into the filter's own, times the three scales. */
  lemma TruncatedFilter(p: Plan, c: seq<real>, scale: real, blocks: nat, x: seq<real>, q: int)
    ensures Filtered(p, ScaledTaps(c, scale, blocks * p.len), blocks, x, q)
         == p.outScale * (p.inScale * (scale * Response(Cut(c, Partitions(blocks, p.nBlocks) * p.len), x, q)))
  {
    var k := Partitions(blocks, p.nBlocks);
    RowsUpTo(k, blocks, p.len);
    CutFilter(c, scale, blocks * p.len, p.len, k, x, q);
  }

  lemma CutFilter(c: seq<real>, scale: real, total: nat, len: nat, k: nat, x: seq<real>, q: int)
    requires k * len <= total
    ensures Response(Effective(ScaledTaps(c, scale, total), len, k), x, q) == scale * Response(Cut(c, k * len), x, q)
  {
    SameTaps(c, scale, total, k * len);
    PaddedFilter(Cut(c, k * len), scale, k * len, x, q);
  }

  /** With room for all of them it is the filter of all coefficients. */
  lemma LoadedFilter(p: Plan, c: seq<real>, scale: real, blocks: nat, x: seq<real>, q: int)
    requires |c| <= blocks * p.len && |c| <= p.nBlocks * p.len
    ensures Filtered(p, ScaledTaps(c, scale, blocks * p.len), blocks, x, q)
         == p.outScale * (p.inScale * (scale * Response(c, x, q)))
  {
    hide Filtered;
    TruncatedFilter(p, c, scale, blocks, x, q);
  }

  lemma WholeFrames(size: nat, channels: nat)
    requires channels > 0 && size % channels == 0
    ensures size == (size / channels) * channels
  {
  }

  /** So many blocks as the length rounded up takes are the fewest that lose no coefficient. */
  lemma FewestBlocks(c: seq<real>, len: nat, multiple: nat, k: nat)
    requires len > 0 && c != [] && IsNextMultiple(multiple, |c|, len)
    ensures Cut(c, k * len) == c <==> k >= multiple / len
  {
    WholeFrames(multiple, len);
    if k >= multiple / len {
      RowsUpTo(multiple / len, k, len);
    } else if |c| <= k * len {
      ModOfMultiple(len, k);
      assert len * k == k * len;
      if k > 0 {
        RowsUpTo(1, k, len);
      }
      RowInside(k, multiple / len, len);
      assert false;
    }
  }

  /** With these blocks, if the filter has them, it is the filter of all coefficients. */
  lemma EnoughBlocks(p: Plan, c: seq<real>, scale: real, multiple: nat, x: seq<real>, q: int)
    requires p.len > 0 && IsNextMultiple(multiple, |c|, p.len) && multiple / p.len <= p.nBlocks
    ensures Filtered(p, ScaledTaps(c, scale, multiple), multiple / p.len, x, q)
         == p.outScale * (p.inScale * (scale * Response(c, x, q)))
  {
    hide Filtered;
    WholeFrames(multiple, p.len);
    RowsUpTo(multiple / p.len, p.nBlocks, p.len);
    LoadedFilter(p, c, scale, multiple / p.len, x, q);
  }

  lemma UnitResponse(h: seq<real>, q: nat)
    ensures Response(h, [1.0], q) == At(h, q)
  {
    var f := Tap(h, [1.0], q);
    forall k | 0 <= k < |h| && k != q ensures f(k) == 0.0 {
      assert At([1.0], q - k) == 0.0;
    }
    if q < |h| {
      SumOnly(|h|, q, f);
      assert At([1.0], 0) == 1.0;
    } else {
      SumZero(|h|, f);
    }
  }

  /** Without room for it a tap is lost: a unit impulse does not bring it out. */
  lemma LostTap(p: Plan, c: seq<real>, scale: real, blocks: nat, q: nat)
    requires Partitions(blocks, p.nBlocks) * p.len <= q < |c|
    ensures Filtered(p, ScaledTaps(c, scale, blocks * p.len), blocks, [1.0], q) == 0.0
    ensures Response(c, [1.0], q) == c[q]
  {
    var room := Partitions(blocks, p.nBlocks) * p.len;
    UnitResponse(c, q);
    UnitResponse(Cut(c, room), q);
    hide Filtered, Response;
    TruncatedFilter(p, c, scale, blocks, [1.0], q);
  }

  // ---------------------------------------------------------------- streams

  /** The first `blocks` blocks of the filtered interleaved stream. */
  function Stream(p: Plan, channels: nat, taps: seq<seq<real>>, stored: seq<nat>, fed: seq<real>, blocks: nat)
    : (s: seq<real>)
    requires channels > 0 && |taps| == |stored| == channels
    ensures |s| == blocks * (p.len * channels)
  {
    seq(blocks * (p.len * channels), i requires 0 <= i =>
      Filtered(p, taps[i % channels], stored[i % channels], Channel(fed, i % channels, channels), i / channels))
  }

  lemma PositionShift(n: nat, i: nat, a: nat, channels: nat)
    ensures Position(n, a + i, channels) == a * channels + Position(n, i, channels)
  {
  }

  lemma FramesAdd(size: nat, more: nat, channels: nat)
    requires channels > 0 && size % channels == 0 && more % channels == 0
    ensures (size + more) % channels == 0 && (size + more) / channels == size / channels + more / channels
  {
    var a, b := size / channels, more / channels;
    WholeFrames(size, channels);
    WholeFrames(more, channels);
    FramesSum(a, b, channels);
    FramesOf(a + b, channels);
  }

  lemma FramesSum(a: int, b: int, channels: int)
    ensures (a + b) * channels == a * channels + b * channels
  {
  }

  lemma GrownAt(fed: seq<real>, more: seq<real>, n: nat, channels: nat, a: nat, b: nat, i: nat)
    requires n < channels && |fed| == a * channels && |more| == b * channels && i < a + b
    ensures i < a ==> At(fed + more, Position(n, i, channels)) == At(fed, Position(n, i, channels))
    ensures i >= a ==> At(fed + more, Position(n, i, channels)) == At(more, Position(n, i - a, channels))
  {
    hide Position;
    if i < a {
      PositionInside(n, i, channels, a);
    } else {
      PositionInside(n, i - a, channels, b);
      PositionShift(n, i - a, a, channels);
    }
  }

  /** Feeding more frames extends every channel. */
  lemma ChannelGrows(fed: seq<real>, more: seq<real>, n: nat, channels: nat)
    requires n < channels && |fed| % channels == 0 && |more| % channels == 0
    ensures Channel(fed + more, n, channels) == Channel(fed, n, channels) + Channel(more, n, channels)
    ensures |fed + more| % channels == 0
  {
    FramesAdd(|fed|, |more|, channels);
    var a, b := |fed| / channels, |more| / channels;
    assert |fed| == a * channels && |more| == b * channels;
    hide Position, At;
    forall i | 0 <= i < a + b
      ensures Channel(fed + more, n, channels)[i] == (Channel(fed, n, channels) + Channel(more, n, channels))[i]
    {
      GrownAt(fed, more, n, channels, a, b, i);
    }
  }

  /** What has been emitted stays right when more is fed. */
  lemma StreamGrows(p: Plan, channels: nat, taps: seq<seq<real>>, stored: seq<nat>,
                    fed: seq<real>, more: seq<real>, blocks: nat)
    requires channels > 0 && |taps| == |stored| == channels
    requires |fed| % channels == 0 && |more| % channels == 0
    requires blocks * (p.len * channels) <= |fed|
    ensures Stream(p, channels, taps, stored, fed + more, blocks) == Stream(p, channels, taps, stored, fed, blocks)
  {
    hide Channel, Response, Effective;
    forall i | 0 <= i < blocks * (p.len * channels)
      ensures Stream(p, channels, taps, stored, fed + more, blocks)[i]
           == Stream(p, channels, taps, stored, fed, blocks)[i]
    {
      var n := i % channels;
      ChannelGrows(fed, more, n, channels);
      FrameBound(i, channels, |fed|);
      Causal(Effective(taps[n], p.len, Partitions(stored[n], p.nBlocks)), Channel(fed, n, channels),
             Channel(more, n, channels), i / channels);
    }
  }

  lemma FrameBound(i: nat, channels: nat, size: nat)
    requires channels > 0 && i < size && size % channels == 0
    ensures i / channels < size / channels
  {
  }

  /** Sample j of block `blocks` is sample j / channels of that block of channel j % channels. */
  lemma BlockIndex(blocks: nat, len: nat, channels: nat, j: nat)
    requires channels > 0 && j < len * channels
    ensures (blocks * (len * channels) + j) % channels == j % channels
    ensures (blocks * (len * channels) + j) / channels == blocks * len + j / channels
  {
    var n, u := j % channels, j / channels;
    IndexForm(blocks, len, channels, j, n, u);
    hide Position;
    PositionInside(n, blocks * len + u, channels, blocks * len + u + 1);
  }

  lemma IndexForm(blocks: nat, len: nat, channels: nat, j: nat, n: nat, u: nat)
    requires j == u * channels + n
    ensures blocks * (len * channels) + j == Position(n, blocks * len + u, channels)
  {
    Regroup(blocks, len, channels);
    FramesSum(blocks * len, u, channels);
  }

  lemma Regroup(a: nat, b: nat, c: nat)
    ensures a * (b * c) == (a * b) * c
  {
  }

  /** One more block of output extends the stream. */
  lemma StreamNext(p: Plan, channels: nat, taps: seq<seq<real>>, stored: seq<nat>,
                   fed: seq<real>, blocks: nat, out: seq<real>)
    requires channels > 0 && |taps| == |stored| == channels && |out| == p.len * channels
    requires forall n, u :: 0 <= n < channels && 0 <= u < p.len ==>
               0 <= Position(n, u, channels) < |out| &&
               out[Position(n, u, channels)]
               == Filtered(p, taps[n], stored[n], Channel(fed, n, channels), blocks * p.len + u)
    ensures Stream(p, channels, taps, stored, fed, blocks + 1) == Stream(p, channels, taps, stored, fed, blocks) + out
  {
    hide Filtered, Channel, Position;
    var size := p.len * channels;
    assert (blocks + 1) * size == blocks * size + size;
    forall i | 0 <= i < (blocks + 1) * size
      ensures Stream(p, channels, taps, stored, fed, blocks + 1)[i]
           == (Stream(p, channels, taps, stored, fed, blocks) + out)[i]
    {
      if i >= blocks * size {
        var j := i - blocks * size;
        BlockIndex(blocks, p.len, channels, j);
        PositionOf(j, channels, p.len);
      }
    }
  }

  class DspBfir {
    const filter: BruteFir
    const inbuf: array<real>
    const outbuf: array<real>

    /** Frames waiting in inbuf. */
    var bufferCount: nat

    /** Everything ever fed in and emitted, interleaved. */
    ghost var fed: seq<real>
    ghost var emitted: seq<real>

    /** Samples in one block of all channels. */
    function BlockSize(): nat {
      filter.plan.len * filter.nChannels
    }

    function BlockStart(blocks: nat): nat {
      blocks * BlockSize()
    }

    /** Samples in some frames of all channels. */
    function Span(frames: nat): nat {
      frames * filter.nChannels
    }

    ghost function Stored(): (s: seq<nat>)
      requires |filter.coeffs| == filter.nChannels
      reads filter
      ensures |s| == filter.nChannels && forall n :: 0 <= n < |s| ==> s[n] == |filter.coeffs[n]|
    {
      var c := filter.coeffs;
      seq(|c|, n requires 0 <= n < |c| => |c[n]|)
    }

    /** The blocks run so far are the stream's first blocks, the buffer holds the rest of the stream, and
        what was emitted is the filtered stream. */
    ghost predicate Holding()
      reads this, filter, filter.repr, inbuf, outbuf
    {
      && filter.Valid() && (filter.initialized ==> filter.Ready())
      && inbuf.Length == outbuf.Length == BlockSize()
      && inbuf !in filter.repr && outbuf !in filter.repr && inbuf != outbuf
      && bufferCount <= filter.plan.len
      && |fed| == BlockStart(filter.blockcounter) + Span(bufferCount)
      && |fed| % filter.nChannels == 0
      && Span(bufferCount) <= BlockSize()
      && inbuf[..Span(bufferCount)] == fed[BlockStart(filter.blockcounter)..]
      && (forall n :: 0 <= n < filter.nChannels ==>
            filter.inputs[n] == Channel(fed[..BlockStart(filter.blockcounter)], n, filter.nChannels))
      && emitted == Stream(filter.plan, filter.nChannels, filter.taps, Stored(), fed, filter.blockcounter)
    }

    ghost predicate Valid()
      reads this, filter, filter.repr, inbuf, outbuf
    {
      Holding() && bufferCount < filter.plan.len
    }

    constructor (filter: BruteFir)
      requires filter.Valid() && (filter.initialized ==> filter.Ready()) && filter.blockcounter == 0
      requires forall n :: 0 <= n < filter.nChannels ==> filter.inputs[n] == []
      ensures Valid() && this.filter == filter && fed == [] && emitted == []
      ensures fresh(inbuf) && fresh(outbuf)
    {
      assert filter.Shaped();
      hide BruteFir.Valid, BruteFir.Shaped;
      this.filter := filter;
      inbuf := new real[filter.plan.len * filter.nChannels];
      outbuf := new real[filter.plan.len * filter.nChannels];
      bufferCount, fed, emitted := 0, [], [];
    }

    /** Copying samples into the buffer. */
    method CopyIn(chunk: seq<real>, src: nat, dst: nat, count: nat)
      requires src + count <= |chunk| && dst + count <= inbuf.Length
      modifies inbuf
      ensures inbuf[..dst + count] == old(inbuf[..dst]) + chunk[src..src + count]
    {
      for i := 0 to count
        invariant inbuf[..dst + i] == old(inbuf[..dst]) + chunk[src..src + i]
      {
        inbuf[dst + i] := chunk[src + i];
        assert inbuf[..dst + (i + 1)] == inbuf[..dst + i] + [chunk[src + i]];
      }
    }

    /** Taking some frames of the chunk into the buffer. */
    method Fill(chunk: seq<real>, src: nat, todo: nat)
      requires Holding() && bufferCount + todo <= filter.plan.len
      requires src + Span(todo) <= |chunk|
      modifies `bufferCount, `fed, inbuf
      ensures Holding() && bufferCount == old(bufferCount) + todo
      ensures fed == old(fed) + chunk[src..src + Span(todo)]
    {
      assert filter.Shaped();
      hide BruteFir.Valid, BruteFir.Ready, BruteFir.Shaped, Stream, Channel, Stored, Span, BlockStart, BlockSize;
      Sizes(bufferCount, todo, filter.plan.len);
      var dst, count := Span(bufferCount), Span(todo);
      ghost var piece := chunk[src..src + count];
      Filled(piece);
      CopyIn(chunk, src, dst, count);
      bufferCount := bufferCount + todo;
      fed := fed + piece;
    }

    lemma Sizes(held: nat, todo: nat, len: nat)
      requires held + todo <= len && filter.nChannels > 0
      ensures Span(held + todo) == Span(held) + Span(todo) <= Span(len)
      ensures Span(todo) % filter.nChannels == 0
      ensures Span(filter.plan.len) == BlockSize()
    {
      var channels := filter.nChannels;
      assert (held + todo) * channels == held * channels + todo * channels;
      RowsUpTo(held + todo, len, channels);
      FramesOf(todo, channels);
    }

    lemma Filled(piece: seq<real>)
      requires filter.nChannels > 0 && |filter.coeffs| == |filter.taps| == filter.nChannels
      requires |piece| % filter.nChannels == 0 && |fed| % filter.nChannels == 0
      requires BlockStart(filter.blockcounter) <= |fed|
      ensures Stream(filter.plan, filter.nChannels, filter.taps, Stored(), fed + piece, filter.blockcounter)
           == Stream(filter.plan, filter.nChannels, filter.taps, Stored(), fed, filter.blockcounter)
      ensures |fed + piece| % filter.nChannels == 0
    {
      hide Stream, Stored;
      StreamGrows(filter.plan, filter.nChannels, filter.taps, Stored(), fed, piece, filter.blockcounter);
      FramesAdd(|fed|, |piece|, filter.nChannels);
    }

    /** What one run of the filter on the last block of fed gives. */
    lemma AfterRun(blocks: nat, before: seq<seq<real>>, out: seq<real>)
      requires filter.Shaped() && |fed| == (blocks + 1) * BlockSize() && |out| == BlockSize()
      requires |filter.coeffs| == |filter.taps| == |filter.inputs| == |before| == filter.nChannels
      requires forall n :: 0 <= n < filter.nChannels ==>
                 before[n] == Channel(fed[..BlockStart(blocks)], n, filter.nChannels)
      requires forall n :: 0 <= n < filter.nChannels ==>
                 filter.inputs[n] == before[n] + Channel(fed[BlockStart(blocks)..], n, filter.nChannels)
      requires forall n :: 0 <= n < filter.nChannels ==>
                 filter.Emitted(out, n, filter.taps[n], |filter.coeffs[n]|, filter.inputs[n], blocks)
      ensures forall n :: 0 <= n < filter.nChannels ==> filter.inputs[n] == Channel(fed, n, filter.nChannels)
      ensures Stream(filter.plan, filter.nChannels, filter.taps, Stored(), fed, blocks + 1)
           == Stream(filter.plan, filter.nChannels, filter.taps, Stored(), fed, blocks) + out
    {
      hide Channel, Filtered, Stream, Position;
      var cut := BlockStart(blocks);
      assert (blocks + 1) * BlockSize() == cut + BlockSize();
      assert fed == fed[..cut] + fed[cut..];
      WholeBlocks(blocks);
      WholeBlocks(1);
      forall n | 0 <= n < filter.nChannels ensures filter.inputs[n] == Channel(fed, n, filter.nChannels) {
        ChannelGrows(fed[..cut], fed[cut..], n, filter.nChannels);
      }
      forall n, u | 0 <= n < filter.nChannels && 0 <= u < filter.plan.len
        ensures 0 <= Position(n, u, filter.nChannels) < |out|
        ensures out[Position(n, u, filter.nChannels)]
             == Filtered(filter.plan, filter.taps[n], Stored()[n], Channel(fed, n, filter.nChannels),
                         blocks * filter.plan.len + u)
      {
        assert filter.Emitted(out, n, filter.taps[n], |filter.coeffs[n]|, filter.inputs[n], blocks);
      }
      StreamNext(filter.plan, filter.nChannels, filter.taps, Stored(), fed, blocks, out);
    }

    lemma WholeBlocks(blocks: nat)
      requires filter.nChannels > 0
      ensures BlockStart(blocks) % filter.nChannels == 0
    {
      Regroup(blocks, filter.plan.len, filter.nChannels);
      FramesOf(blocks * filter.plan.len, filter.nChannels);
    }

    /** Running the filter on a full buffer. */
    method RunBlock() returns (out: seq<real>)
      requires Holding() && bufferCount == filter.plan.len && filter.initialized
      modifies `bufferCount, `emitted, filter, filter.repr, outbuf
      ensures Holding() && bufferCount == 0
      ensures emitted == old(emitted) + out && filter.initialized
      ensures filter.taps == old(filter.taps) && filter.coeffs == old(filter.coeffs)
    {
      assert filter.Shaped();
      ghost var blocks, before := filter.blockcounter, filter.inputs;
      assert |before| == |filter.coeffs| == |filter.taps| == filter.nChannels;
      hide BruteFir.Valid, BruteFir.Shaped, Stream, Channel, BruteFir.Emitted;
      assert inbuf[..] == fed[BlockStart(blocks)..];
      assert BlockStart(blocks + 1) == BlockStart(blocks) + BlockSize();
      filter.Run(inbuf, outbuf);
      filter.Counts();
      out := outbuf[..];
      AfterRun(blocks, before, out);
      emitted := emitted + out;
      bufferCount := 0;
      assert fed[..BlockStart(blocks + 1)] == fed;
    }

    /** What is left to take: sampleCount frames from src on. */
    ghost predicate Left(chunk: seq<real>, src: nat, sampleCount: nat) {
      src <= |chunk| && src + Span(sampleCount) == |chunk|
    }

    /** One pass of the loop: fill as much as fits, run when full. */
    method TakeSome(chunk: seq<real>, src: nat, sampleCount: nat) returns (src': nat, sampleCount': nat, out: seq<real>)
      requires Valid() && filter.initialized && sampleCount > 0
      requires Left(chunk, src, sampleCount)
      modifies `bufferCount, `emitted, `fed, inbuf, filter, filter.repr, outbuf
      ensures Valid() && filter.initialized
      ensures sampleCount' < sampleCount && src <= src' <= |chunk| && Left(chunk, src', sampleCount')
      ensures fed == old(fed) + chunk[src..src']
      ensures emitted == old(emitted) + out
      ensures filter.taps == old(filter.taps) && filter.coeffs == old(filter.coeffs)
    {
      assert filter.Shaped();
      hide Holding, BruteFir.Shaped, Span, BlockSize, BlockStart;
      var todo := filter.plan.len - bufferCount;
      if todo > sampleCount {
        todo := sampleCount;
      }
      Sizes(todo, sampleCount - todo, sampleCount);
      Fill(chunk, src, todo);
      src' := src + Span(todo);
      sampleCount' := sampleCount - todo;
      out := [];
      if bufferCount == filter.plan.len {
        out := RunBlock();
      }
    }

    lemma WholeChunk(chunk: seq<real>)
      requires filter.nChannels > 0 && |chunk| % filter.nChannels == 0
      ensures Left(chunk, 0, |chunk| / filter.nChannels)
    {
    }

    lemma NothingLeft(chunk: seq<real>, src: nat)
      requires Left(chunk, src, 0)
      ensures chunk[..src] == chunk
    {
    }

    /** The loop over a chunk. */
    method TakeAll(chunk: seq<real>, frames: nat) returns (out: seq<real>)
      requires Valid() && filter.initialized && Left(chunk, 0, frames)
      modifies `bufferCount, `emitted, `fed, inbuf, filter, filter.repr, outbuf
      ensures Valid() && filter.initialized
      ensures fed == old(fed) + chunk && emitted == old(emitted) + out
      ensures filter.taps == old(filter.taps) && filter.coeffs == old(filter.coeffs)
    {
      hide Valid, Left;
      out := [];
      var sampleCount, src := frames, 0;
      ghost var fed0, emitted0 := fed, emitted;
      while sampleCount > 0
        invariant Valid() && filter.initialized
        invariant src <= |chunk| && Left(chunk, src, sampleCount)
        invariant fed == fed0 + chunk[..src] && emitted == emitted0 + out
        invariant filter.taps == old(filter.taps) && filter.coeffs == old(filter.coeffs)
      {
        ghost var from := src;
        var block;
        src, sampleCount, block := TakeSome(chunk, src, sampleCount);
        assert chunk[..from] + chunk[from..src] == chunk[..src];
        out := out + block;
      }
      NothingLeft(chunk, src);
    }

    /** One chunk of whole frames: everything in it is taken, and every block it completes is emitted. An
        uninitialised filter takes and emits nothing. */
    method OnChunk(chunk: seq<real>) returns (out: seq<real>)
      requires Valid() && |chunk| % filter.nChannels == 0
      modifies `bufferCount, `emitted, `fed, inbuf, filter, filter.repr, outbuf
      ensures Valid() && filter.initialized == old(filter.initialized)
      ensures fed == old(fed) + if filter.initialized then chunk else []
      ensures emitted == old(emitted) + out
      ensures filter.taps == old(filter.taps) && filter.coeffs == old(filter.coeffs)
    {
      assert filter.nChannels > 0;
      hide Valid, Left;
      out := [];
      if filter.initialized {
        WholeChunk(chunk);
        out := TakeAll(chunk, |chunk| / filter.nChannels);
      }
    }
  }

  // ---------------------------------------------------------------- what a listener can rely on

  lemma {:induction false} SameQuotient(a: nat, b: nat, size: nat, r: nat, s: nat)
    requires r < size && s < size && a * size + r == b * size + s
    ensures a == b && r == s
  {
    if a < b {
      RowInside(a, b, size);
      assert false;
    } else if b < a {
      RowInside(b, a, size);
      assert false;
    }
  }

  lemma PendingInside(count: nat, len: nat, channels: nat)
    requires count < len && channels > 0
    ensures count * channels < len * channels
  {
  }

  /** However a stream was cut into chunks, two plug-ins with the same filter that took the same stream
      emitted the same samples and hold the same rest. */
  lemma ChunkIndependence(a: DspBfir, b: DspBfir)
    requires a.Valid() && b.Valid() && a.fed == b.fed
    requires a.filter.plan == b.filter.plan && a.filter.nChannels == b.filter.nChannels
    requires a.filter.taps == b.filter.taps && a.Stored() == b.Stored()
    ensures a.emitted == b.emitted && a.bufferCount == b.bufferCount
    ensures var held := a.bufferCount * a.filter.nChannels;
            held <= a.inbuf.Length && held <= b.inbuf.Length && a.inbuf[..held] == b.inbuf[..held]
  {
    hide BruteFir.Valid, Stream, Channel;
    assert a.filter.nChannels > 0 by {
      a.filter.Counts();
    }
    PendingInside(a.bufferCount, a.filter.plan.len, a.filter.nChannels);
    PendingInside(b.bufferCount, a.filter.plan.len, a.filter.nChannels);
    SameQuotient(a.filter.blockcounter, b.filter.blockcounter, a.BlockSize(),
                 a.bufferCount * a.filter.nChannels, b.bufferCount * a.filter.nChannels);
    SameCount(a.bufferCount, b.bufferCount, a.filter.nChannels);
  }

  lemma SameCount(a: nat, b: nat, channels: nat)
    requires channels > 0 && a * channels == b * channels
    ensures a == b
  {
  }

  lemma OnlyChannel(x: seq<real>)
    ensures Channel(x, 0, 1) == x
  {
    forall i | 0 <= i < |x| ensures Channel(x, 0, 1)[i] == x[i] {
      assert Position(0, i, 1) == i;
    }
  }

  lemma StreamAt(p: Plan, channels: nat, taps: seq<seq<real>>, stored: seq<nat>,
                 fed: seq<real>, blocks: nat, n: nat, i: nat)
    requires |taps| == |stored| == channels && n < channels && i < blocks * p.len
    ensures blocks * (p.len * channels) == (blocks * p.len) * channels
    ensures At(Stream(p, channels, taps, stored, fed, blocks), Position(n, i, channels))
         == Filtered(p, taps[n], stored[n], Channel(fed, n, channels), i)
  {
    hide Filtered, Channel, Position;
    Regroup(blocks, p.len, channels);
    PositionInside(n, i, channels, blocks * p.len);
  }

  /** A channel of the filtered stream is the filtered stream of that channel alone. */
  lemma StreamOfChannel(p: Plan, channels: nat, taps: seq<seq<real>>, stored: seq<nat>,
                        fed: seq<real>, blocks: nat, n: nat)
    requires |taps| == |stored| == channels && n < channels
    ensures Channel(Stream(p, channels, taps, stored, fed, blocks), n, channels)
         == Stream(p, 1, [taps[n]], [stored[n]], Channel(fed, n, channels), blocks)
  {
    var whole := Stream(p, channels, taps, stored, fed, blocks);
    var x := Channel(fed, n, channels);
    var alone := Stream(p, 1, [taps[n]], [stored[n]], x, blocks);
    Regroup(blocks, p.len, channels);
    FramesOf(blocks * p.len, channels);
    OnlyChannel(x);
    OnlyChannel(alone);
    hide Filtered, Position, Stream;
    forall i | 0 <= i < blocks * p.len ensures Channel(whole, n, channels)[i] == alone[i] {
      StreamAt(p, channels, taps, stored, fed, blocks, n, i);
      StreamAt(p, 1, [taps[n]], [stored[n]], x, blocks, 0, i);
    }
  }

  lemma SameBlocks(a: nat, b: nat, len: nat, channels: nat, r: nat, s: nat, size: nat)
    requires r < len && s < len && channels > 0
    requires size == a * (len * channels) + r * channels && size / channels == b * len + s
    ensures a == b && r == s
  {
    Regroup(a, len, channels);
    assert (a * len + r) * channels == (a * len) * channels + r * channels;
    FramesOf(a * len + r, channels);
    SameQuotient(a, b, len, r, s);
  }

  /** Channels are independent: a run over several channels emits on each what a plug-in with that channel alone
      emits, however the streams were cut. */
  lemma ChannelAlone(d: DspBfir, s: DspBfir, n: nat)
    requires d.Valid() && s.Valid() && n < d.filter.nChannels && s.filter.nChannels == 1
    requires |d.filter.taps| == |d.filter.coeffs| == d.filter.nChannels && |s.filter.taps| == |s.filter.coeffs| == 1
    requires s.filter.plan == d.filter.plan && s.filter.taps[0] == d.filter.taps[n]
    requires |s.filter.coeffs[0]| == |d.filter.coeffs[n]|
    requires s.fed == Channel(d.fed, n, d.filter.nChannels)
    ensures s.emitted == Channel(d.emitted, n, d.filter.nChannels)
    ensures s.filter.blockcounter == d.filter.blockcounter && s.bufferCount == d.bufferCount
  {
    var p, channels := d.filter.plan, d.filter.nChannels;
    assert s.Stored() == [d.Stored()[n]] && s.filter.taps == [d.filter.taps[n]];
    hide BruteFir.Valid, Stream;
    assert |s.fed| == |d.fed| / channels;
    assert |d.fed| == d.filter.blockcounter * (p.len * channels) + d.bufferCount * channels;
    assert |s.fed| == s.filter.blockcounter * p.len + s.bufferCount;
    SameBlocks(d.filter.blockcounter, s.filter.blockcounter, p.len, channels, d.bufferCount, s.bufferCount, |d.fed|);
    StreamOfChannel(p, channels, d.filter.taps, d.Stored(), d.fed, d.filter.blockcounter, n);
  }

  /** Sample i of what was emitted is the direct-form filter of its channel with the coefficients there is room for,
      and only less than one block of frames is still waiting. */
  lemma EmittedIsFir(d: DspBfir, c: seq<seq<real>>, scale: real, i: nat)
    requires d.Valid() && |c| == d.filter.nChannels && i < |d.emitted|
    requires |d.filter.taps| == |d.filter.coeffs| == d.filter.nChannels
    requires forall n :: 0 <= n < d.filter.nChannels ==>
               d.filter.taps[n] == ScaledTaps(c[n], scale, |d.filter.coeffs[n]| * d.filter.plan.len)
    ensures d.filter.nChannels > 0
    ensures var n, p := i % d.filter.nChannels, d.filter.plan;
            var room := Partitions(|d.filter.coeffs[n]|, p.nBlocks) * p.len;
            var x := Channel(d.fed, n, d.filter.nChannels);
            d.emitted[i] == p.outScale * (p.inScale * (scale * Response(Cut(c[n], room), x, i / d.filter.nChannels)))
    ensures |d.fed| - |d.emitted| < d.BlockSize()
  {
    hide BruteFir.Valid, Channel, Response, ScaledTaps, Filtered, Cut;
    d.filter.Counts();
    var channels := d.filter.nChannels;
    PendingInside(d.bufferCount, d.filter.plan.len, channels);
    var n := i % channels;
    TruncatedFilter(d.filter.plan, c[n], scale, |d.filter.coeffs[n]|, Channel(d.fed, n, channels), i / channels);
  }
}
