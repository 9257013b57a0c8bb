/**
 The plug-in from its set-up to the last chunk: the filter is built as long as the response, and what is emitted over
 the whole stream is the direct-form filter of all coefficients.
 */
module Playback {
  import opened HalfComplex
  import opened PackedLayout
  import opened Fir
  import opened Interleave
  import opened Coefficients
  import opened ChannelStep
  import opened Engine
  import opened Host

  /** Every channel n is loaded with all of c[n]. */
  ghost predicate Loaded(d: DspBfir, c: seq<seq<real>>, scale: real)
    reads d.filter
  {
    var f := d.filter;
    f.initialized && |c| == |f.taps| == |f.coeffs| == f.nChannels &&
    forall n :: 0 <= n < |c| ==> |f.coeffs[n]| == f.plan.nBlocks && LoadedWith(f.plan, f.taps[n], c[n], scale)
  }

  ghost predicate LoadedWith(p: Plan, taps: seq<real>, c: seq<real>, scale: real) {
    |c| <= p.nBlocks * p.len && taps == ScaledTaps(c, scale, p.nBlocks * p.len)
  }

  /** As many blocks as the response takes, and all of them loaded. */
  method SetUp(table: Table, len: nat, inScale: real, outScale: real, c: seq<seq<real>>, length: nat, scale: real)
    returns (d: DspBfir)
    requires table.Valid() && len > 0 && table.n == 2 * len && Packable(2 * len)
    requires c != [] && forall n :: 0 <= n < |c| ==> |c[n]| == length
    ensures d.Valid() && Loaded(d, c, scale) && d.fed == [] && d.emitted == []
    ensures var p := d.filter.plan;
            p.table == table && p.len == len && p.inScale == inScale && p.outScale == outScale &&
            IsNextMultiple(p.nBlocks * len, length, len) && d.filter.nChannels == |c|
    ensures fresh(d) && fresh(d.inbuf) && fresh(d.outbuf) && fresh(d.filter) && fresh(d.filter.repr)
  {
    var multiple := GetNextMultiple(length, len);
    var blocks := multiple / len;
    BlocksOf(multiple, len);
    var plan := Plan(table, len, blocks, inScale, outScale);
    var sets := seq(|c|, n requires 0 <= n < |c| => Samples(c[n]));
    hide BruteFir.Valid, ScaledTaps, IsNextMultiple;
    var filter := new BruteFir(plan, |c|);
    var r := filter.SetCoeff(sets, |c|, length, blocks, scale);
    filter.Counts();
    forall n | 0 <= n < |c|
      ensures |filter.coeffs[n]| == blocks && LoadedWith(plan, filter.taps[n], c[n], scale)
    {
      assert sets[n].s[..length] == c[n];
    }
    d := new DspBfir(filter);
  }

  lemma BlocksOf(multiple: nat, len: nat)
    requires len > 0 && multiple % len == 0 && multiple >= len
    ensures multiple / len > 0 && multiple == (multiple / len) * len
  {
  }

  /** The samples of all chunks. */
  function Joined(chunks: seq<seq<real>>): (s: seq<real>) {
    if chunks == [] then [] else Joined(chunks[..|chunks| - 1]) + chunks[|chunks| - 1]
  }

  /** They begin with those of the first chunk. */
  lemma {:induction false} JoinedFirst(chunks: seq<seq<real>>)
    requires chunks != []
    ensures Joined(chunks) == chunks[0] + Joined(chunks[1..])
  {
    var n := |chunks| - 1;
    assert Joined(chunks) == Joined(chunks[..n]) + chunks[n];
    if n == 0 {
      assert chunks[..0] == [] && chunks[1..] == [];
    } else {
      JoinedFirst(chunks[..n]);
      var rest := chunks[1..];
      assert chunks[..n][1..] == rest[..n - 1];
      assert Joined(rest) == Joined(rest[..n - 1]) + rest[n - 1];
      hide Joined;
    }
  }

  /** Sample i of a filtered stream: the direct-form filter of its channel. */
  function FirSample(p: Plan, c: seq<seq<real>>, scale: real, fed: seq<real>, i: nat): real
    requires c != []
  {
    var n := i % |c|;
    p.outScale * (p.inScale * (scale * Response(c[n], Channel(fed, n, |c|), i / |c|)))
  }

  /** Over the whole life of a plug-in loaded so, every emitted sample is the direct-form filter of what was fed. */
  lemma EmittedIsWholeFir(d: DspBfir, c: seq<seq<real>>, scale: real, i: nat)
    requires d.Valid() && Loaded(d, c, scale) && c != [] && i < |d.emitted|
    ensures d.emitted[i] == FirSample(d.filter.plan, c, scale, d.fed, i)
  {
    var p, n := d.filter.plan, i % |c|;
    AsLoaded(d, c, scale, n);
    hide *;
    EmittedIsFir(d, c, scale, i);
    FirSampleIs(p, c, scale, d.fed, i, n);
  }

  lemma AsLoaded(d: DspBfir, c: seq<seq<real>>, scale: real, n: nat)
    requires Loaded(d, c, scale) && n < |c|
    ensures |c| == |d.filter.taps| == |d.filter.coeffs| == d.filter.nChannels
    ensures forall m :: 0 <= m < |c| ==>
              d.filter.taps[m] == ScaledTaps(c[m], scale, |d.filter.coeffs[m]| * d.filter.plan.len)
    ensures Cut(c[n], Partitions(|d.filter.coeffs[n]|, d.filter.plan.nBlocks) * d.filter.plan.len) == c[n]
  {
    hide ScaledTaps;
  }

  lemma FirSampleIs(p: Plan, c: seq<seq<real>>, scale: real, fed: seq<real>, i: nat, n: nat)
    requires c != [] && n == i % |c|
    ensures FirSample(p, c, scale, fed, i)
         == p.outScale * (p.inScale * (scale * Response(c[n], Channel(fed, n, |c|), i / |c|)))
  {
    hide Response, Channel;
  }

  /** And what is still to come is less than a block. */
  lemma WaitingIsLess(d: DspBfir)
    requires d.Valid()
    ensures |d.fed| - |d.emitted| < d.BlockSize()
  {
    hide BruteFir.Valid, Channel, Stream;
    d.filter.Counts();
    PendingInside(d.bufferCount, d.filter.plan.len, d.filter.nChannels);
  }

  /** The chunks of a stream, one after the other. */
  method Play(d: DspBfir, c: seq<seq<real>>, scale: real, chunks: seq<seq<real>>) returns (out: seq<real>)
    requires d.Valid() && Loaded(d, c, scale)
    requires forall k :: 0 <= k < |chunks| ==> |chunks[k]| % d.filter.nChannels == 0
    modifies d`bufferCount, d`emitted, d`fed, d.inbuf, d.filter, d.filter.repr, d.outbuf
    ensures d.Valid() && Loaded(d, c, scale)
    ensures d.fed == old(d.fed) + Joined(chunks) && d.emitted == old(d.emitted) + out
  {
    hide DspBfir.Valid, LoadedWith;
    out := [];
    for k := 0 to |chunks|
      invariant d.Valid() && Loaded(d, c, scale)
      invariant d.fed == old(d.fed) + Joined(chunks[..k]) && d.emitted == old(d.emitted) + out
    {
      var block := d.OnChunk(chunks[k]);
      assert chunks[..k + 1][..k] == chunks[..k];
      out := out + block;
    }
    assert chunks[..|chunks|] == chunks;
  }

  /** From the set-up on, however the stream is cut: all samples that come out, and how few are still to come. */
  method Lifetime(table: Table, len: nat, inScale: real, outScale: real, c: seq<seq<real>>, length: nat, scale: real,
                  chunks: seq<seq<real>>)
    returns (out: seq<real>, ghost plan: Plan)
    requires table.Valid() && len > 0 && table.n == 2 * len && Packable(2 * len)
    requires c != [] && forall n :: 0 <= n < |c| ==> |c[n]| == length
    requires forall k :: 0 <= k < |chunks| ==> |chunks[k]| % |c| == 0
    ensures plan.inScale == inScale && plan.outScale == outScale && plan.len == len
    ensures forall i :: 0 <= i < |out| ==> out[i] == FirSample(plan, c, scale, Joined(chunks), i)
    ensures |Joined(chunks)| - |out| < len * |c|
  {
    hide *;
    var d: DspBfir := SetUp(table, len, inScale, outScale, c, length, scale);
    plan := d.filter.plan;
    out := Play(d, c, scale, chunks);
    assert out == d.emitted && Joined(chunks) == d.fed;
    Outcome(d, c, scale, out, Joined(chunks));
    assert d.BlockSize() == len * |c| by { SizeOf(d, len, |c|); }
  }

  lemma SizeOf(d: DspBfir, len: nat, channels: nat)
    requires d.filter.plan.len == len && d.filter.nChannels == channels
    ensures d.BlockSize() == len * channels
  {
  }

  lemma Outcome(d: DspBfir, c: seq<seq<real>>, scale: real, out: seq<real>, fed: seq<real>)
    requires d.Valid() && Loaded(d, c, scale) && c != [] && d.emitted == out && d.fed == fed
    ensures forall i :: 0 <= i < |out| ==> out[i] == FirSample(d.filter.plan, c, scale, fed, i)
    ensures |fed| - |out| < d.BlockSize()
  {
    hide *;
    forall i | 0 <= i < |out| ensures out[i] == FirSample(d.filter.plan, c, scale, fed, i) {
      EmittedIsWholeFir(d, c, scale, i);
    }
    WaitingIsLess(d);
  }
}
