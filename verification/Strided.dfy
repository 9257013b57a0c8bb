/**
 One channel inside an interleaved buffer: every spacing-th sample from a base position on, read and written
 in place without touching the channels in between.
 */
module Strided {
  /** Where sample k of the channel lies. */
  function Place(base: int, spacing: int, k: int): int {
    base + spacing * k
  }

  lemma PlaceNext(base: int, spacing: int, k: int)
    ensures Place(base, spacing, k + 1) == Place(base, spacing, k) + spacing
  {
  }

  lemma {:induction false} PlaceOrder(base: int, spacing: int, j: int, k: int)
    requires spacing > 0 && j < k
    ensures Place(base, spacing, j) + spacing <= Place(base, spacing, k)
    decreases k - j
  {
    PlaceNext(base, spacing, k - 1);
    if j < k - 1 {
      PlaceOrder(base, spacing, j, k - 1);
    }
  }

  lemma PlaceFrom(base: int, spacing: int, m: int, k: int)
    ensures Place(Place(base, spacing, m), spacing, k) == Place(base, spacing, m + k)
  {
  }

  /** The first n samples of the channel lie inside a buffer of len. */
  predicate Fits(len: nat, base: int, spacing: int, n: int) {
    base >= 0 && spacing > 0 && n >= 0 && (n > 0 ==> Place(base, spacing, n - 1) < len)
  }

  lemma Inside(len: nat, base: int, spacing: int, n: int, k: int)
    requires Fits(len, base, spacing, n) && 0 <= k < n
    ensures 0 <= Place(base, spacing, k) < len
  {
  }

  /** The channel's first n samples. */
  function Samples<T>(s: seq<T>, base: int, spacing: int, n: int): (r: seq<T>)
    requires Fits(|s|, base, spacing, n)
    ensures |r| == n
  {
    AllInside(|s|, base, spacing, n);
    seq(n, k requires 0 <= k < n => s[Place(base, spacing, k)])
  }

  lemma AllInside(len: nat, base: int, spacing: int, n: int)
    requires Fits(len, base, spacing, n)
    ensures forall k :: 0 <= k < n ==> 0 <= Place(base, spacing, k) < len
  {
    forall k | 0 <= k < n ensures 0 <= Place(base, spacing, k) < len {
      Inside(len, base, spacing, n, k);
    }
  }

  lemma SamplesAre<T>(s: seq<T>, base: int, spacing: int, n: int)
    requires Fits(|s|, base, spacing, n)
    ensures forall k :: 0 <= k < n ==> 0 <= Place(base, spacing, k) < |s|
    ensures forall k :: 0 <= k < n ==> Samples(s, base, spacing, n)[k] == s[Place(base, spacing, k)]
  {
    AllInside(|s|, base, spacing, n);
    hide Place, Fits;
  }

  /** p is one of the channel's places m, ..., n - 1. */
  ghost predicate Among(base: int, spacing: int, m: int, n: int, p: int) {
    exists k :: m <= k < n && p == Place(base, spacing, k)
  }

  /** Everything but the channel's places m, ..., n - 1 is as before. */
  ghost predicate KeptOutside<T(!new)>(before: seq<T>, after: seq<T>, base: int, spacing: int, m: int, n: int) {
    |after| == |before| &&
    forall p :: 0 <= p < |before| && !Among(base, spacing, m, n, p) ==> after[p] == before[p]
  }

  /** Sample k lies spacing times k places behind the base. */
  lemma SampleAt<T>(s: seq<T>, base: int, spacing: int, n: int, k: int, i: int)
    requires Fits(|s|, base, spacing, n) && 0 <= k < n && i == base + spacing * k
    ensures 0 <= i < |s| && Samples(s, base, spacing, n)[k] == s[i]
  {
    hide Samples;
    SamplesAre(s, base, spacing, n);
  }

  /** What is at no such place is kept. */
  lemma KeptAt<T(!new)>(before: seq<T>, after: seq<T>, base: int, spacing: int, m: int, n: int, p: int)
    requires KeptOutside(before, after, base, spacing, m, n) && 0 <= p < |before|
    requires forall k :: m <= k < n ==> p != base + spacing * k
    ensures |after| == |before| && after[p] == before[p]
  {
  }

  /** Reading the channel out into a buffer of its own. */
  method Gather<T(!new)>(dbuf: array<T>, buf: array<T>, base: int, spacing: int, nSamples: int)
    requires Fits(buf.Length, base, spacing, nSamples) && nSamples <= dbuf.Length && dbuf != buf
    modifies dbuf
    ensures dbuf[..nSamples] == Samples(buf[..], base, spacing, nSamples)
    ensures dbuf[nSamples..] == old(dbuf[nSamples..])
  {
    hide Place;
    ghost var samples := Samples(buf[..], base, spacing, nSamples);
    if spacing == 1 {
      UnitSpacing(base, nSamples);
      forall k | 0 <= k < nSamples {
        dbuf[k] := buf[base + k];
      }
      return;
    }
    var n, i := 0, base;
    assert i == Place(base, spacing, 0) by { PlaceZero(base, spacing); }
    while n < nSamples
      invariant 0 <= n <= nSamples && i == Place(base, spacing, n)
      invariant dbuf[..n] == samples[..n]
      invariant dbuf[nSamples..] == old(dbuf[nSamples..])
    {
      Inside(buf.Length, base, spacing, nSamples, n);
      PlaceNext(base, spacing, n);
      dbuf[n] := buf[i];
      n, i := n + 1, i + spacing;
    }
  }

  lemma UnitSpacing(base: int, n: int)
    ensures forall k :: 0 <= k < n ==> Place(base, 1, k) == base + k
  {
  }

  lemma PlaceZero(base: int, spacing: int)
    ensures Place(base, spacing, 0) == base
  {
  }

  /** Writing values into the channel's places. */
  method Scatter<T(!new)>(buf: array<T>, base: int, spacing: int, dbuf: array<T>, nSamples: int)
    requires Fits(buf.Length, base, spacing, nSamples) && nSamples <= dbuf.Length && dbuf != buf
    modifies buf
    ensures Samples(buf[..], base, spacing, nSamples) == dbuf[..nSamples]
    ensures KeptOutside(old(buf[..]), buf[..], base, spacing, 0, nSamples)
  {
    hide Place;
    if spacing == 1 {
      UnitSpacing(base, nSamples);
      forall k | 0 <= k < nSamples ensures 0 <= Place(base, 1, k) < buf.Length {
        Inside(buf.Length, base, 1, nSamples, k);
      }
      forall p | base <= p < base + nSamples {
        buf[p] := dbuf[p - base];
      }
      forall p | base <= p < base + nSamples ensures Among(base, 1, 0, nSamples, p) {
        assert p == Place(base, 1, p - base);
      }
      return;
    }
    var n, i := 0, base;
    assert i == Place(base, spacing, 0) by { PlaceZero(base, spacing); }
    while n < nSamples
      invariant 0 <= n <= nSamples && i == Place(base, spacing, n)
      invariant forall k :: 0 <= k < n ==>
                  0 <= Place(base, spacing, k) < buf.Length && buf[Place(base, spacing, k)] == dbuf[k]
      invariant KeptOutside(old(buf[..]), buf[..], base, spacing, 0, n)
    {
      Inside(buf.Length, base, spacing, nSamples, n);
      PlaceNext(base, spacing, n);
      forall k | 0 <= k < n ensures Place(base, spacing, k) < i {
        PlaceOrder(base, spacing, k, n);
      }
      ghost var before := buf[..];
      buf[i] := dbuf[n];
      KeptMore(old(buf[..]), before, buf[..], base, spacing, n);
      n, i := n + 1, i + spacing;
    }
  }

  lemma KeptMore<T(!new)>(start: seq<T>, before: seq<T>, after: seq<T>, base: int, spacing: int, n: int)
    requires KeptOutside(start, before, base, spacing, 0, n) && n >= 0
    requires 0 <= Place(base, spacing, n) < |before| == |after|
    requires after == before[Place(base, spacing, n) := after[Place(base, spacing, n)]]
    ensures KeptOutside(start, after, base, spacing, 0, n + 1)
  {
  }

  method CopyOne<T>(buf: array<T>, i: int, n: int)
    requires 0 <= i < buf.Length && 0 <= n < buf.Length
    modifies buf
    ensures buf[..] == old(buf[..])[i := old(buf[n])]
  {
    buf[i] := buf[n];
  }

  lemma SomeLeft(base: int, spacing: int, m: nat)
    requires spacing > 0 && Place(base, spacing, m - 1) >= base
    ensures m > 0
  {
  }

  lemma NoneLeft(base: int, spacing: int, m: nat)
    requires spacing > 0 && Place(base, spacing, m - 1) < base
    ensures m == 0
  {
  }

  lemma MovedNone<T(!new)>(s: seq<T>, base: int, spacing: int, distance: nat, n: nat)
    requires Fits(|s|, base, spacing, n + distance)
    ensures Moved(s, Samples(s, base, spacing, n + distance), base, spacing, distance, n, n)
    ensures KeptOutside(s, s, base, spacing, 0, n + distance)
  {
  }

  lemma MovedAll<T(!new)>(s: seq<T>, samples: seq<T>, base: int, spacing: int, distance: nat, n: nat)
    requires |samples| == n + distance && Moved(s, samples, base, spacing, distance, 0, n)
    ensures Fits(|s|, base, spacing, n + distance)
    ensures Samples(s, base, spacing, n + distance)[distance..] == samples[..n]
  {
  }

  /** Moving the first nSamples of the channel distance samples later, last one first, in place. */
  method Shift<T(!new)>(buf: array<T>, base: int, spacing: int, nSamples: int, distance: int)
    requires nSamples >= 0 && distance >= 0 && Fits(buf.Length, base, spacing, nSamples + distance)
    modifies buf
    ensures Samples(buf[..], base, spacing, nSamples + distance)[distance..] ==
            Samples(old(buf[..]), base, spacing, nSamples + distance)[..nSamples]
    ensures KeptOutside(old(buf[..]), buf[..], base, spacing, 0, nSamples + distance)
  {
    assert spacing > 0;
    hide *;
    var total := nSamples + distance;
    ghost var start, samples := buf[..], Samples(buf[..], base, spacing, total);
    ghost var m := nSamples;
    var n, i := Place(base, spacing, nSamples - 1), Place(base, spacing, total - 1);
    MovedNone(start, base, spacing, distance, nSamples);
    while n >= base
      invariant 0 <= m <= nSamples
      invariant n == Place(base, spacing, m - 1) && i == Place(base, spacing, distance + m - 1)
      invariant Moved(buf[..], samples, base, spacing, distance, m, nSamples)
      invariant KeptOutside(start, buf[..], base, spacing, 0, total)
      decreases n - base
    {
      SomeLeft(base, spacing, m);
      assert 0 <= n < buf.Length && 0 <= i < buf.Length by {
        Inside(buf.Length, base, spacing, total, m - 1);
        Inside(buf.Length, base, spacing, total, distance + m - 1);
      }
      ghost var before := buf[..];
      CopyOne(buf, i, n);
      MoveStep(before, buf[..], base, spacing, distance, nSamples, m, n, i, samples, start);
      PlaceNext(base, spacing, m - 2);
      PlaceNext(base, spacing, distance + m - 2);
      n, i := n - spacing, i - spacing;
      m := m - 1;
    }
    NoneLeft(base, spacing, m);
    MovedAll(buf[..], samples, base, spacing, distance, nSamples);
  }

  /** Samples m, ..., n - 1 have been moved, the ones before are still in place. */
  ghost predicate Moved<T(!new)>(s: seq<T>, samples: seq<T>, base: int, spacing: int, distance: nat, m: nat, n: nat)
    requires |samples| == n + distance
  {
    m <= n && Fits(|s|, base, spacing, n + distance) &&
    Samples(s, base, spacing, n + distance)[distance + m..] == samples[m..n] &&
    Samples(s, base, spacing, n + distance)[..m] == samples[..m]
  }

  lemma MoveStep<T(!new)>(s: seq<T>, after: seq<T>, base: int, spacing: int, distance: nat, n: nat, m: nat,
                          from: int, to: int, samples: seq<T>, start: seq<T>)
    requires |samples| == n + distance && 0 < m && Moved(s, samples, base, spacing, distance, m, n)
    requires KeptOutside(start, s, base, spacing, 0, n + distance)
    requires 0 <= from < |s| && 0 <= to < |s| && after == s[to := s[from]]
    requires from == Place(base, spacing, m - 1) && to == Place(base, spacing, distance + m - 1)
    ensures Moved(after, samples, base, spacing, distance, m - 1, n)
    ensures KeptOutside(start, after, base, spacing, 0, n + distance)
  {
    hide Place, KeptOutside, Samples;
    var total := n + distance;
    KeptStep(start, s, base, spacing, total, distance + m - 1, s[from]);
    OneWritten(s, base, spacing, total, distance + m - 1, s[from]);
    SamplesAre(s, base, spacing, total);
    assert Samples(s, base, spacing, total)[..m][m - 1] == samples[..m][m - 1];
    SlideStep(Samples(s, base, spacing, total), samples, distance, n, m);
  }

  lemma KeptStep<T(!new)>(start: seq<T>, s: seq<T>, base: int, spacing: int, n: nat, j: nat, v: T)
    requires KeptOutside(start, s, base, spacing, 0, n) && j < n && 0 <= Place(base, spacing, j) < |s|
    ensures KeptOutside(start, s[Place(base, spacing, j) := v], base, spacing, 0, n)
  {
  }

  lemma SlideStep<T>(r: seq<T>, samples: seq<T>, distance: nat, n: nat, m: nat)
    requires |r| == |samples| == n + distance && 0 < m <= n
    requires r[distance + m..] == samples[m..n] && r[..m] == samples[..m]
    ensures var next := r[distance + m - 1 := samples[m - 1]];
            next[distance + m - 1..] == samples[m - 1..n] && next[..m - 1] == samples[..m - 1]
  {
  }

  /** Writing one place of the channel changes that sample and nothing else. */
  lemma OneWritten<T(!new)>(s: seq<T>, base: int, spacing: int, n: nat, j: nat, v: T)
    requires Fits(|s|, base, spacing, n) && j < n
    ensures 0 <= Place(base, spacing, j) < |s|
    ensures Samples(s[Place(base, spacing, j) := v], base, spacing, n) == Samples(s, base, spacing, n)[j := v]
  {
    hide Place, Samples;
    Inside(|s|, base, spacing, n, j);
    var after := s[Place(base, spacing, j) := v];
    SamplesAre(s, base, spacing, n);
    SamplesAre(after, base, spacing, n);
    var now, want := Samples(after, base, spacing, n), Samples(s, base, spacing, n)[j := v];
    forall k | 0 <= k < n ensures now[k] == want[k] {
      if k < j {
        PlaceOrder(base, spacing, k, j);
      } else if j < k {
        PlaceOrder(base, spacing, j, k);
      }
    }
  }

  // ---------------------------------------------------------------- part of a channel

  /** The channel from sample m on is a channel based at that sample. */
  lemma Later<T>(s: seq<T>, base: int, spacing: int, n: nat, m: nat, count: nat)
    requires Fits(|s|, base, spacing, n) && m + count <= n && (m < n || count == 0)
    ensures count > 0 ==> Fits(|s|, Place(base, spacing, m), spacing, count)
    ensures count > 0 ==>
              Samples(s, Place(base, spacing, m), spacing, count) == Samples(s, base, spacing, n)[m..m + count]
  {
    if count > 0 {
      hide Place;
      Inside(|s|, base, spacing, n, m);
      Inside(|s|, base, spacing, n, m + count - 1);
      PlaceFrom(base, spacing, m, count - 1);
      SamplesAre(s, base, spacing, n);
      SamplesAre(s, Place(base, spacing, m), spacing, count);
      forall k | 0 <= k < count
        ensures Samples(s, Place(base, spacing, m), spacing, count)[k] == Samples(s, base, spacing, n)[m + k]
      {
        PlaceFrom(base, spacing, m, k);
      }
    }
  }

  /** Writing count samples from sample m on, seen from the whole channel. */
  lemma Replaced<T(!new)>(before: seq<T>, after: seq<T>, base: int, spacing: int, n: nat, m: nat, count: nat)
    requires Fits(|before|, base, spacing, n) && 0 < count && m + count <= n
    requires KeptOutside(before, after, Place(base, spacing, m), spacing, 0, count)
    ensures |after| == |before| && Fits(|before|, Place(base, spacing, m), spacing, count)
    ensures Samples(after, base, spacing, n) == Samples(before, base, spacing, n)[..m] +
            Samples(after, Place(base, spacing, m), spacing, count) + Samples(before, base, spacing, n)[m + count..]
    ensures KeptOutside(before, after, base, spacing, 0, n)
  {
    hide Place, KeptOutside;
    KeptWider(before, after, base, spacing, n, m, count);
    Later(after, base, spacing, n, m, count);
    Later(before, base, spacing, n, m, count);
    SamplesAre(before, base, spacing, n);
    SamplesAre(after, base, spacing, n);
    forall k | 0 <= k < n && !(m <= k < m + count)
      ensures Samples(after, base, spacing, n)[k] == Samples(before, base, spacing, n)[k]
    {
      Elsewhere(before, after, base, spacing, m, count, k);
    }
  }

  lemma KeptWider<T(!new)>(before: seq<T>, after: seq<T>, base: int, spacing: int, n: nat, m: nat, count: nat)
    requires KeptOutside(before, after, Place(base, spacing, m), spacing, 0, count) && m + count <= n
    ensures |after| == |before| && KeptOutside(before, after, base, spacing, 0, n)
  {
    hide Place;
    forall p | Among(Place(base, spacing, m), spacing, 0, count, p) ensures Among(base, spacing, 0, n, p) {
      var k :| 0 <= k < count && p == Place(Place(base, spacing, m), spacing, k);
      PlaceFrom(base, spacing, m, k);
      assert p == Place(base, spacing, m + k);
    }
  }

  lemma Elsewhere<T(!new)>(before: seq<T>, after: seq<T>, base: int, spacing: int, m: nat, count: nat, k: nat)
    requires KeptOutside(before, after, Place(base, spacing, m), spacing, 0, count)
    requires spacing > 0 && !(m <= k < m + count) && 0 <= Place(base, spacing, k) < |before|
    ensures after[Place(base, spacing, k)] == before[Place(base, spacing, k)]
  {
  }

  lemma KeptBoth<T(!new)>(s: seq<T>, t: seq<T>, u: seq<T>, base: int, spacing: int, n: nat)
    requires KeptOutside(s, t, base, spacing, 0, n) && KeptOutside(t, u, base, spacing, 0, n)
    ensures KeptOutside(s, u, base, spacing, 0, n)
  {
  }

  /** Reading samples m, ..., m + count - 1 of an n-sample channel. */
  method Take<T(!new)>(dbuf: array<T>, buf: array<T>, base: int, spacing: int, n: nat, m: nat, count: nat)
    requires Fits(buf.Length, base, spacing, n) && m + count <= n && count <= dbuf.Length && dbuf != buf
    modifies dbuf
    ensures dbuf[..count] == Samples(buf[..], base, spacing, n)[m..m + count]
    ensures dbuf[count..] == old(dbuf[count..])
  {
    hide *;
    if count > 0 {
      Later(buf[..], base, spacing, n, m, count);
      Gather(dbuf, buf, Place(base, spacing, m), spacing, count);
    }
  }

  /** Writing them; the rest of the channel and the other channels stay. */
  method Put<T(!new)>(buf: array<T>, base: int, spacing: int, n: nat, m: nat, dbuf: array<T>, count: nat)
    requires Fits(buf.Length, base, spacing, n) && m + count <= n && count <= dbuf.Length && dbuf != buf
    modifies buf
    ensures Samples(buf[..], base, spacing, n) == Samples(old(buf[..]), base, spacing, n)[..m] + dbuf[..count] +
            Samples(old(buf[..]), base, spacing, n)[m + count..]
    ensures KeptOutside(old(buf[..]), buf[..], base, spacing, 0, n)
  {
    ghost var before := buf[..];
    if count > 0 {
      hide *;
      Later(before, base, spacing, n, m, count);
      Scatter(buf, Place(base, spacing, m), spacing, dbuf, count);
      Replaced(before, buf[..], base, spacing, n, m, count);
    }
  }
}
