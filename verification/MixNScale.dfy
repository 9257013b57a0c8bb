/**
 Mixing and scaling spectra while reordering them into, or out of, the packed layout.
 */
module MixNScale {
  import opened Sums
  import opened HalfComplex
  import opened PackedLayout

  /** What the buffers hold. */
  ghost function Contents(bufs: seq<array<real>>): (c: seq<seq<real>>)
    reads bufs
    ensures |c| == |bufs| && forall j :: 0 <= j < |bufs| ==> c[j] == bufs[j][..]
  {
    if bufs == [] then [] else Contents(bufs[..|bufs| - 1]) + [bufs[|bufs| - 1][..]]
  }

  /** Entry i of the weighted sum of the first k signals. */
  function Mix(bufs: seq<seq<real>>, scales: seq<real>, i: int, k: nat): real
    requires k <= |bufs| && |scales| == |bufs|
  {
    if k == 0 then 0.0 else Mix(bufs, scales, i, k - 1) + Times(At(bufs[k - 1], i), scales[k - 1])
  }

  /** The weighted sum of the signals. */
  function Mixed(bufs: seq<seq<real>>, scales: seq<real>, n: nat): (m: seq<real>)
    requires |scales| == |bufs|
    ensures |m| == n
  {
    seq(n, i => Mix(bufs, scales, i, |bufs|))
  }

  /** Entry i is the sum over the signals of their entries times their scales. */
  lemma {:induction false} MixIs(bufs: seq<seq<real>>, scales: seq<real>, i: int, k: nat, f: int -> real)
    requires k <= |bufs| && |scales| == |bufs|
    requires forall j :: 0 <= j < k ==> f(j) == At(bufs[j], i) * scales[j]
    ensures Mix(bufs, scales, i, k) == Sum(k, f)
    ensures k == |bufs| && 0 <= i ==> forall n :: i < n ==> Mixed(bufs, scales, n)[i] == Sum(k, f)
  {
    if k > 0 {
      MixIs(bufs, scales, i, k - 1, f);
    }
  }

  lemma MixOne(y: seq<real>, s: real)
    ensures Mixed([y], [s], |y|) == Scaled(y, s)
  {
    forall i | 0 <= i < |y| ensures Mixed([y], [s], |y|)[i] == Scaled(y, s)[i] {
      assert [y][1 - 1] == y && [s][1 - 1] == s;
      assert Mix([y], [s], i, 1) == Mix([y], [s], i, 0) + Times(At(y, i), s);
    }
  }

  lemma MixUnrolled(bufs: seq<seq<real>>, scales: seq<real>, i: int)
    requires 0 < |bufs| <= 4 && |scales| == |bufs|
    ensures var v0 := Times(At(bufs[0], i), scales[0]);
            && (|bufs| == 1 ==> Mix(bufs, scales, i, |bufs|) == v0)
            && (|bufs| == 2 ==> Mix(bufs, scales, i, |bufs|) == v0 + Times(At(bufs[1], i), scales[1]))
            && (|bufs| == 3 ==>
                  Mix(bufs, scales, i, |bufs|) ==
                  v0 + Times(At(bufs[1], i), scales[1]) + Times(At(bufs[2], i), scales[2]))
            && (|bufs| == 4 ==>
                  Mix(bufs, scales, i, |bufs|) ==
                  v0 + Times(At(bufs[1], i), scales[1]) + Times(At(bufs[2], i), scales[2])
                  + Times(At(bufs[3], i), scales[3]))
  {
    hide Times;
    assert Mix(bufs, scales, i, 1) == Mix(bufs, scales, i, 0) + Times(At(bufs[0], i), scales[0]);
    if |bufs| > 1 {
      assert Mix(bufs, scales, i, 2) == Mix(bufs, scales, i, 1) + Times(At(bufs[1], i), scales[1]);
    }
    if |bufs| > 2 {
      assert Mix(bufs, scales, i, 3) == Mix(bufs, scales, i, 2) + Times(At(bufs[2], i), scales[2]);
    }
  }

  /** The expression stored for entry i: unrolled for one to four buffers, a loop beyond. */
  method Entry(bufs: seq<array<real>>, scales: seq<real>, i: nat) returns (v: real)
    requires |bufs| > 0 && |scales| == |bufs|
    requires forall j :: 0 <= j < |bufs| ==> i < bufs[j].Length
    ensures v == Mix(Contents(bufs), scales, i, |bufs|)
  {
    hide Times;
    ghost var c := Contents(bufs);
    assert forall j :: 0 <= j < |bufs| ==> At(c[j], i) == bufs[j][i];
    if |bufs| <= 4 {
      MixUnrolled(c, scales, i);
    }
    match |bufs|
    case 1 =>
      v := Times(bufs[0][i], scales[0]);
    case 2 =>
      v := Times(bufs[0][i], scales[0]) + Times(bufs[1][i], scales[1]);
    case 3 =>
      v := Times(bufs[0][i], scales[0]) + Times(bufs[1][i], scales[1]) + Times(bufs[2][i], scales[2]);
    case 4 =>
      v := Times(bufs[0][i], scales[0]) + Times(bufs[1][i], scales[1]) + Times(bufs[2][i], scales[2])
         + Times(bufs[3][i], scales[3]);
    case _ =>
      v := Times(bufs[0][i], scales[0]);
      assert Mix(c, scales, i, 1) == Mix(c, scales, i, 0) + Times(At(c[0], i), scales[0]);
      for k := 1 to |bufs|
        invariant v == Mix(c, scales, i, k)
      {
        v := v + Times(bufs[k][i], scales[k]);
      }
  }

  /** Where the two halves of group n/4 go, and the Nyquist bin. */
  lemma PackSlots(y: seq<real>, n: nat, q: nat)
    requires Packable(|y|) && n % 4 == 0 && 2 * n < |y| && q < 4
    ensures 2 * n + q < |y| && n + q < |y| && Pack(y)[2 * n + q] == y[n + q]
    ensures n + q > 0 ==> 2 * n + 4 + q < |y| && Pack(y)[2 * n + 4 + q] == y[|y| - n - q]
    ensures Pack(y)[4] == y[|y| / 2]
  {
    hide Ord, Pos;
    assert n == 4 * (n / 4);
    Parts(|y|, n / 4, q);
    FirstGroup(|y|);
  }

  // ---------------------------------------------------------------- the order of the writes

  /** Where write t of the input mode goes: first the real slots of all groups, then the others. */
  function InputPlace(n: int, t: int): int {
    if t < n / 2 then 8 * (t / 4) + t % 4 else 8 * ((t - n / 2) / 4) + (t - n / 2) % 4 + 4
  }

  /** Where write t of the output mode goes: forwards up to the middle, then backwards from the end. */
  function OutputPlace(n: int, t: int): int {
    if t <= n / 2 then t else n - (t - n / 2)
  }

  /** Every one of n places is written, and none twice. */
  ghost predicate EachOnce(written: seq<int>, n: nat) {
    |written| == n && (forall p :: 0 <= p < n ==> p in written) &&
    forall s, t :: 0 <= s < t < n ==> written[s] != written[t]
  }

  lemma InputTurn(n: int, p: int)
    requires Packable(n) && 0 <= p < n
    ensures exists t :: 0 <= t < n && InputPlace(n, t) == p
  {
    var q := p % 8;
    var t := 4 * (p / 8) + if q < 4 then q else n / 2 + (q - 4);
    ByFour(p / 8, q % 4);
    assert 0 <= t < n && InputPlace(n, t) == p;
  }

  lemma InputApart(n: int, s: int, t: int)
    requires Packable(n) && 0 <= s < t < n
    ensures InputPlace(n, s) != InputPlace(n, t)
  {
  }

  /** The writes so far are the first ones of their mode. */
  ghost predicate InputSoFar(written: seq<int>, n: int) {
    forall t :: 0 <= t < |written| ==> written[t] == InputPlace(n, t)
  }

  ghost predicate OutputSoFar(written: seq<int>, n: int) {
    forall t :: 0 <= t < |written| ==> written[t] == OutputPlace(n, t)
  }

  lemma InputOnce(n: nat, written: seq<int>)
    requires Packable(n) && |written| == n && InputSoFar(written, n)
    ensures EachOnce(written, n)
  {
    hide InputPlace;
    forall p | 0 <= p < n ensures p in written {
      InputTurn(n, p);
      var t :| 0 <= t < n && InputPlace(n, t) == p;
      assert written[t] == p;
    }
    forall s, t | 0 <= s < t < n ensures written[s] != written[t] {
      InputApart(n, s, t);
    }
  }

  lemma OutputOnce(n: nat, written: seq<int>)
    requires Packable(n) && |written| == n && OutputSoFar(written, n)
    ensures EachOnce(written, n)
  {
    forall p | 0 <= p < n ensures p in written {
      var t := if p <= n / 2 then p else n / 2 + (n - p);
      assert written[t] == OutputPlace(n, t) == p;
    }
  }

  /** The writes with the four of one pass, upwards or downwards. */
  function Then(written: seq<int>, from: int, step: int): (s: seq<int>)
    ensures |s| == |written| + 4
  {
    written + [from, from + step, from + 2 * step, from + 3 * step]
  }

  /** The writes with the middle and the last three places. */
  function ThenMiddle(written: seq<int>, n: int): (s: seq<int>)
    ensures |s| == |written| + 4
  {
    written + [n / 2, n - 1, n - 2, n - 3]
  }

  /** The real slots of one more group. */
  lemma MoreReals(written: seq<int>, n: int)
    requires Packable(n) && |written| % 4 == 0 && |written| < n / 2 && InputSoFar(written, n)
    ensures InputSoFar(Then(written, 2 * |written|, 1), n)
  {
    hide InputPlace;
    EarlierPlace(n, |written|, 0);
    EarlierPlace(n, |written|, 1);
    EarlierPlace(n, |written|, 2);
    EarlierPlace(n, |written|, 3);
  }

  lemma EarlierPlace(n: int, m: int, q: int)
    requires Packable(n) && m % 4 == 0 && 0 <= m < n / 2 && 0 <= q < 4
    ensures InputPlace(n, m + q) == 2 * m + q
  {
    var t := m / 4;
    assert m == 4 * t && m + q < n / 2;
    ByFour(t, q);
  }

  /** The other slots of one more group. */
  lemma MoreImags(written: seq<int>, n: int, m: nat)
    requires Packable(n) && m % 4 == 0 && |written| == n / 2 + m && m < n / 2 && InputSoFar(written, n)
    ensures InputSoFar(Then(written, 2 * m + 4, 1), n)
  {
    hide InputPlace;
    LaterPlace(n, m, 0);
    LaterPlace(n, m, 1);
    LaterPlace(n, m, 2);
    LaterPlace(n, m, 3);
  }

  lemma LaterPlace(n: int, m: int, q: int)
    requires m % 4 == 0 && m >= 0 && 0 <= q < 4
    ensures InputPlace(n, n / 2 + m + q) == 2 * m + 4 + q
  {
    var t := m / 4;
    assert m == 4 * t;
    ByFour(t, q);
  }

  /** Forwards in the first half. */
  lemma MoreForwards(written: seq<int>, n: int)
    requires Packable(n) && |written| + 4 <= n / 2 && OutputSoFar(written, n)
    ensures OutputSoFar(Then(written, |written|, 1), n)
  {
  }

  /** The middle and the last three. */
  lemma MiddleAndLast(written: seq<int>, n: int)
    requires Packable(n) && |written| == n / 2 && OutputSoFar(written, n)
    ensures OutputSoFar(ThenMiddle(written, n), n)
  {
  }

  /** Backwards in the second half. */
  lemma MoreBackwards(written: seq<int>, n: int, m: int)
    requires Packable(n) && |written| == n / 2 + m && m > 0 && OutputSoFar(written, n)
    ensures OutputSoFar(Then(written, n - m, -1), n)
  {
  }

  // ---------------------------------------------------------------- input mode

  /** The real slots below position m are filled. */
  ghost predicate RealsDone(o: seq<real>, z: seq<real>, m: nat) {
    |o| == |z| && forall p :: 0 <= p < m && p < |z| && p % 8 < 4 ==> o[p] == z[p]
  }

  lemma NextReals(o: seq<real>, o': seq<real>, z: seq<real>, m: nat)
    requires m % 8 == 0 && |o'| == |o| == |z| && m + 4 <= |z| && RealsDone(o, z, m)
    requires forall p :: 0 <= p < m ==> o'[p] == o[p]
    requires forall p :: m <= p < m + 4 ==> o'[p] == z[p]
    ensures RealsDone(o', z, m + 8)
  {
  }

  /** One pass of the first loop: four real parts. */
  method StoreReals(ibufs: seq<array<real>>, scales: seq<real>, obuf: array<real>, n: nat)
    requires |ibufs| > 0 && |scales| == |ibufs| && obuf !in ibufs && 2 * n + 8 <= obuf.Length
    requires forall j :: 0 <= j < |ibufs| ==> ibufs[j].Length == obuf.Length
    modifies obuf
    ensures forall p :: 2 * n <= p < 2 * n + 4 ==>
              obuf[p] == Mixed(Contents(ibufs), scales, obuf.Length)[p - n]
    ensures forall p :: 0 <= p < 2 * n || 2 * n + 4 <= p < obuf.Length ==> obuf[p] == old(obuf[p])
  {
    hide Mix, Contents;
    obuf[2*n+0] := Entry(ibufs, scales, n+0);
    obuf[2*n+1] := Entry(ibufs, scales, n+1);
    obuf[2*n+2] := Entry(ibufs, scales, n+2);
    obuf[2*n+3] := Entry(ibufs, scales, n+3);
  }

  /** One pass of the last loop: four imaginary parts, read backwards from the end. */
  method StoreImags(ibufs: seq<array<real>>, scales: seq<real>, obuf: array<real>, n: nat)
    requires |ibufs| > 0 && |scales| == |ibufs| && obuf !in ibufs && 0 < n && 2 * n + 8 <= obuf.Length
    requires forall j :: 0 <= j < |ibufs| ==> ibufs[j].Length == obuf.Length
    modifies obuf
    ensures forall p :: 2 * n + 4 <= p < 2 * n + 8 ==>
              obuf[p] == Mixed(Contents(ibufs), scales, obuf.Length)[obuf.Length + n + 4 - p]
    ensures forall p :: 0 <= p < 2 * n + 4 || 2 * n + 8 <= p < obuf.Length ==> obuf[p] == old(obuf[p])
  {
    hide Mix, Contents;
    var base := obuf.Length;
    obuf[2*n+4] := Entry(ibufs, scales, base-n-0);
    obuf[2*n+5] := Entry(ibufs, scales, base-n-1);
    obuf[2*n+6] := Entry(ibufs, scales, base-n-2);
    obuf[2*n+7] := Entry(ibufs, scales, base-n-3);
  }

  /** The imaginary slots of group 0: the Nyquist bin and three imaginary parts. */
  method StoreNyquist(ibufs: seq<array<real>>, scales: seq<real>, obuf: array<real>)
    requires |ibufs| > 0 && |scales| == |ibufs| && obuf !in ibufs && 8 <= obuf.Length
    requires forall j :: 0 <= j < |ibufs| ==> ibufs[j].Length == obuf.Length
    modifies obuf
    ensures var y := Mixed(Contents(ibufs), scales, obuf.Length);
            obuf[4] == y[obuf.Length / 2] && forall p :: 5 <= p < 8 ==> obuf[p] == y[obuf.Length + 4 - p]
    ensures forall p :: 0 <= p < 4 || 8 <= p < obuf.Length ==> obuf[p] == old(obuf[p])
  {
    hide Mix, Contents;
    var nFft := obuf.Length;
    obuf[4] := Entry(ibufs, scales, nFft / 2);
    var base := nFft;
    obuf[5] := Entry(ibufs, scales, base-1);
    obuf[6] := Entry(ibufs, scales, base-2);
    obuf[7] := Entry(ibufs, scales, base-3);
  }

  lemma PackReals(y: seq<real>, n: nat, p: nat)
    requires Packable(|y|) && n % 4 == 0 && 2 * n < |y| && 2 * n <= p < 2 * n + 4
    ensures 2 * n + 8 <= |y| && Pack(y)[p] == y[p - n]
  {
    hide Pack;
    PackSlots(y, n, p - 2 * n);
  }

  /** One pass of the first loop, seen from the whole. */
  method RealsPass(ibufs: seq<array<real>>, scales: seq<real>, obuf: array<real>, n: nat)
    requires |ibufs| > 0 && |scales| == |ibufs| && obuf !in ibufs && Packable(obuf.Length)
    requires forall j :: 0 <= j < |ibufs| ==> ibufs[j].Length == obuf.Length
    requires n % 4 == 0 && 2 * n + 8 <= obuf.Length
    requires RealsDone(obuf[..], Pack(Mixed(Contents(ibufs), scales, obuf.Length)), 2 * n)
    modifies obuf
    ensures RealsDone(obuf[..], Pack(Mixed(Contents(ibufs), scales, obuf.Length)), 2 * n + 8)
  {
    hide Pack, Mix, Mixed, Contents, RealsDone;
    ghost var y := Mixed(Contents(ibufs), scales, obuf.Length);
    ghost var o := obuf[..];
    StoreReals(ibufs, scales, obuf, n);
    RealsPassed(o, obuf[..], y, n);
  }

  lemma RealsPassed(o: seq<real>, o': seq<real>, y: seq<real>, n: nat)
    requires Packable(|y|) && |o'| == |o| == |y| && n % 4 == 0 && 2 * n + 8 <= |y| && RealsDone(o, Pack(y), 2 * n)
    requires forall p :: 0 <= p < 2 * n ==> o'[p] == o[p]
    requires forall p :: 2 * n <= p < 2 * n + 4 ==> o'[p] == y[p - n]
    ensures RealsDone(o', Pack(y), 2 * n + 8)
  {
    hide Pack, RealsDone;
    forall p | 2 * n <= p < 2 * n + 4 ensures o'[p] == Pack(y)[p] {
      PackReals(y, n, p);
    }
    NextReals(o, o', Pack(y), 2 * n);
  }

  /** The first loop. */
  method StoreAllReals(ibufs: seq<array<real>>, scales: seq<real>, obuf: array<real>) returns (ghost written: seq<int>)
    requires |ibufs| > 0 && |scales| == |ibufs| && obuf !in ibufs && Packable(obuf.Length)
    requires forall j :: 0 <= j < |ibufs| ==> ibufs[j].Length == obuf.Length
    modifies obuf
    ensures RealsDone(obuf[..], Pack(Mixed(Contents(ibufs), scales, obuf.Length)), obuf.Length)
    ensures |written| == obuf.Length / 2 && InputSoFar(written, obuf.Length)
  {
    written := [];
    NoReals(obuf[..], Pack(Mixed(Contents(ibufs), scales, obuf.Length)));
    NoWrites(obuf.Length);
    hide Pack, Mix, Mixed, Contents, RealsDone, InputSoFar, Then;
    var nFft := obuf.Length;
    var n := 0;
    while n < nFft / 2
      invariant 0 <= n <= nFft / 2 && n % 4 == 0
      invariant RealsDone(obuf[..], Pack(Mixed(Contents(ibufs), scales, nFft)), 2 * n)
      invariant |written| == n && InputSoFar(written, nFft)
    {
      RoomForPass(nFft, n);
      RealsPass(ibufs, scales, obuf, n);
      MoreReals(written, nFft);
      written := Then(written, 2 * n, 1);
      n := n + 4;
    }
  }

  lemma RoomForPass(size: nat, n: nat)
    requires Packable(size) && n % 4 == 0 && n < size / 2
    ensures 2 * n + 8 <= size
  {
  }

  lemma NoWrites(n: nat)
    ensures InputSoFar([], n) && OutputSoFar([], n)
  {
  }

  lemma FirstEight(reals: seq<real>, o: seq<real>, y: seq<real>)
    requires Packable(|y|) && |reals| == |o| == |y| && RealsDone(reals, Pack(y), |y|)
    requires forall p :: 0 <= p < 4 ==> o[p] == reals[p]
    requires o[4] == y[|y| / 2] && forall p :: 5 <= p < 8 ==> o[p] == y[|y| + 4 - p]
    ensures forall p :: 0 <= p < 8 ==> o[p] == Pack(y)[p]
  {
  }

  lemma NextEight(reals: seq<real>, o: seq<real>, y: seq<real>, n: nat)
    requires Packable(|y|) && |reals| == |o| == |y| && RealsDone(reals, Pack(y), |y|)
    requires n % 4 == 0 && 0 < 2 * n && 2 * n + 8 <= |y|
    requires forall p :: 2 * n <= p < 2 * n + 4 ==> o[p] == reals[p]
    requires forall p :: 2 * n + 4 <= p < 2 * n + 8 ==> o[p] == y[|y| + n + 4 - p]
    ensures forall p :: 2 * n <= p < 2 * n + 8 ==> o[p] == Pack(y)[p]
  {
  }

  /** All places below m hold what they should, and the real slots from there on. */
  ghost predicate PackedBelow(o: seq<real>, reals: seq<real>, z: seq<real>, m: nat) {
    |o| == |reals| == |z| &&
    (forall p :: 0 <= p < m && p < |z| ==> o[p] == z[p]) && forall p :: m <= p < |z| ==> o[p] == reals[p]
  }

  /** The slots between the loops. */
  method NyquistPass(ibufs: seq<array<real>>, scales: seq<real>, obuf: array<real>) returns (ghost reals: seq<real>)
    requires |ibufs| > 0 && |scales| == |ibufs| && obuf !in ibufs && Packable(obuf.Length)
    requires forall j :: 0 <= j < |ibufs| ==> ibufs[j].Length == obuf.Length
    requires RealsDone(obuf[..], Pack(Mixed(Contents(ibufs), scales, obuf.Length)), obuf.Length)
    modifies obuf
    ensures reals == old(obuf[..]) && PackedBelow(obuf[..], reals, Pack(Mixed(Contents(ibufs), scales, obuf.Length)), 8)
  {
    hide Pack, Mix, Mixed, Contents, RealsDone;
    ghost var y := Mixed(Contents(ibufs), scales, obuf.Length);
    reals := obuf[..];
    StoreNyquist(ibufs, scales, obuf);
    FirstEight(reals, obuf[..], y);
  }

  /** One pass of the last loop, seen from the whole. */
  method ImagsPass(ibufs: seq<array<real>>, scales: seq<real>, obuf: array<real>, n: nat, ghost reals: seq<real>)
    requires |ibufs| > 0 && |scales| == |ibufs| && obuf !in ibufs && Packable(obuf.Length)
    requires forall j :: 0 <= j < |ibufs| ==> ibufs[j].Length == obuf.Length
    requires n % 4 == 0 && 0 < n && 2 * n < obuf.Length && |reals| == obuf.Length
    requires RealsDone(reals, Pack(Mixed(Contents(ibufs), scales, obuf.Length)), obuf.Length)
    requires PackedBelow(obuf[..], reals, Pack(Mixed(Contents(ibufs), scales, obuf.Length)), 2 * n)
    modifies obuf
    ensures PackedBelow(obuf[..], reals, Pack(Mixed(Contents(ibufs), scales, obuf.Length)), 2 * n + 8)
  {
    hide Pack, Mix, Mixed, Contents, RealsDone;
    ghost var y := Mixed(Contents(ibufs), scales, obuf.Length);
    PackReals(y, n, 2 * n);
    StoreImags(ibufs, scales, obuf, n);
    NextEight(reals, obuf[..], y, n);
  }

  /** Mixing into the packed layout; written are the places in the order they are written. */
  method MixInput(ibufs: seq<array<real>>, obuf: array<real>, scales: seq<real>) returns (ghost written: seq<int>)
    requires |ibufs| > 0 && |scales| == |ibufs| && obuf !in ibufs && Packable(obuf.Length)
    requires forall j :: 0 <= j < |ibufs| ==> ibufs[j].Length == obuf.Length
    modifies obuf
    ensures obuf[..] == Pack(Mixed(Contents(ibufs), scales, obuf.Length)) && EachOnce(written, obuf.Length)
  {
    hide Pack, Mix, Mixed, Contents, RealsDone, InputSoFar, EachOnce, Then, PackedBelow;
    var nFft := obuf.Length;
    written := StoreAllReals(ibufs, scales, obuf);
    ghost var reals := NyquistPass(ibufs, scales, obuf);
    MoreImags(written, nFft, 0);
    written := Then(written, 4, 1);
    var n := 4;
    while n < nFft / 2
      invariant 4 <= n <= nFft / 2 && n % 4 == 0
      invariant PackedBelow(obuf[..], reals, Pack(Mixed(Contents(ibufs), scales, nFft)), 2 * n)
      invariant |written| == nFft / 2 + n && InputSoFar(written, nFft)
    {
      ImagsPass(ibufs, scales, obuf, n, reals);
      MoreImags(written, nFft, n);
      written := Then(written, 2 * n + 4, 1);
      n := n + 4;
    }
    AllPacked(obuf[..], reals, Pack(Mixed(Contents(ibufs), scales, nFft)), 2 * n);
    InputOnce(nFft, written);
  }

  lemma AllPacked(o: seq<real>, reals: seq<real>, z: seq<real>, m: nat)
    requires PackedBelow(o, reals, z, m) && m >= |z|
    ensures o == z
  {
  }

  lemma NoReals(o: seq<real>, z: seq<real>)
    requires |o| == |z|
    ensures RealsDone(o, z, 0)
  {
  }

  /** One pass of the first loop of the way back: four real parts. */
  method LoadReals(ibufs: seq<array<real>>, scales: seq<real>, obuf: array<real>, n: nat)
    requires |ibufs| > 0 && |scales| == |ibufs| && obuf !in ibufs && 2 * n + 8 <= obuf.Length
    requires forall j :: 0 <= j < |ibufs| ==> ibufs[j].Length == obuf.Length
    modifies obuf
    ensures forall i :: n <= i < n + 4 ==> obuf[i] == Mixed(Contents(ibufs), scales, obuf.Length)[n + i]
    ensures forall i :: 0 <= i < n || n + 4 <= i < obuf.Length ==> obuf[i] == old(obuf[i])
  {
    hide Mix, Contents;
    obuf[n+0] := Entry(ibufs, scales, 2*n+0);
    obuf[n+1] := Entry(ibufs, scales, 2*n+1);
    obuf[n+2] := Entry(ibufs, scales, 2*n+2);
    obuf[n+3] := Entry(ibufs, scales, 2*n+3);
  }

  /** One pass of the last loop of the way back: four imaginary parts, written backwards from the end. */
  method LoadImags(ibufs: seq<array<real>>, scales: seq<real>, obuf: array<real>, n: nat)
    requires |ibufs| > 0 && |scales| == |ibufs| && obuf !in ibufs && 0 < n && 2 * n + 8 <= obuf.Length
    requires forall j :: 0 <= j < |ibufs| ==> ibufs[j].Length == obuf.Length
    modifies obuf
    ensures forall i :: obuf.Length - n - 4 < i <= obuf.Length - n ==>
              obuf[i] == Mixed(Contents(ibufs), scales, obuf.Length)[obuf.Length + n + 4 - i]
    ensures forall i :: 0 <= i <= obuf.Length - n - 4 || obuf.Length - n < i < obuf.Length ==> obuf[i] == old(obuf[i])
  {
    hide Mix, Contents;
    var base := obuf.Length;
    obuf[base-n-0] := Entry(ibufs, scales, 2*n+4);
    obuf[base-n-1] := Entry(ibufs, scales, 2*n+5);
    obuf[base-n-2] := Entry(ibufs, scales, 2*n+6);
    obuf[base-n-3] := Entry(ibufs, scales, 2*n+7);
  }

  /** The imaginary slots of group 0 on the way back. */
  method LoadNyquist(ibufs: seq<array<real>>, scales: seq<real>, obuf: array<real>)
    requires |ibufs| > 0 && |scales| == |ibufs| && obuf !in ibufs && Packable(obuf.Length)
    requires forall j :: 0 <= j < |ibufs| ==> ibufs[j].Length == obuf.Length
    modifies obuf
    ensures var z := Mixed(Contents(ibufs), scales, obuf.Length);
            obuf[obuf.Length / 2] == z[4] &&
            forall i :: obuf.Length - 4 < i < obuf.Length ==> obuf[i] == z[obuf.Length + 4 - i]
    ensures forall i :: 0 <= i <= obuf.Length - 4 && i != obuf.Length / 2 ==> obuf[i] == old(obuf[i])
  {
    hide Mix, Contents;
    var nFft := obuf.Length;
    obuf[nFft / 2] := Entry(ibufs, scales, 4);
    var base := nFft;
    obuf[base-1] := Entry(ibufs, scales, 5);
    obuf[base-2] := Entry(ibufs, scales, 6);
    obuf[base-3] := Entry(ibufs, scales, 7);
  }

  lemma UnpackSlots(z: seq<real>, n: nat, q: nat)
    requires Packable(|z|) && n % 4 == 0 && 2 * n < |z| && q < 4
    ensures 2 * n + 8 <= |z| && Unpack(z)[n + q] == z[2 * n + q]
    ensures n + q > 0 ==> Unpack(z)[|z| - n - q] == z[2 * n + 4 + q]
    ensures Unpack(z)[|z| / 2] == z[4]
  {
    hide Pack, Unpack;
    PackSlots(Unpack(z), n, q);
    PackRoundTrip(z);
  }

  /** The first n places hold what they should. */
  ghost predicate UnpackedBelow(o: seq<real>, y: seq<real>, n: nat) {
    |o| == |y| && forall i :: 0 <= i < n && i < |y| ==> o[i] == y[i]
  }

  /** One pass of the first loop of the way back, seen from the whole. */
  method RealsBackPass(ibufs: seq<array<real>>, scales: seq<real>, obuf: array<real>, n: nat)
    requires |ibufs| > 0 && |scales| == |ibufs| && obuf !in ibufs && Packable(obuf.Length)
    requires forall j :: 0 <= j < |ibufs| ==> ibufs[j].Length == obuf.Length
    requires n % 4 == 0 && 2 * n < obuf.Length
    requires UnpackedBelow(obuf[..], Unpack(Mixed(Contents(ibufs), scales, obuf.Length)), n)
    modifies obuf
    ensures UnpackedBelow(obuf[..], Unpack(Mixed(Contents(ibufs), scales, obuf.Length)), n + 4)
  {
    hide Unpack, Mix, Mixed, Contents;
    ghost var z := Mixed(Contents(ibufs), scales, obuf.Length);
    UnpackSlots(z, n, 0);
    LoadReals(ibufs, scales, obuf, n);
    forall i | n <= i < n + 4 ensures obuf[i] == Unpack(z)[i] {
      UnpackSlots(z, n, i - n);
    }
  }

  /** The first loop of the way back. */
  method LoadAllReals(ibufs: seq<array<real>>, scales: seq<real>, obuf: array<real>) returns (ghost written: seq<int>)
    requires |ibufs| > 0 && |scales| == |ibufs| && obuf !in ibufs && Packable(obuf.Length)
    requires forall j :: 0 <= j < |ibufs| ==> ibufs[j].Length == obuf.Length
    modifies obuf
    ensures UnpackedBelow(obuf[..], Unpack(Mixed(Contents(ibufs), scales, obuf.Length)), obuf.Length / 2)
    ensures |written| == obuf.Length / 2 && OutputSoFar(written, obuf.Length)
  {
    written := [];
    NoWrites(obuf.Length);
    assert UnpackedBelow(obuf[..], Unpack(Mixed(Contents(ibufs), scales, obuf.Length)), 0);
    hide Unpack, Mix, Mixed, Contents, UnpackedBelow, OutputSoFar, Then;
    var nFft := obuf.Length;
    var n := 0;
    while n < nFft / 2
      invariant 0 <= n <= nFft / 2 && n % 4 == 0
      invariant UnpackedBelow(obuf[..], Unpack(Mixed(Contents(ibufs), scales, nFft)), n)
      invariant |written| == n && OutputSoFar(written, nFft)
    {
      RealsBackPass(ibufs, scales, obuf, n);
      MoreForwards(written, nFft);
      written := Then(written, n, 1);
      n := n + 4;
    }
  }

  /** Up to the middle and among the last n - 1 places it is so. */
  ghost predicate UnpackedOutside(o: seq<real>, y: seq<real>, n: nat) {
    |o| == |y| && forall i :: 0 <= i < |y| && (i <= |y| / 2 || |y| - n < i) ==> o[i] == y[i]
  }

  /** The places between the loops. */
  method NyquistBackPass(ibufs: seq<array<real>>, scales: seq<real>, obuf: array<real>)
    requires |ibufs| > 0 && |scales| == |ibufs| && obuf !in ibufs && Packable(obuf.Length)
    requires forall j :: 0 <= j < |ibufs| ==> ibufs[j].Length == obuf.Length
    requires UnpackedBelow(obuf[..], Unpack(Mixed(Contents(ibufs), scales, obuf.Length)), obuf.Length / 2)
    modifies obuf
    ensures UnpackedOutside(obuf[..], Unpack(Mixed(Contents(ibufs), scales, obuf.Length)), 4)
  {
    hide Unpack, Mix, Mixed, Contents;
    ghost var z := Mixed(Contents(ibufs), scales, obuf.Length);
    LoadNyquist(ibufs, scales, obuf);
    LastFour(z, obuf[..]);
  }

  /** One pass of the last loop of the way back, seen from the whole. */
  method ImagsBackPass(ibufs: seq<array<real>>, scales: seq<real>, obuf: array<real>, n: nat)
    requires |ibufs| > 0 && |scales| == |ibufs| && obuf !in ibufs && Packable(obuf.Length)
    requires forall j :: 0 <= j < |ibufs| ==> ibufs[j].Length == obuf.Length
    requires n % 4 == 0 && 0 < n && 2 * n < obuf.Length
    requires UnpackedOutside(obuf[..], Unpack(Mixed(Contents(ibufs), scales, obuf.Length)), n)
    modifies obuf
    ensures UnpackedOutside(obuf[..], Unpack(Mixed(Contents(ibufs), scales, obuf.Length)), n + 4)
  {
    hide Unpack, Mix, Mixed, Contents;
    ghost var z := Mixed(Contents(ibufs), scales, obuf.Length);
    var nFft := obuf.Length;
    UnpackSlots(z, n, 0);
    LoadImags(ibufs, scales, obuf, n);
    forall i | nFft - n - 4 < i <= nFft - n ensures obuf[i] == Unpack(z)[i] {
      UnpackSlots(z, n, nFft - n - i);
    }
  }

  /** Mixing out of the packed layout; written are the places in the order they are written. */
  method MixOutput(ibufs: seq<array<real>>, obuf: array<real>, scales: seq<real>) returns (ghost written: seq<int>)
    requires |ibufs| > 0 && |scales| == |ibufs| && obuf !in ibufs && Packable(obuf.Length)
    requires forall j :: 0 <= j < |ibufs| ==> ibufs[j].Length == obuf.Length
    modifies obuf
    ensures obuf[..] == Unpack(Mixed(Contents(ibufs), scales, obuf.Length)) && EachOnce(written, obuf.Length)
  {
    hide Unpack, Mix, Mixed, Contents, UnpackedBelow, UnpackedOutside, EachOnce, OutputSoFar, Then, ThenMiddle;
    var nFft := obuf.Length;
    written := LoadAllReals(ibufs, scales, obuf);
    NyquistBackPass(ibufs, scales, obuf);
    MiddleAndLast(written, nFft);
    written := ThenMiddle(written, nFft);
    var n := 4;
    while n < nFft / 2
      invariant 4 <= n <= nFft / 2 && n % 4 == 0
      invariant UnpackedOutside(obuf[..], Unpack(Mixed(Contents(ibufs), scales, nFft)), n)
      invariant |written| == nFft / 2 + n && OutputSoFar(written, nFft)
    {
      ImagsBackPass(ibufs, scales, obuf, n);
      MoreBackwards(written, nFft, n);
      written := Then(written, nFft - n, -1);
      n := n + 4;
    }
    AllUnpacked(obuf[..], Unpack(Mixed(Contents(ibufs), scales, nFft)), n);
    OutputOnce(nFft, written);
  }

  lemma AllUnpacked(o: seq<real>, y: seq<real>, n: nat)
    requires UnpackedOutside(o, y, n) && n >= |y| / 2 && |y| % 2 == 0
    ensures o == y
  {
  }

  lemma LastFour(z: seq<real>, o: seq<real>)
    requires Packable(|z|) && |o| == |z|
    requires o[|z| / 2] == z[4] && forall i :: |z| - 4 < i < |z| ==> o[i] == z[|z| + 4 - i]
    ensures forall i :: |z| - 4 < i < |z| || i == |z| / 2 ==> o[i] == Unpack(z)[i]
  {
  }

  /** Unpacking what was packed gives the spectrum back, times both scales. */
  lemma MixThereAndBack(y: seq<real>, a: real, b: real)
    requires Packable(|y|)
    ensures Unpack(Mixed([Pack(Mixed([y], [a], |y|))], [b], |y|)) == Scaled(Scaled(y, a), b)
  {
    hide Unpack, Pack, Mixed, Scaled;
    MixOne(y, a);
    MixOne(Pack(Scaled(y, a)), b);
    PackLinear(Pack(Scaled(y, a)), Pack(Scaled(y, a)), b);
    PackRoundTrip(Scaled(y, a));
  }
}
