/**
 The direct-form filter every fast path must equal, and its algebra over taps and time.
 */
module Fir {
  import opened Sums

  /** Output t of the filter with taps h on signal x, silent before x starts: sum of h[k] * x[t-k]. */
  function Response(h: seq<real>, x: seq<real>, t: int): real {
    Sum(|h|, Tap(h, x, t))
  }

  function Tap(h: seq<real>, x: seq<real>, t: int): int -> real {
    k => At(h, k) * At(x, t - k)
  }

  function Zeros(n: nat): (z: seq<real>)
    ensures |z| == n
  {
    seq(n, _ => 0.0)
  }

  /** Samples still to come do not matter. */
  lemma Causal(h: seq<real>, x: seq<real>, later: seq<real>, t: int)
    requires t < |x|
    ensures Response(h, x + later, t) == Response(h, x, t)
  {
    var f, g := Tap(h, x + later, t), Tap(h, x, t);
    forall k | 0 <= k < |h| ensures f(k) == g(k) {
      assert At(x + later, t - k) == At(x, t - k);
    }
    SumEq(|h|, f, g);
  }

  /** Nothing comes out before anything went in. */
  lemma SilentBefore(h: seq<real>, x: seq<real>, t: int)
    requires t < 0
    ensures Response(h, x, t) == 0.0
  {
    var f := Tap(h, x, t);
    forall k | 0 <= k < |h| ensures f(k) == 0.0 {
      assert At(x, t - k) == 0.0;
    }
    SumZero(|h|, f);
  }

  /** A filter cut into a head and a tail: the tail works on the signal |head| samples later. */
  lemma SplitTaps(head: seq<real>, tail: seq<real>, x: seq<real>, t: int)
    ensures Response(head + tail, x, t) == Response(head, x, t) + Response(tail, x, t - |head|)
  {
    var h := head + tail;
    SumSplit(|head|, |tail|, Tap(h, x, t), Tap(tail, x, t - |head|));
    SumEq(|head|, Tap(h, x, t), Tap(head, x, t));
  }

  /** Taps older than the signal do not matter. */
  lemma EarlyTaps(h: seq<real>, m: nat, x: seq<real>, t: int)
    requires m <= |h| && t < m
    ensures Response(h[..m], x, t) == Response(h, x, t)
  {
    assert h == h[..m] + h[m..];
    SplitTaps(h[..m], h[m..], x, t);
    SilentBefore(h[m..], x, t - m);
  }

  /** Zero taps at the end do not matter. */
  lemma PaddedTaps(h: seq<real>, n: nat, x: seq<real>, t: int)
    ensures Response(h + Zeros(n), x, t) == Response(h, x, t)
  {
    SplitTaps(h, Zeros(n), x, t);
    SumZero(n, Tap(Zeros(n), x, t - |h|));
  }
}
