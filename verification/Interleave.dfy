/**
 Moving one channel between an interleaved buffer and a contiguous one.
 */
module Interleave {
  import opened Arithmetic
  import opened Sums

  /** Position of frame i of channel n among `channels` interleaved channels. */
  function Position(n: int, i: int, channels: int): int {
    n + i * channels
  }

  lemma PositionInside(n: nat, i: nat, channels: nat, frames: nat)
    requires n < channels && i < frames
    ensures 0 <= Position(n, i, channels) < frames * channels
    ensures Position(n, i, channels) % channels == n && Position(n, i, channels) / channels == i
  {
    RowInside(i, frames, channels);
    assert channels * i + n == Position(n, i, channels);
    SmallRemainder(channels, i, n);
    var p := Position(n, i, channels);
    assert p == channels * (p / channels) + p % channels;
    assert channels * (p / channels - i) == 0;
  }

  /** Every position belongs to one frame of one channel. */
  lemma PositionOf(p: nat, channels: nat, frames: nat)
    requires channels > 0 && p < frames * channels
    ensures p % channels < channels && p / channels < frames
    ensures Position(p % channels, p / channels, channels) == p
  {
  }

  /** Channel n of an interleaved signal. */
  function Channel(raw: seq<real>, n: nat, channels: nat): (x: seq<real>)
    requires channels > 0
    ensures |x| == |raw| / channels
  {
    seq(|raw| / channels, i => At(raw, Position(n, i, channels)))
  }

  /** Its sample i is the one `channels` times i places behind the first sample of the channel. */
  lemma ChannelAt(raw: seq<real>, n: nat, channels: nat, i: nat, p: nat)
    requires n < channels && i < |raw| / channels && p == n + channels * i
    ensures p < |raw| && Channel(raw, n, channels)[i] == raw[p]
  {
    PositionInside(n, i, channels, |raw| / channels);
    WholeFramesInside(|raw|, channels);
    PositionIs(n, i, channels);
    hide Position;
  }

  lemma WholeFramesInside(len: nat, channels: nat)
    requires channels > 0
    ensures (len / channels) * channels <= len
  {
  }

  lemma PositionIs(n: int, i: int, channels: int)
    ensures Position(n, i, channels) == n + channels * i
  {
  }

  lemma FramesOf(frames: nat, channels: nat)
    requires channels > 0
    ensures (frames * channels) % channels == 0 && (frames * channels) / channels == frames
  {
    assert channels * frames + 0 == frames * channels;
    SmallRemainder(channels, frames, 0);
    var p := frames * channels;
    assert p == channels * (p / channels);
    assert channels * (p / channels - frames) == 0;
  }

  /** Reading channel n into `next`, and again into the second half of `cur`. */
  method Raw2Cbuf(raw: array<real>, cur: array<real>, next: array<real>, n: nat, channels: nat, len: nat)
    requires n < channels && raw.Length == len * channels
    requires cur.Length == next.Length == 2 * len && cur != next && raw != cur && raw != next
    modifies cur, next
    ensures next[..len] == Channel(raw[..], n, channels)
    ensures cur[..] == old(cur[..len]) + Channel(raw[..], n, channels)
  {
    FramesOf(len, channels);
    ghost var x := Channel(raw[..], n, channels);
    for i := 0 to len
      invariant forall k :: 0 <= k < i ==> next[k] == x[k]
      invariant cur[..] == old(cur[..]) && raw[..] == old(raw[..])
    {
      PositionInside(n, i, channels, len);
      next[i] := raw[Position(n, i, channels)];
    }
    forall i | 0 <= i < len {
      cur[len + i] := next[i];
    }
    assert raw[..] == old(raw[..]);
  }

  /** Writing the first len samples as channel n, leaving the other channels alone. */
  method Cbuf2Raw(cbuf: array<real>, raw: array<real>, n: nat, channels: nat, len: nat)
    requires n < channels && raw.Length == len * channels && cbuf.Length >= len && cbuf != raw
    modifies raw
    ensures forall i :: 0 <= i < len ==>
              0 <= Position(n, i, channels) < raw.Length && raw[Position(n, i, channels)] == cbuf[i]
    ensures forall p :: 0 <= p < raw.Length && p % channels != n ==> raw[p] == old(raw[p])
  {
    for i := 0 to len
      invariant forall k :: 0 <= k < i ==>
                  0 <= Position(n, k, channels) < raw.Length && raw[Position(n, k, channels)] == cbuf[k]
      invariant forall p :: 0 <= p < raw.Length && p % channels != n ==> raw[p] == old(raw[p])
    {
      PositionInside(n, i, channels, len);
      ghost var before := raw[..];
      raw[Position(n, i, channels)] := cbuf[i];
      forall k | 0 <= k < i
        ensures 0 <= Position(n, k, channels) < raw.Length && raw[Position(n, k, channels)] == cbuf[k]
      {
        PositionInside(n, k, channels, len);
      }
    }
  }
}
