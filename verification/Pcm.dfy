/**
 Integer samples of one to four bytes, in either byte order, at any spacing in a raw buffer: decoding them to
 reals and encoding reals without dither.
 */
module Pcm {
  import opened Strided
  import opened Quantiser

  type byte = b: int | 0 <= b < 256

  // ---------------------------------------------------------------- numbers as bytes

  function Pow256(n: nat): (p: int)
    ensures p > 0
  {
    if n == 0 then 1 else 256 * Pow256(n - 1)
  }

  /** The number whose bytes these are, low one first. */
  function Unsigned(bs: seq<byte>): (v: int)
    ensures 0 <= v < Pow256(|bs|)
  {
    if bs == [] then 0 else bs[0] + 256 * Unsigned(bs[1..])
  }

  /** The low n bytes of a number. */
  function ToBytes(v: int, n: nat): (bs: seq<byte>)
    ensures |bs| == n
    decreases n
  {
    if n == 0 then [] else [v % 256] + ToBytes(v / 256, n - 1)
  }

  lemma {:induction false} BytesRoundTrip(bs: seq<byte>, m: int)
    ensures ToBytes(Unsigned(bs) + m * Pow256(|bs|), |bs|) == bs
  {
    if bs != [] {
      var rest := bs[1..];
      BytesRoundTrip(rest, m);
      LowByte(bs[0], Unsigned(rest), m, Pow256(|rest|));
    }
  }

  lemma LowByte(b: byte, rest: int, m: int, p: int)
    ensures (b + 256 * rest + m * (256 * p)) % 256 == b
    ensures (b + 256 * rest + m * (256 * p)) / 256 == rest + m * p
  {
  }

  /** Two's complement. */
  function Signed(bs: seq<byte>): (v: int)
    requires bs != []
  {
    var u := Unsigned(bs);
    if u < Pow256(|bs|) / 2 then u else u - Pow256(|bs|)
  }

  lemma SignedRoundTrip(bs: seq<byte>)
    requires bs != []
    ensures ToBytes(Signed(bs), |bs|) == bs
  {
    hide ToBytes, Unsigned, Pow256;
    if Unsigned(bs) < Pow256(|bs|) / 2 {
      BytesRoundTrip(bs, 0);
    } else {
      BytesRoundTrip(bs, -1);
    }
  }

  function ImaxOf(n: nat): int {
    Pow256(n) / 2 - 1
  }

  function IminOf(n: nat): int {
    -(Pow256(n) / 2)
  }

  /** The limits of the four sizes. */
  lemma Limits()
    ensures IminOf(1) == -128 && ImaxOf(1) == 127
    ensures IminOf(2) == -32768 && ImaxOf(2) == 32767
    ensures IminOf(3) == -8388608 && ImaxOf(3) == 8388607
    ensures IminOf(4) == -2147483648 && ImaxOf(4) == 2147483647
  {
    assert Pow256(1) == 256 && Pow256(2) == 65536 && Pow256(3) == 16777216 && Pow256(4) == 4294967296 by {
      assert Pow256(0) == 1;
      assert Pow256(1) == 256 * Pow256(0);
      assert Pow256(2) == 256 * Pow256(1);
      assert Pow256(3) == 256 * Pow256(2);
      assert Pow256(4) == 256 * Pow256(3);
    }
  }

  lemma SignedRange(bs: seq<byte>)
    requires bs != []
    ensures IminOf(|bs|) <= Signed(bs) <= ImaxOf(|bs|) && IminOf(|bs|) < 0 <= ImaxOf(|bs|)
  {
  }

  lemma EvenPower(n: nat)
    requires n > 0
    ensures Pow256(n) == 2 * (Pow256(n) / 2) && Pow256(n) >= 256
  {
  }

  // ---------------------------------------------------------------- one sample

  function Reversed(bs: seq<byte>): (r: seq<byte>)
    ensures |r| == |bs|
  {
    seq(|bs|, i requires 0 <= i < |bs| => bs[|bs| - 1 - i])
  }

  function Ordered(bs: seq<byte>, swap: bool): (r: seq<byte>)
    ensures |r| == |bs|
  {
    if swap then Reversed(bs) else bs
  }

  lemma OrderedTwice(bs: seq<byte>, swap: bool)
    ensures Ordered(Ordered(bs, swap), swap) == bs
  {
  }

  function Decoded(bs: seq<byte>, swap: bool): (v: int)
    requires bs != []
  {
    Signed(Ordered(bs, swap))
  }

  function Encoded(v: int, bytes: nat, swap: bool): (bs: seq<byte>)
    ensures |bs| == bytes
  {
    Ordered(ToBytes(v, bytes), swap)
  }

  /** Decoding and encoding without dither gives the bytes back; only the largest sample counts as clipped. */
  lemma SampleRoundTrip(bs: seq<byte>, swap: bool)
    requires bs != []
    ensures var n, d := |bs|, Decoded(bs, swap) as real + 0.5;
            Encoded(Sample(d, IminOf(n), ImaxOf(n)), n, swap) == bs &&
            (Clips(d, IminOf(n), ImaxOf(n)) <==> Decoded(bs, swap) == ImaxOf(n))
  {
    var o := Ordered(bs, swap);
    SignedRange(o);
    IntegerSample(Signed(o), IminOf(|bs|), ImaxOf(|bs|));
    SignedRoundTrip(o);
    OrderedTwice(bs, swap);
  }

  /** What the bytes of a sample at position i mean: the first byte is the lowest, or with swapped order the last one;
      the value lies in the range of its size and differs from their sum by nothing or by the modulus. */
  lemma DecodedMeans(raw: seq<byte>, i: nat, bytes: nat, swap: bool)
    requires 1 <= bytes <= 4 && i + bytes <= |raw|
    ensures var v := Decoded(raw[i..i + bytes], swap);
            var low := if swap then i + bytes - 1 else i;
            var up := if swap then -1 else 1;
            var m: int :=
              if bytes == 1 then 256 else if bytes == 2 then 65536 else if bytes == 3 then 16777216 else 4294967296;
            var u: int := raw[low] as int + (if bytes >= 2 then 256 * raw[low + up] as int else 0) +
                          (if bytes >= 3 then 65536 * raw[low + 2 * up] as int else 0) +
                          (if bytes == 4 then 16777216 * raw[low + 3 * up] as int else 0);
            -m <= 2 * v < m && (v == u || v == u - m)
  {
    var bs := Ordered(raw[i..i + bytes], swap);
    SumOfBytes(bs);
    hide Unsigned, Pow256;
  }

  lemma SumOfBytes(bs: seq<byte>)
    requires 1 <= |bs| <= 4
    ensures Pow256(|bs|) ==
            if |bs| == 1 then 256 else if |bs| == 2 then 65536 else if |bs| == 3 then 16777216 else 4294967296
    ensures Unsigned(bs) == bs[0] as int + (if |bs| >= 2 then 256 * bs[1] as int else 0) +
            (if |bs| >= 3 then 65536 * bs[2] as int else 0) + (if |bs| == 4 then 16777216 * bs[3] as int else 0)
  {
    Limits();
    if |bs| >= 2 {
      assert Unsigned(bs) == bs[0] + 256 * Unsigned(bs[1..]);
      if |bs| >= 3 {
        assert Unsigned(bs[1..]) == bs[1] + 256 * Unsigned(bs[1..][1..]);
        assert bs[1..][1..] == bs[2..];
        if |bs| == 4 {
          assert bs[2..][1..] == bs[3..];
        }
      }
    }
  }

  /** The bytes of a value in positions: byte k is what is left of the value over 256 to the k. */
  lemma EncodedMeans(v: int, bytes: nat, swap: bool)
    requires 1 <= bytes <= 4
    ensures var bs := Encoded(v, bytes, swap);
            var low := if swap then bytes - 1 else 0;
            var up := if swap then -1 else 1;
            bs[low] == v % 256 && (bytes >= 2 ==> bs[low + up] == v / 256 % 256) &&
            (bytes >= 3 ==> bs[low + 2 * up] == v / 65536 % 256) &&
            (bytes == 4 ==> bs[low + 3 * up] == v / 16777216 % 256)
  {
    var bs := ToBytes(v, bytes);
    LowBytes(v, bytes);
    hide ToBytes;
  }

  lemma LowBytes(v: int, n: nat)
    requires 1 <= n <= 4
    ensures ToBytes(v, n)[0] == v % 256
    ensures n >= 2 ==> ToBytes(v, n)[1] == v / 256 % 256
    ensures n >= 3 ==> ToBytes(v, n)[2] == v / 65536 % 256
    ensures n == 4 ==> ToBytes(v, n)[3] == v / 16777216 % 256
  {
    assert v / 256 / 256 == v / 65536 && v / 65536 / 256 == v / 16777216;
    if n >= 2 {
      assert ToBytes(v, n)[1..] == ToBytes(v / 256, n - 1);
      if n >= 3 {
        assert ToBytes(v / 256, n - 1)[1..] == ToBytes(v / 65536, n - 2);
      }
    }
  }

  // ---------------------------------------------------------------- whole buffers

  /** Bytes from one sample of a channel to its next. */
  function Stride(bytes: int, spacing: int): int {
    bytes * spacing
  }

  predicate Supported(bytes: int) {
    1 <= bytes <= 4
  }

  /** n samples of some bytes, stride bytes apart, lie inside a buffer of len. */
  predicate Room(len: nat, base: int, stride: int, bytes: nat, n: int) {
    base >= 0 && stride >= bytes && n >= 0 && (n > 0 ==> Place(base, stride, n - 1) + bytes <= len)
  }

  lemma RoomInside(len: nat, base: int, stride: int, bytes: nat, n: int, k: int)
    requires Room(len, base, stride, bytes, n) && 0 <= k < n && bytes > 0
    ensures 0 <= Place(base, stride, k) && Place(base, stride, k) + bytes <= len
  {
  }

  /** The bytes of sample k. */
  function SampleBytes(raw: seq<byte>, base: int, stride: int, bytes: nat, k: int): (bs: seq<byte>)
    requires 0 <= Place(base, stride, k) && Place(base, stride, k) + bytes <= |raw|
    ensures |bs| == bytes
  {
    raw[Place(base, stride, k)..Place(base, stride, k) + bytes]
  }

  /** Reading one sample as the machine does: a three-byte sample goes into the upper bytes of a word that is
      shifted down again. */
  method LoadSample(rawbuf: array<byte>, i: int, bytes: int, swap: bool) returns (v: int)
    requires Supported(bytes) && 0 <= i && i + bytes <= rawbuf.Length
    ensures v == Decoded(rawbuf[i..i + bytes], swap)
    ensures var low := if swap then i + bytes - 1 else i;
            var up := if swap then -1 else 1;
            var m: int :=
              if bytes == 1 then 256 else if bytes == 2 then 65536 else if bytes == 3 then 16777216 else 4294967296;
            var u: int := rawbuf[low] as int + (if bytes >= 2 then 256 * rawbuf[low + up] as int else 0) +
                          (if bytes >= 3 then 65536 * rawbuf[low + 2 * up] as int else 0) +
                          (if bytes == 4 then 16777216 * rawbuf[low + 3 * up] as int else 0);
            -m <= 2 * v < m && (v == u || v == u - m)
  {
    v := LoadWord(rawbuf, i, bytes, swap);
    DecodedMeans(rawbuf[..], i, bytes, swap);
    assert rawbuf[..][i..i + bytes] == rawbuf[i..i + bytes];
    hide Decoded;
  }

  method LoadWord(rawbuf: array<byte>, i: int, bytes: int, swap: bool) returns (v: int)
    requires Supported(bytes) && 0 <= i && i + bytes <= rawbuf.Length
    ensures v == Decoded(rawbuf[i..i + bytes], swap)
  {
    ghost var bs := rawbuf[i..i + bytes];
    hide Signed;
    match bytes
    case 1 =>
      v := Signed([rawbuf[i]]);
      assert Ordered(bs, swap) == [rawbuf[i]];
    case 2 =>
      if swap {
        v := Signed([rawbuf[i + 1], rawbuf[i]]);
        assert Ordered(bs, swap) == [rawbuf[i + 1], rawbuf[i]];
      } else {
        v := Signed([rawbuf[i], rawbuf[i + 1]]);
        assert bs == [rawbuf[i], rawbuf[i + 1]];
      }
    case 3 =>
      if swap {
        v := Signed([0, rawbuf[i + 2], rawbuf[i + 1], rawbuf[i]]) / 256;
        assert Ordered(bs, swap) == [rawbuf[i + 2], rawbuf[i + 1], rawbuf[i]];
        ShiftedDown(rawbuf[i + 2], rawbuf[i + 1], rawbuf[i]);
      } else {
        v := Signed([0, rawbuf[i], rawbuf[i + 1], rawbuf[i + 2]]) / 256;
        assert bs == [rawbuf[i], rawbuf[i + 1], rawbuf[i + 2]];
        ShiftedDown(rawbuf[i], rawbuf[i + 1], rawbuf[i + 2]);
      }
    case _ =>
      if swap {
        v := Signed([rawbuf[i + 3], rawbuf[i + 2], rawbuf[i + 1], rawbuf[i]]);
        assert Ordered(bs, swap) == [rawbuf[i + 3], rawbuf[i + 2], rawbuf[i + 1], rawbuf[i]];
      } else {
        v := Signed([rawbuf[i], rawbuf[i + 1], rawbuf[i + 2], rawbuf[i + 3]]);
        assert bs == [rawbuf[i], rawbuf[i + 1], rawbuf[i + 2], rawbuf[i + 3]];
      }
  }

  /** The shift of a word by one byte keeps the sign. */
  lemma ShiftedDown(b1: byte, b2: byte, b3: byte)
    ensures Signed([0, b1, b2, b3]) / 256 == Signed([b1, b2, b3])
  {
  }

  /** Writing one sample the same way, its low bytes. */
  method StoreSample(rawbuf: array<byte>, i: int, bytes: int, swap: bool, v: int)
    requires Supported(bytes) && 0 <= i && i + bytes <= rawbuf.Length
    modifies rawbuf
    ensures rawbuf[..] == old(rawbuf[..i]) + Encoded(v, bytes, swap) + old(rawbuf[i + bytes..])
    ensures forall p :: 0 <= p < rawbuf.Length && !(i <= p < i + bytes) ==> rawbuf[p] == old(rawbuf[p])
    ensures var low := if swap then i + bytes - 1 else i;
            var up := if swap then -1 else 1;
            rawbuf[low] == v % 256 && (bytes >= 2 ==> rawbuf[low + up] == v / 256 % 256) &&
            (bytes >= 3 ==> rawbuf[low + 2 * up] == v / 65536 % 256) &&
            (bytes == 4 ==> rawbuf[low + 3 * up] == v / 16777216 % 256)
  {
    EncodedMeans(v, bytes, swap);
    StoreWord(rawbuf, i, bytes, swap, v);
    hide Encoded;
    assert rawbuf[..][i..i + bytes] == Encoded(v, bytes, swap);
  }

  method StoreWord(rawbuf: array<byte>, i: int, bytes: int, swap: bool, v: int)
    requires Supported(bytes) && 0 <= i && i + bytes <= rawbuf.Length
    modifies rawbuf
    ensures rawbuf[..] == old(rawbuf[..i]) + Encoded(v, bytes, swap) + old(rawbuf[i + bytes..])
  {
    FourBytes(v);
    assert ToBytes(v, 4)[..bytes] == ToBytes(v, bytes);
    hide *;
    var u8 := Ordered(ToBytes(v, 4)[..bytes], swap);
    EncodedIs(v, bytes, swap);
    StoreBytes(rawbuf, i, u8);
  }

  method StoreBytes(rawbuf: array<byte>, i: nat, u8: seq<byte>)
    requires i + |u8| <= rawbuf.Length
    modifies rawbuf
    ensures rawbuf[..] == old(rawbuf[..i]) + u8 + old(rawbuf[i + |u8|..])
  {
    for k := 0 to |u8|
      invariant forall j :: 0 <= j < k ==> rawbuf[i + j] == u8[j]
      invariant rawbuf[..i] == old(rawbuf[..i]) && rawbuf[i + k..] == old(rawbuf[i + k..])
    {
      rawbuf[i + k] := u8[k];
    }
    assert rawbuf[i..i + |u8|] == u8;
    assert rawbuf[..] == rawbuf[..i] + rawbuf[i..i + |u8|] + rawbuf[i + |u8|..];
  }

  lemma EncodedIs(v: int, bytes: nat, swap: bool)
    ensures Encoded(v, bytes, swap) == Ordered(ToBytes(v, bytes), swap)
  {
  }

  /** The low bytes of a word are the bytes of the shorter numbers. */
  lemma {:induction false} BytesPrefix(v: int, n: nat, m: nat)
    requires m <= n
    ensures ToBytes(v, n)[..m] == ToBytes(v, m)
    decreases n
  {
    if m > 0 {
      BytesPrefix(v / 256, n - 1, m - 1);
      assert ToBytes(v, n)[..m] == [v % 256] + ToBytes(v / 256, n - 1)[..m - 1];
    }
  }

  lemma FourBytes(v: int)
    ensures ToBytes(v, 4)[..1] == ToBytes(v, 1) && ToBytes(v, 4)[..2] == ToBytes(v, 2)
    ensures ToBytes(v, 4)[..3] == ToBytes(v, 3) && ToBytes(v, 4)[..4] == ToBytes(v, 4)
  {
    hide ToBytes;
    BytesPrefix(v, 4, 1);
    BytesPrefix(v, 4, 2);
    BytesPrefix(v, 4, 3);
    BytesPrefix(v, 4, 4);
  }

  /** Decoding a channel. Other sample sizes leave the reals as they are. */
  method Raw2Real(realbuf: array<real>, rawbuf: array<byte>, base: int, bytes: int, spacing: int, swap: bool,
                  nSamples: nat)
    requires spacing > 0 && nSamples <= realbuf.Length
    requires Supported(bytes) ==> Room(rawbuf.Length, base, Stride(bytes, spacing), bytes, nSamples)
    modifies realbuf
    ensures Supported(bytes) ==>
              DecodedFrom(rawbuf[..], base, Stride(bytes, spacing), bytes, swap, realbuf[..nSamples])
    ensures realbuf[nSamples..] == old(realbuf[nSamples..])
    ensures !Supported(bytes) ==> realbuf[..] == old(realbuf[..])
  {
    if !Supported(bytes) {
      return;
    }
    assert bytes > 0;
    hide *;
    var stride := Stride(bytes, spacing);
    var n, i := 0, base;
    PlaceZero(base, stride);
    DecodedNothing(rawbuf[..], base, stride, bytes, swap);
    assert realbuf[..0] == [];
    while n < nSamples
      invariant 0 <= n <= nSamples && i == Place(base, stride, n)
      invariant DecodedFrom(rawbuf[..], base, stride, bytes, swap, realbuf[..n])
      invariant realbuf[nSamples..] == old(realbuf[nSamples..])
    {
      RoomInside(rawbuf.Length, base, stride, bytes, nSamples, n);
      PlaceNext(base, stride, n);
      ghost var xs := realbuf[..n];
      var v := LoadSample(rawbuf, i, bytes, swap);
      realbuf[n] := v as real;
      DecodedMore(rawbuf[..], base, stride, bytes, swap, xs, v);
      assert realbuf[..n + 1] == xs + [v as real];
      n, i := n + 1, i + stride;
    }
  }

  /** The bytes of every sample lie in the buffer. */
  ghost predicate AllRoom(len: nat, base: int, stride: int, bytes: nat, n: nat) {
    forall k :: 0 <= k < n ==> 0 <= Place(base, stride, k) && Place(base, stride, k) + bytes <= len
  }

  /** xs are the values of the first samples. */
  ghost predicate DecodedFrom(raw: seq<byte>, base: int, stride: int, bytes: nat, swap: bool, xs: seq<real>) {
    bytes > 0 && AllRoom(|raw|, base, stride, bytes, |xs|) &&
    forall k :: 0 <= k < |xs| ==> xs[k] == Decoded(SampleBytes(raw, base, stride, bytes, k), swap) as real
  }

  lemma DecodedMore(raw: seq<byte>, base: int, stride: int, bytes: nat, swap: bool, xs: seq<real>, v: int)
    requires DecodedFrom(raw, base, stride, bytes, swap, xs)
    requires 0 <= Place(base, stride, |xs|) && Place(base, stride, |xs|) + bytes <= |raw|
    requires v == Decoded(raw[Place(base, stride, |xs|)..Place(base, stride, |xs|) + bytes], swap)
    ensures DecodedFrom(raw, base, stride, bytes, swap, xs + [v as real])
  {
    hide Place, Decoded, SampleBytes;
    var more := xs + [v as real];
    assert SampleBytes(raw, base, stride, bytes, |xs|)
        == raw[Place(base, stride, |xs|)..Place(base, stride, |xs|) + bytes] by {
      SampleBytesAre(raw, base, stride, bytes, |xs|);
    }
    forall k | 0 <= k < |xs| ensures more[k] == Decoded(SampleBytes(raw, base, stride, bytes, k), swap) as real {
      assert more[k] == xs[k];
    }
  }

  lemma SampleBytesAre(raw: seq<byte>, base: int, stride: int, bytes: nat, k: int)
    requires 0 <= Place(base, stride, k) && Place(base, stride, k) + bytes <= |raw|
    ensures SampleBytes(raw, base, stride, bytes, k) == raw[Place(base, stride, k)..Place(base, stride, k) + bytes]
  {
  }

  lemma DecodedNothing(raw: seq<byte>, base: int, stride: int, bytes: nat, swap: bool)
    requires bytes > 0
    ensures DecodedFrom(raw, base, stride, bytes, swap, [])
  {
  }

  /** Sample k of a decoded channel, in positions. */
  lemma ChannelDecoded(raw: seq<byte>, base: int, bytes: nat, spacing: int, swap: bool, xs: seq<real>, k: nat, i: int)
    requires 1 <= bytes <= 4 && DecodedFrom(raw, base, Stride(bytes, spacing), bytes, swap, xs)
    requires k < |xs| && i == base + bytes * spacing * k
    ensures 0 <= i && i + bytes <= |raw|
    ensures var low := if swap then i + bytes - 1 else i;
            var up := if swap then -1 else 1;
            var m: int :=
              if bytes == 1 then 256 else if bytes == 2 then 65536 else if bytes == 3 then 16777216 else 4294967296;
            var u: int := raw[low] as int + (if bytes >= 2 then 256 * raw[low + up] as int else 0) +
                          (if bytes >= 3 then 65536 * raw[low + 2 * up] as int else 0) +
                          (if bytes == 4 then 16777216 * raw[low + 3 * up] as int else 0);
            exists v: int :: xs[k] == v as real && -m <= 2 * v < m && (v == u || v == u - m)
  {
    hide *;
    SampleFrom(raw, base, bytes, spacing, swap, xs, k, i);
    DecodedMeans(raw, i, bytes, swap);
  }

  lemma SampleFrom(raw: seq<byte>, base: int, bytes: nat, spacing: int, swap: bool, xs: seq<real>, k: nat, i: int)
    requires bytes > 0 && DecodedFrom(raw, base, Stride(bytes, spacing), bytes, swap, xs)
    requires k < |xs| && i == base + bytes * spacing * k
    ensures 0 <= i && i + bytes <= |raw| && xs[k] == Decoded(raw[i..i + bytes], swap) as real
  {
    hide Decoded;
    assert Place(base, Stride(bytes, spacing), k) == i;
  }

  /** Position p belongs to one of the first n samples. */
  ghost predicate Covered(base: int, stride: int, bytes: nat, n: int, p: int) {
    exists k :: 0 <= k < n && Place(base, stride, k) <= p < Place(base, stride, k) + bytes
  }

  /** The first n samples of the buffer are written, the rest of it is as before. */
  ghost predicate Written(before: seq<byte>, raw: seq<byte>, base: int, stride: int, bytes: nat, swap: bool,
                          ys: seq<int>)
  {
    |raw| == |before| &&
    (forall k :: 0 <= k < |ys| ==>
       0 <= Place(base, stride, k) && Place(base, stride, k) + bytes <= |raw| &&
       SampleBytes(raw, base, stride, bytes, k) == Encoded(ys[k], bytes, swap)) &&
    forall p :: 0 <= p < |raw| && !Covered(base, stride, bytes, |ys|, p) ==> raw[p] == before[p]
  }

  /** Sample k of an encoded channel, in positions. */
  lemma ChannelEncoded(before: seq<byte>, raw: seq<byte>, base: int, bytes: nat, spacing: int, swap: bool,
                       ys: seq<int>, k: nat, i: int)
    requires 1 <= bytes <= 4 && Written(before, raw, base, Stride(bytes, spacing), bytes, swap, ys)
    requires k < |ys| && i == base + bytes * spacing * k
    ensures 0 <= i && i + bytes <= |raw|
    ensures var low := if swap then i + bytes - 1 else i;
            var up := if swap then -1 else 1;
            raw[low] == ys[k] % 256 && (bytes >= 2 ==> raw[low + up] == ys[k] / 256 % 256) &&
            (bytes >= 3 ==> raw[low + 2 * up] == ys[k] / 65536 % 256) &&
            (bytes == 4 ==> raw[low + 3 * up] == ys[k] / 16777216 % 256)
  {
    hide *;
    SampleIn(before, raw, base, bytes, spacing, swap, ys, k, i);
    EncodedMeans(ys[k], bytes, swap);
  }

  lemma SampleIn(before: seq<byte>, raw: seq<byte>, base: int, bytes: nat, spacing: int, swap: bool, ys: seq<int>,
                 k: nat, i: int)
    requires bytes > 0 && Written(before, raw, base, Stride(bytes, spacing), bytes, swap, ys)
    requires k < |ys| && i == base + bytes * spacing * k
    ensures 0 <= i && i + bytes <= |raw|
    ensures forall j :: 0 <= j < bytes ==> raw[i + j] == Encoded(ys[k], bytes, swap)[j]
  {
    hide Encoded;
    assert Place(base, Stride(bytes, spacing), k) == i;
    var bs := SampleBytes(raw, base, Stride(bytes, spacing), bytes, k);
    assert forall j :: 0 <= j < bytes ==> raw[i + j] == bs[j];
  }

  /** A byte of none of the samples is what it was. */
  lemma OutsideKept(before: seq<byte>, raw: seq<byte>, base: int, bytes: nat, spacing: int, swap: bool, ys: seq<int>,
                    p: int)
    requires Written(before, raw, base, Stride(bytes, spacing), bytes, swap, ys) && 0 <= p < |raw|
    requires forall k :: 0 <= k < |ys| ==> !(0 <= p - (base + bytes * spacing * k) < bytes)
    ensures |raw| == |before| && raw[p] == before[p]
  {
    hide Encoded;
    var stride := Stride(bytes, spacing);
    forall k | 0 <= k < |ys| ensures !(Place(base, stride, k) <= p < Place(base, stride, k) + bytes) {
      assert Place(base, stride, k) == base + bytes * spacing * k;
    }
  }

  lemma WrittenStep(before: seq<byte>, raw: seq<byte>, after: seq<byte>, base: int, stride: int, bytes: nat, swap: bool,
                    ys: seq<int>, y: int)
    requires Written(before, raw, base, stride, bytes, swap, ys) && bytes > 0 && stride >= bytes
    requires 0 <= Place(base, stride, |ys|) && Place(base, stride, |ys|) + bytes <= |raw|
    requires after ==
             raw[..Place(base, stride, |ys|)] + Encoded(y, bytes, swap) + raw[Place(base, stride, |ys|) + bytes..]
    ensures Written(before, after, base, stride, bytes, swap, ys + [y])
  {
    hide Place, Encoded;
    var n, i := |ys|, Place(base, stride, |ys|);
    forall k | 0 <= k < n
      ensures SampleBytes(after, base, stride, bytes, k) == Encoded(ys[k], bytes, swap)
    {
      PlaceOrder(base, stride, k, n);
      assert SampleBytes(after, base, stride, bytes, k) == SampleBytes(raw, base, stride, bytes, k);
    }
    assert SampleBytes(after, base, stride, bytes, n) == Encoded(y, bytes, swap);
    forall p | 0 <= p < |raw| && !Covered(base, stride, bytes, n + 1, p) ensures after[p] == before[p] {
      StillUncovered(base, stride, bytes, n, p);
    }
  }

  lemma StillUncovered(base: int, stride: int, bytes: nat, n: nat, p: int)
    requires !Covered(base, stride, bytes, n + 1, p)
    ensures !Covered(base, stride, bytes, n, p)
    ensures p < Place(base, stride, n) || Place(base, stride, n) + bytes <= p
  {
  }

  /** Outputs for inputs, without dither. */
  function Outputs(xs: seq<real>, bytes: nat): (ys: seq<int>)
    ensures |ys| == |xs|
  {
    seq(|xs|, i requires 0 <= i < |xs| => Sample(xs[i] + 0.5, IminOf(bytes), ImaxOf(bytes)))
  }

  /** With the limits written out. */
  lemma OutputsMean(xs: seq<real>, bytes: nat, k: nat)
    requires 1 <= bytes <= 4 && k < |xs|
    ensures var half := if bytes == 1 then 128 else if bytes == 2 then 32768
                        else if bytes == 3 then 8388608 else 2147483648;
            Outputs(xs, bytes)[k] == Sample(xs[k] + 0.5, -half, half - 1)
  {
    Limits();
    hide Sample, Pow256;
  }

  /** The meters moved on from start to now over the inputs xs. */
  ghost predicate Metered(xs: seq<real>, bytes: nat, start: Meters, now: Meters) {
    now.nOverflows == start.nOverflows + ClipCount(xs, IminOf(bytes), ImaxOf(bytes)) &&
    IsIntLargest(xs, IminOf(bytes), ImaxOf(bytes), start.intlargest, now.intlargest) &&
    IsLargest(xs, IminOf(bytes), ImaxOf(bytes), start.largest, now.largest)
  }

  lemma MeteredNothing(bytes: nat, m: Meters)
    ensures Metered([], bytes, m, m)
  {
  }

  /** One more sample through the quantiser and into the buffer. */
  method EncodeOne(rawbuf: array<byte>, i: int, x: real, bytes: int, swap: bool, overflow: Overflow,
                   ghost xs: seq<real>, ghost start: Meters)
    requires Supported(bytes) && 0 <= i && i + bytes <= rawbuf.Length
    requires Metered(xs, bytes, start, overflow.Value())
    modifies rawbuf, overflow
    ensures rawbuf[..] == old(rawbuf[..i]) +
            Encoded(Sample(x + 0.5, IminOf(bytes), ImaxOf(bytes)), bytes, swap) + old(rawbuf[i + bytes..])
    ensures Metered(xs + [x], bytes, start, overflow.Value())
  {
    EvenPower(bytes);
    assert IminOf(bytes) < 0 <= ImaxOf(bytes);
    ghost var was := overflow.Value();
    var y := Real2IntNoDither(x, IminOf(bytes), ImaxOf(bytes), overflow);
    hide Sample, Clips, IminOf, ImaxOf, IsIntLargest, IsLargest, Encoded;
    IntLargestStep(xs, x, IminOf(bytes), ImaxOf(bytes), start.intlargest, was.intlargest);
    LargestStep(xs, x, IminOf(bytes), ImaxOf(bytes), start.largest, was.largest);
    OneMore(xs, x, bytes);
    StoreSample(rawbuf, i, bytes, swap, y);
  }

  /** Encoding a channel without dither. Other sample sizes leave the buffer as it is. */
  method Real2RawNoDither(rawbuf: array<byte>, base: int, realbuf: array<real>, bytes: int, spacing: int, swap: bool,
                          nSamples: nat, overflow: Overflow)
    requires spacing > 0 && nSamples <= realbuf.Length
    requires Supported(bytes) ==> Room(rawbuf.Length, base, Stride(bytes, spacing), bytes, nSamples)
    modifies rawbuf, overflow
    ensures Supported(bytes) ==>
              Written(old(rawbuf[..]), rawbuf[..], base, Stride(bytes, spacing), bytes, swap,
                      Outputs(realbuf[..nSamples], bytes)) &&
              Metered(realbuf[..nSamples], bytes, old(overflow.Value()), overflow.Value())
    ensures !Supported(bytes) ==> rawbuf[..] == old(rawbuf[..]) && overflow.Value() == old(overflow.Value())
  {
    if !Supported(bytes) {
      return;
    }
    assert bytes > 0;
    hide *;
    EncodeAll(rawbuf, base, realbuf, bytes, Stride(bytes, spacing), swap, nSamples, overflow);
  }

  /** The loop over the samples. */
  method EncodeAll(rawbuf: array<byte>, base: int, realbuf: array<real>, bytes: int, stride: int, swap: bool,
                   nSamples: nat, overflow: Overflow)
    requires Supported(bytes) && bytes > 0 && nSamples <= realbuf.Length
    requires Room(rawbuf.Length, base, stride, bytes, nSamples)
    modifies rawbuf, overflow
    ensures Written(old(rawbuf[..]), rawbuf[..], base, stride, bytes, swap, Outputs(realbuf[..nSamples], bytes))
    ensures Metered(realbuf[..nSamples], bytes, old(overflow.Value()), overflow.Value())
  {
    hide *;
    var n, i := 0, base;
    ghost var before, start := rawbuf[..], overflow.Value();
    PlaceZero(base, stride);
    MeteredNothing(bytes, start);
    WrittenNothing(before, base, stride, bytes, swap);
    assert realbuf[..0] == [];
    while n < nSamples
      invariant 0 <= n <= nSamples && i == Place(base, stride, n)
      invariant Written(before, rawbuf[..], base, stride, bytes, swap, Outputs(realbuf[..n], bytes))
      invariant Metered(realbuf[..n], bytes, start, overflow.Value())
    {
      RoomInside(rawbuf.Length, base, stride, bytes, nSamples, n);
      PlaceNext(base, stride, n);
      ghost var xs, raw := realbuf[..n], rawbuf[..];
      EncodeOne(rawbuf, i, realbuf[n], bytes, swap, overflow, xs, start);
      EncodedMore(before, raw, rawbuf[..], base, stride, bytes, swap, nSamples, xs, realbuf[n]);
      assert realbuf[..n + 1] == xs + [realbuf[n]];
      n, i := n + 1, i + stride;
    }
  }

  lemma WrittenNothing(raw: seq<byte>, base: int, stride: int, bytes: nat, swap: bool)
    ensures Written(raw, raw, base, stride, bytes, swap, Outputs([], bytes))
  {
  }

  lemma EncodedMore(before: seq<byte>, raw: seq<byte>, after: seq<byte>, base: int, stride: int, bytes: nat, swap: bool,
                    nSamples: nat, xs: seq<real>, x: real)
    requires Written(before, raw, base, stride, bytes, swap, Outputs(xs, bytes)) && bytes > 0 && |xs| < nSamples
    requires Room(|raw|, base, stride, bytes, nSamples)
    requires 0 <= Place(base, stride, |xs|) && Place(base, stride, |xs|) + bytes <= |raw|
    requires after == raw[..Place(base, stride, |xs|)] +
             Encoded(Sample(x + 0.5, IminOf(bytes), ImaxOf(bytes)), bytes, swap) +
             raw[Place(base, stride, |xs|) + bytes..]
    ensures Written(before, after, base, stride, bytes, swap, Outputs(xs + [x], bytes))
  {
    hide *;
    RoomStride(|raw|, base, stride, bytes, nSamples);
    WrittenStep(before, raw, after, base, stride, bytes, swap, Outputs(xs, bytes),
                Sample(x + 0.5, IminOf(bytes), ImaxOf(bytes)));
    OneMore(xs, x, bytes);
  }

  lemma RoomStride(len: nat, base: int, stride: int, bytes: nat, n: int)
    requires Room(len, base, stride, bytes, n)
    ensures stride >= bytes
  {
  }

  lemma OneMore(xs: seq<real>, x: real, bytes: nat)
    ensures Outputs(xs + [x], bytes) == Outputs(xs, bytes) + [Sample(x + 0.5, IminOf(bytes), ImaxOf(bytes))]
    ensures ClipCount(xs + [x], IminOf(bytes), ImaxOf(bytes)) ==
            ClipCount(xs, IminOf(bytes), ImaxOf(bytes)) +
            if Clips(x + 0.5, IminOf(bytes), ImaxOf(bytes)) then 1 else 0
  {
  }

  // ---------------------------------------------------------------- there and back

  /** Decoding a channel and encoding the reals without dither restores every byte of the buffer, other channels'
      included, and counts as clipped exactly the samples that hold the largest value. */
  method DecodeEncode(rawbuf: array<byte>, base: int, bytes: int, spacing: int, swap: bool, nSamples: nat,
                      overflow: Overflow)
    requires Supported(bytes) && spacing > 0 && Room(rawbuf.Length, base, Stride(bytes, spacing), bytes, nSamples)
    modifies rawbuf, overflow
    ensures rawbuf[..] == old(rawbuf[..])
    ensures overflow.Value().nOverflows == old(overflow.Value().nOverflows) +
            LargestCount(old(rawbuf[..]), base, Stride(bytes, spacing), bytes, swap, nSamples)
  {
    assert bytes > 0;
    hide *;
    var realbuf := new real[nSamples];
    ghost var raw, stride := rawbuf[..], Stride(bytes, spacing);
    Raw2Real(realbuf, rawbuf, base, bytes, spacing, swap, nSamples);
    ghost var xs := realbuf[..nSamples];
    Real2RawNoDither(rawbuf, base, realbuf, bytes, spacing, swap, nSamples, overflow);
    MeteredCount(xs, bytes, old(overflow.Value()), overflow.Value());
    Restored(raw, rawbuf[..], base, stride, bytes, swap, xs);
    CountedLargest(raw, base, stride, bytes, swap, xs);
  }

  lemma MeteredCount(xs: seq<real>, bytes: nat, start: Meters, now: Meters)
    requires Metered(xs, bytes, start, now)
    ensures now.nOverflows == start.nOverflows + ClipCount(xs, IminOf(bytes), ImaxOf(bytes))
  {
  }

  /** How many of the first n samples hold the largest value. */
  ghost function LargestCount(raw: seq<byte>, base: int, stride: int, bytes: nat, swap: bool, n: nat): nat
  {
    if n == 0 || bytes == 0 || !AllRoom(|raw|, base, stride, bytes, n) then 0
    else
      LargestCount(raw, base, stride, bytes, swap, n - 1) +
      if Decoded(SampleBytes(raw, base, stride, bytes, n - 1), swap) == ImaxOf(bytes) then 1 else 0
  }

  lemma Restored(raw: seq<byte>, after: seq<byte>, base: int, stride: int, bytes: nat, swap: bool, xs: seq<real>)
    requires DecodedFrom(raw, base, stride, bytes, swap, xs)
    requires Written(raw, after, base, stride, bytes, swap, Outputs(xs, bytes))
    ensures after == raw
  {
    hide Place, Decoded, Encoded, Sample;
    forall k | 0 <= k < |xs|
      ensures SampleBytes(after, base, stride, bytes, k) == SampleBytes(raw, base, stride, bytes, k)
    {
      SampleRoundTrip(SampleBytes(raw, base, stride, bytes, k), swap);
    }
    forall p | 0 <= p < |raw| ensures after[p] == raw[p] {
      if Covered(base, stride, bytes, |xs|, p) {
        var k :| 0 <= k < |xs| && Place(base, stride, k) <= p < Place(base, stride, k) + bytes;
        var j := p - Place(base, stride, k);
        assert after[p] == SampleBytes(after, base, stride, bytes, k)[j];
        assert raw[p] == SampleBytes(raw, base, stride, bytes, k)[j];
      }
    }
  }

  lemma {:induction false} CountedLargest(raw: seq<byte>, base: int, stride: int, bytes: nat, swap: bool, xs: seq<real>)
    requires DecodedFrom(raw, base, stride, bytes, swap, xs)
    ensures ClipCount(xs, IminOf(bytes), ImaxOf(bytes)) == LargestCount(raw, base, stride, bytes, swap, |xs|)
  {
    if xs != [] {
      var n := |xs| - 1;
      CountedLargest(raw, base, stride, bytes, swap, xs[..n]);
      hide Place, Decoded, Clips;
      SampleRoundTrip(SampleBytes(raw, base, stride, bytes, n), swap);
    }
  }
}
