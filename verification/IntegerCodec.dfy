/**
 * The variable-length integers of section 5.1 of RFC 7541, as src/hpack/encode.cc writes them and
 * src/hpack/decode.cc reads them back into a uint32_t.
 */
module IntegerCodec {
  import opened Arithmetic
  import opened Bytes

  /** A decoded value together with the number of octets it took. */
  datatype Parsed = Parsed(value: nat, consumed: nat)

  /** INT_MASK(n) for a prefix of n = 1..8 bits. */
  predicate ValidMask(mask: nat)
  {
    mask in {1, 3, 7, 15, 31, 63, 127, 255}
  }

  /** `b & mask` */
  function LowBits(b: byte, mask: nat): (r: nat)
    requires ValidMask(mask)
    ensures r <= mask
  {
    match mask
    case 1 => b % 2
    case 3 => b % 4
    case 7 => b % 8
    case 15 => b % 16
    case 31 => b % 32
    case 63 => b % 64
    case 127 => b % 128
    case _ => b
  }

  /** `high` only has bits above the prefix that `mask` selects. */
  predicate AbovePrefix(high: byte, mask: nat)
    requires ValidMask(mask)
  {
    LowBits(high, mask) == 0
  }

  lemma LowBitsIsRemainder(b: byte, mask: nat)
    requires ValidMask(mask)
    ensures mask < 255 ==> LowBits(b, mask) == b % (mask + 1)
    ensures mask >= 255 ==> LowBits(b, mask) == b
  {
    var n: int := b;
    match mask
    case 1 => assert n % (mask + 1) == n % 2;
    case 3 => assert n % (mask + 1) == n % 4;
    case 7 => assert n % (mask + 1) == n % 8;
    case 15 => assert n % (mask + 1) == n % 16;
    case 31 => assert n % (mask + 1) == n % 32;
    case 63 => assert n % (mask + 1) == n % 64;
    case 127 => assert n % (mask + 1) == n % 128;
    case _ =>
  }

  lemma LowBitsOfSum(x: nat, high: byte, mask: nat)
    requires ValidMask(mask) && x <= mask && AbovePrefix(high, mask) && x + high < 256
    ensures LowBits(x + high, mask) == x
  {
    hide LowBits, ValidMask;
    LowBitsIsRemainder(high, mask);
    LowBitsIsRemainder(x + high, mask);
    if mask < 255 {
      DivModUnique(x + high, high / (mask + 1), x, mask + 1);
    }
  }

  // ---------------------------------------------------------------- encoding

  function Continuation(i: nat): (r: bytes)
    ensures 1 <= |r|
  {
    if i >= 128 then [i % 128 + 128] + Continuation(i / 128) else [i]
  }

  function EncodeInt(i: nat, mask: byte): (r: bytes)
    ensures 1 <= |r| && r[0] <= mask
  {
    if i < mask then [i] else [mask] + Continuation(i - mask)
  }

  /** uint16_encode_length */
  method EncodedLength(i: nat, mask: byte) returns (count: nat)
    ensures count == |EncodeInt(i, mask)|
  {
    if i < mask {
      return 1;
    }
    var rest := i - mask;
    count := 1;
    while rest >= 128
      invariant 0 <= rest
      invariant count + |Continuation(rest)| == |EncodeInt(i, mask)|
    {
      rest := rest / 128;
      count := count + 1;
    }
    count := count + 1;
  }

  lemma LargeInt(i: nat, mask: byte)
    ensures i >= mask ==> EncodeInt(i, mask) == [mask] + Continuation(i - mask)
  {
  }

  lemma ContinuationSteps(i: nat, before: bytes)
    ensures i >= 128 ==> before + Continuation(i) == before + [i % 128 + 128] + Continuation(i / 128)
    ensures i < 128 ==> Continuation(i) == [i]
  {
  }

  /** uint16_encode_impl: writes the encoding of `i` at offset `at` and nothing else. */
  method EncodeImpl(buf: array<byte>, at: nat, i: nat, mask: byte)
    requires at + |EncodeInt(i, mask)| <= buf.Length
    modifies buf
    ensures buf[..] == old(buf[..at]) + EncodeInt(i, mask) + old(buf[at + |EncodeInt(i, mask)|..])
  {
    ghost var whole := EncodeInt(i, mask);
    ghost var before, after := buf[..at], buf[at + |whole|..];
    if i < mask {
      buf[at] := i;
      return;
    }
    hide EncodeInt, Continuation;
    var rest := i - mask;
    LargeInt(i, mask);
    buf[at] := mask;
    var p := at + 1;
    ghost var done: bytes := [mask];
    assert buf[..p] == before + done;
    while rest >= 128
      invariant 0 <= rest
      invariant p == at + |done| && done + Continuation(rest) == whole
      invariant buf[..p] == before + done && buf[at + |whole|..] == after
    {
      ContinuationSteps(rest, done);
      buf[p] := rest % 128 + 128;
      assert buf[..p + 1] == buf[..p] + [rest % 128 + 128];
      done := done + [rest % 128 + 128];
      rest := rest / 128;
      p := p + 1;
    }
    ContinuationSteps(rest, done);
    buf[p] := rest;
    assert buf[..p + 1] == buf[..p] + [rest];
    assert buf[..] == buf[..p + 1] + buf[p + 1..];
  }

  /** encode_uint16 */
  method Encode(i: nat, mask: byte) returns (s: bytes)
    ensures s == EncodeInt(i, mask)
  {
    var n := EncodedLength(i, mask);
    var buf := new byte[n](_ => 0);
    EncodeImpl(buf, 0, i, mask);
    s := buf[..];
  }

  // ---------------------------------------------------------------- decoding

  function Pow128(k: nat): (r: nat)
    ensures r > 0
  {
    if k == 0 then 1 else 128 * Pow128(k - 1)
  }

  /** `x << 7k` in 32-bit arithmetic. */
  function ShiftLeft7(x: nat, k: nat): nat
  {
    x * Pow128(k) % UINT32_LIMIT
  }

  /** The loop of decode_uint32 with the octet at `pos` next and `k` continuation octets read. */
  function DecodeFrom(src: bytes, pos: nat, dst: nat, k: nat): (r: Option<Parsed>)
    ensures r.Some? ==> pos < r.value.consumed <= |src|
    decreases |src| - pos
  {
    if pos >= |src| || 7 * k >= 32 then None
    else
      var addend := ShiftLeft7(src[pos] % 128, k);
      if dst + addend >= UINT32_LIMIT then None
      else if src[pos] >= 128 then DecodeFrom(src, pos + 1, dst + addend, k + 1)
      else Some(Parsed(dst + addend, pos + 1))
  }

  function DecodeInt(src: bytes, mask: nat): (r: Option<Parsed>)
    requires |src| > 0 && ValidMask(mask)
    ensures r.Some? ==> 1 <= r.value.consumed <= |src|
  {
    var dst := LowBits(src[0], mask);
    if dst == mask then DecodeFrom(src, 1, dst, 0) else Some(Parsed(dst, 1))
  }

  /** decode_uint32 on the octets from `at` to the end of `buf`; a null result is None. */
  method DecodeUint32(buf: bytes, at: nat, mask: nat) returns (r: Option<Parsed>)
    requires at < |buf| && ValidMask(mask)
    ensures r == DecodeInt(buf[at..], mask)
  {
    var src := at;
    var dst := LowBits(buf[src], mask);
    if dst == mask {
      var m := 0;
      var shift := 1;
      ghost var k := 0;
      while true
        invariant at <= src < |buf| && 0 <= dst
        invariant m == 7 * k && shift == Pow128(k)
        invariant DecodeInt(buf[at..], mask) == DecodeFrom(buf[at..], src + 1 - at, dst, k)
        decreases |buf| - src
      {
        src := src + 1;
        if src >= |buf| {
          return None;
        }
        if m >= 32 {
          return None;
        }
        var addend := buf[src] % 128 * shift % UINT32_LIMIT;
        if dst > UINT32_LIMIT - 1 - addend {
          return None;
        }
        dst := dst + addend;
        m := m + 7;
        shift := 128 * shift;
        k := k + 1;
        if buf[src] < 128 {
          break;
        }
      }
    }
    return Some(Parsed(dst, src + 1 - at));
  }

  // ---------------------------------------------------------------- section 5.1 of RFC 7541

  /** The unbounded value that the continuation octets from `pos` on denote. */
  function RfcFrom(src: bytes, pos: nat): (r: Option<Parsed>)
    ensures r.Some? ==> pos < r.value.consumed <= |src|
    decreases |src| - pos
  {
    if pos >= |src| then None
    else if src[pos] < 128 then Some(Parsed(src[pos], pos + 1))
    else
      match RfcFrom(src, pos + 1)
      case None => None
      case Some(rest) => Some(Parsed(src[pos] % 128 + 128 * rest.value, rest.consumed))
  }

  function RfcInt(src: bytes, mask: nat): (r: Option<Parsed>)
    requires |src| > 0 && ValidMask(mask)
  {
    var dst := LowBits(src[0], mask);
    if dst != mask then Some(Parsed(dst, 1))
    else
      match RfcFrom(src, 1)
      case None => None
      case Some(rest) => Some(Parsed(dst + rest.value, rest.consumed))
  }

  /** What the fifth continuation octet, the one shifted by 28, loses above bit 31. */
  function Lost(src: bytes, consumed: nat): nat
  {
    if consumed == 6 && |src| >= 6 then src[5] % 128 / 16 else 0
  }

  /** Every value below 2^32 survives, whatever follows it and whatever the bits above the prefix. */
  lemma RoundTrip(i: nat, mask: byte, high: byte, rest: bytes)
    requires i < UINT32_LIMIT && ValidMask(mask)
    requires EncodeInt(i, mask)[0] + high < 256 && AbovePrefix(high, mask)
    ensures var e := EncodeInt(i, mask);
            DecodeInt([e[0] + high] + e[1..] + rest, mask) == Some(Parsed(i, |e|)) && |e| <= 6
  {
    var e := EncodeInt(i, mask);
    var src := [e[0] + high] + e[1..] + rest;
    LowBitsOfSum(e[0], high, mask);
    if i >= mask {
      assert src[1..] == Continuation(i - mask) + rest;
      ContinuationRoundTrip(src, 1, i - mask, mask, 0);
    }
  }

  lemma {:induction false} ContinuationRoundTrip(src: bytes, pos: nat, i: nat, dst: nat, k: nat)
    requires pos <= |src| && Continuation(i) <= src[pos..]
    requires dst + i * Pow128(k) < UINT32_LIMIT && k <= 4 && (k == 0 || i > 0)
    ensures DecodeFrom(src, pos, dst, k) == Some(Parsed(dst + i * Pow128(k), pos + |Continuation(i)|))
    ensures |Continuation(i)| <= 5 - k
    decreases i
  {
    hide Pow128, Continuation, DecodeFrom;
    var w := Pow128(k);
    var x, q := i % 128, i / 128;
    ContinuationSteps(i, []);
    assert [] + Continuation(i) == Continuation(i);
    PrefixTail(src, pos, Continuation(i));
    DigitFits(i, w);
    OneDigit(src, pos, dst, k);
    if i >= 128 {
      FifthOctetIsLast(i, k);
      NextPower(k);
      assert Continuation(i)[1..] == Continuation(q);
      ContinuationRoundTrip(src, pos + 1, q, dst + x * w, k + 1);
    }
  }

  lemma OneDigit(src: bytes, pos: nat, dst: nat, k: nat)
    requires pos < |src| && k <= 4 && dst + src[pos] % 128 * Pow128(k) < UINT32_LIMIT
    ensures var next := dst + src[pos] % 128 * Pow128(k);
            DecodeFrom(src, pos, dst, k) ==
            if src[pos] >= 128 then DecodeFrom(src, pos + 1, next, k + 1) else Some(Parsed(next, pos + 1))
  {
    hide Pow128;
    SmallModulus(src[pos] % 128 * Pow128(k));
  }

  lemma PrefixTail(src: bytes, pos: nat, a: bytes)
    requires pos <= |src| && a <= src[pos..] && a != []
    ensures pos < |src| && src[pos] == a[0] && a[1..] <= src[pos + 1..]
  {
    assert src[pos..][0] == src[pos] && src[pos..][1..] == src[pos + 1..];
  }

  lemma NextPower(k: nat)
    ensures Pow128(k + 1) == 128 * Pow128(k)
  {
  }

  /** The lowest digit and the rest, scaled. */
  lemma DigitFits(i: nat, w: nat)
    requires i * w < UINT32_LIMIT
    ensures i % 128 * w % UINT32_LIMIT == i % 128 * w <= i * w
    ensures i % 128 * w + i / 128 * (128 * w) == i * w
    ensures i < 128 ==> i % 128 * w == i * w
  {
    DistributeDigit(i % 128, i / 128, w);
    ScaleMonotone(i % 128, i, w);
    SmallModulus(i % 128 * w);
  }

  lemma FifthOctetIsLast(i: nat, k: nat)
    requires i >= 128 && k <= 4 && i * Pow128(k) < UINT32_LIMIT
    ensures k < 4
  {
    assert Pow128(2) == 16384;
    assert Pow128(4) == 268435456;
    ScaleMonotone(128, i, Pow128(k));
  }

  lemma DistributeDigit(x: nat, q: nat, w: nat)
    ensures (x + 128 * q) * w == x * w + q * (128 * w)
    ensures q * (128 * w) == q * w * 128
  {
  }

  lemma SmallModulus(x: nat)
    requires x < UINT32_LIMIT
    ensures x % UINT32_LIMIT == x
  {
  }

  /**
   * On arbitrary octets: a successful decode reads exactly what section 5.1 prescribes and differs
   * from the prescribed value only by a multiple of 2^32, the bits the last shift drops.
   */
  lemma DecodeAgreesWithRfc(src: bytes, mask: nat)
    requires |src| > 0 && ValidMask(mask)
    requires DecodeInt(src, mask).Some?
    ensures var d := DecodeInt(src, mask).value;
            && RfcInt(src, mask) == Some(Parsed(d.value + Lost(src, d.consumed) * UINT32_LIMIT, d.consumed))
            && d.consumed <= 6 && d.value < UINT32_LIMIT
  {
    hide DecodeFrom, RfcFrom;
    var dst := LowBits(src[0], mask);
    if dst == mask {
      DecodeFromAgrees(src, 1, dst, 0);
    }
  }

  /** The prefix is full and four continuation octets announce a fifth, which is there. */
  predicate HasFifthOctet(src: bytes, mask: nat)
    requires |src| > 0 && ValidMask(mask)
  {
    LowBits(src[0], mask) == mask && |src| >= 6 && forall i :: 1 <= i <= 4 ==> src[i] >= 128
  }

  lemma {:induction false} ConsumedThroughFifth(src: bytes, pos: nat, dst: nat, k: nat)
    requires pos == k + 1 && DecodeFrom(src, pos, dst, k).Some?
    ensures var d := DecodeFrom(src, pos, dst, k).value;
            d.consumed == 6 && k <= 4 <==> |src| >= 6 && k <= 4 && forall i :: pos <= i <= 4 ==> src[i] >= 128
    decreases |src| - pos
  {
    if src[pos] >= 128 {
      ConsumedThroughFifth(src, pos + 1, dst + ShiftLeft7(src[pos] % 128, k), k + 1);
    }
  }

  lemma FifthOctetIsConsumed(src: bytes, mask: nat)
    requires |src| > 0 && ValidMask(mask) && DecodeInt(src, mask).Some?
    ensures HasFifthOctet(src, mask) <==> DecodeInt(src, mask).value.consumed == 6
  {
    hide DecodeFrom;
    var dst := LowBits(src[0], mask);
    if dst == mask {
      ConsumedThroughFifth(src, 1, dst, 0);
    }
  }

  /** The decoder is exact if and only if a fifth continuation octet, where there is one, is at most 15. */
  lemma DecodeExactIff(src: bytes, mask: nat)
    requires |src| > 0 && ValidMask(mask)
    requires DecodeInt(src, mask).Some?
    ensures RfcInt(src, mask) == Some(DecodeInt(src, mask).value) <==>
            (HasFifthOctet(src, mask) ==> src[5] % 128 <= 15)
  {
    hide RfcInt;
    DecodeAgreesWithRfc(src, mask);
    FifthOctetIsConsumed(src, mask);
  }

  /** An inexact decode exists: five continuation octets whose last carries bit 4. */
  lemma DecodeInexactExample()
    ensures var src: bytes := [127, 128, 128, 128, 128, 16];
            DecodeInt(src, 127) == Some(Parsed(127, 6)) && RfcInt(src, 127) == Some(Parsed(UINT32_LIMIT + 127, 6))
  {
    hide DecodeFrom, RfcFrom;
    var src: bytes := [127, 128, 128, 128, 128, 16];
    OneDigit(src, 1, 127, 0);
    OneDigit(src, 2, 127, 1);
    OneDigit(src, 3, 127, 2);
    OneDigit(src, 4, 127, 3);
    LastDigitLost(src, 5, 127);
    RfcZeros(src);
  }

  /** Bit 4 of the fifth continuation octet is shifted out. */
  lemma LastDigitLost(src: bytes, pos: nat, dst: nat)
    requires pos < |src| && src[pos] == 16 && dst < UINT32_LIMIT
    ensures DecodeFrom(src, pos, dst, 4) == Some(Parsed(dst, pos + 1))
  {
    SmallPowers();
    hide Pow128;
    assert ShiftLeft7(16, 4) == 0;
  }

  lemma RfcZeros(src: bytes)
    requires src == [127, 128, 128, 128, 128, 16]
    ensures RfcFrom(src, 1) == Some(Parsed(UINT32_LIMIT, 6))
  {
    assert RfcFrom(src, 5) == Some(Parsed(16, 6));
    assert RfcFrom(src, 4) == Some(Parsed(2048, 6));
    assert RfcFrom(src, 3) == Some(Parsed(262144, 6));
  }

  lemma {:induction false} DecodeFromAgrees(src: bytes, pos: nat, dst: nat, k: nat)
    requires pos == k + 1 && dst < UINT32_LIMIT
    requires DecodeFrom(src, pos, dst, k).Some?
    ensures RfcFrom(src, pos).Some?
    ensures var d := DecodeFrom(src, pos, dst, k).value;
            var r := RfcFrom(src, pos).value;
            && d.consumed == r.consumed <= 6
            && d.value < UINT32_LIMIT
            && dst + r.value * Pow128(k) == d.value + Lost(src, d.consumed) * UINT32_LIMIT
    decreases |src| - pos
  {
    var x := src[pos] % 128;
    AddendExact(x, k);
    if src[pos] >= 128 {
      var addend := ShiftLeft7(x, k);
      DecodeFromAgrees(src, pos + 1, dst + addend, k + 1);
      var q := RfcFrom(src, pos + 1).value.value;
      assert k < 4;
      DistributeDigit(x, q, Pow128(k));
    }
  }

  lemma AddendExact(x: nat, k: nat)
    requires x < 128 && k <= 4
    ensures k < 4 ==> ShiftLeft7(x, k) == x * Pow128(k)
    ensures k == 4 ==> ShiftLeft7(x, k) + x / 16 * UINT32_LIMIT == x * Pow128(k)
  {
    SmallPowers();
    hide Pow128;
    if k == 4 {
      ModuloOfSum(x % 16 * 268435456, x / 16);
    } else {
      SmallModulus(x * Pow128(k));
    }
  }

  lemma SmallPowers()
    ensures Pow128(0) == 1 && Pow128(1) == 128 && Pow128(2) == 16384 && Pow128(3) == 2097152 && Pow128(4) == 268435456
  {
    assert Pow128(2) == 16384;
  }

  lemma ModuloOfSum(a: nat, b: nat)
    requires a < UINT32_LIMIT
    ensures (a + b * UINT32_LIMIT) % UINT32_LIMIT == a
  {
  }
}
