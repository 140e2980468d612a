/**
 * The payload of every frame type as src/http2/pack.cc writes it and src/http2/parser.cc reads it back, and
 * exactly which payloads are refused. Numbers are spelled out octet by octet.
 */
module FrameRoundTrips {
  import opened Bytes
  import opened Frames

  // ---------------------------------------------------------------- numbers on the wire

  /** The number that octets spell, the most significant first. */
  function Number(b: bytes): nat
  {
    if b == [] then 0 else Number(b[..|b| - 1]) * 256 + b[|b| - 1]
  }

  /** The last `k` octets of a number. */
  function Octets(n: nat, k: nat): (b: bytes)
    ensures |b| == k
  {
    if k == 0 then [] else Octets(n / 256, k - 1) + [n % 256]
  }

  lemma FromBeIsNumber(b: bytes)
    ensures |b| >= 4 ==> FromBe32(b) == Number(b[..4])
    ensures |b| >= 2 ==> FromBe16(b) == Number(b[..2])
  {
    if |b| >= 4 {
      NumberOfFour(b[0], b[1], b[2], b[3]);
      assert b[..4] == [b[0], b[1], b[2], b[3]];
    }
    if |b| >= 2 {
      NumberOfTwo(b[0], b[1]);
      assert b[..2] == [b[0], b[1]];
    }
  }

  lemma NumberOfTwo(x: byte, y: byte)
    ensures Number([x, y]) == x * 256 + y
  {
    assert [x, y][..1] == [x] && [x][..0] == [];
    assert Number([x]) == x;
  }

  lemma NumberOfFour(x: byte, y: byte, z: byte, w: byte)
    ensures Number([x, y, z]) == (x * 256 + y) * 256 + z
    ensures Number([x, y, z, w]) == ((x * 256 + y) * 256 + z) * 256 + w
  {
    NumberOfTwo(x, y);
    assert [x, y, z, w][..3] == [x, y, z] && [x, y, z][..2] == [x, y];
  }

  /** A frame header, octet by octet: 24 bits of length, type, flags, and a stream id without its first bit. */
  lemma HeaderFields(b: bytes)
    requires |b| >= HEADER_SIZE
    ensures var h := UnpackHeader(b);
            && h.length == Number(b[..3]) && h.ftype == b[3] && h.flags == b[4]
            && h.streamId == Number(b[5..9]) % 0x8000_0000
  {
    FromBeIsNumber(b[..4]);
    FromBeIsNumber(b[5..9]);
    assert b[..4][..4] == b[..4] && b[5..9][..4] == b[5..9];
    assert b[..4][..3] == b[..3];
    assert Number(b[..4]) == Number(b[..3]) * 256 + b[3];
  }

  lemma {:induction false} OctetsSpell(n: nat, k: nat)
    requires n < Weight(k)
    ensures Number(Octets(n, k)) == n
  {
    if k > 0 {
      var b := Octets(n, k);
      assert b[..k - 1] == Octets(n / 256, k - 1);
      OctetsSpell(n / 256, k - 1);
    }
  }

  function Weight(k: nat): nat
  {
    if k == 0 then 1 else 256 * Weight(k - 1)
  }

  lemma FourAndTwo(n: nat, rest: bytes)
    ensures n < UINT32_LIMIT ==> FromBe32(Octets(n, 4) + rest) == n
    ensures n < 0x1_0000 ==> FromBe16(Octets(n, 2) + rest) == n
  {
    var (four, two) := (Octets(n, 4) + rest, Octets(n, 2) + rest);
    FromBeIsNumber(four);
    FromBeIsNumber(two);
    assert four[..4] == Octets(n, 4) && two[..2] == Octets(n, 2);
    assert Weight(0) == 1 && Weight(1) == 256 && Weight(2) == 0x1_0000 && Weight(3) == 0x100_0000;
    assert Weight(4) == UINT32_LIMIT;
    if n < UINT32_LIMIT {
      OctetsSpell(n, 4);
    }
    if n < 0x1_0000 {
      OctetsSpell(n, 2);
    }
  }

  /** The flags, by the bits of section 6 of RFC 7540. */
  lemma FlagBits(flags: byte)
    ensures HasFlag(flags, END_STREAM) <==> flags % 2 == 1
    ensures HasFlag(flags, ACK) <==> flags % 2 == 1
    ensures HasFlag(flags, END_HEADERS) <==> flags / 4 % 2 == 1
    ensures HasFlag(flags, PADDED) <==> flags / 8 % 2 == 1
    ensures HasFlag(flags, PRIORITY_FLAG) <==> flags / 32 % 2 == 1
  {
  }

  // ---------------------------------------------------------------- padding

  /** A payload with the padding its flags call for: its length in front, any octets behind. */
  function WithPadding(flags: byte, body: bytes, pad: bytes): bytes
    requires |pad| < 256
  {
    if HasFlag(flags, PADDED) then [|pad|] + body + pad else body
  }

  function PadLength(flags: byte, pad: bytes): nat
  {
    if HasFlag(flags, PADDED) then |pad| else 0
  }

  lemma PaddingComesOff(flags: byte, body: bytes, pad: bytes)
    requires |pad| < 256
    ensures Unpad(flags, WithPadding(flags, body, pad)) == Body(body, PadLength(flags, pad))
  {
    var p := WithPadding(flags, body, pad);
    if HasFlag(flags, PADDED) {
      assert p[1..|p| - |pad|] == body;
    }
  }

  /** Padding is refused exactly if there is no length, or one that leaves no room for itself. */
  lemma BadPaddingIff(flags: byte, p: bytes)
    ensures Unpad(flags, p) == BadPadding <==> HasFlag(flags, PADDED) && (p == [] || p[0] + 1 > |p|)
  {
  }

  // ---------------------------------------------------------------- every type comes back

  lemma DataParses(h: FrameHeader, body: bytes, pad: bytes)
    requires |pad| < 256 && h.ftype == DATA && h.length == |WithPadding(h.flags, body, pad)|
    ensures Parse(h, WithPadding(h.flags, body, pad)) == DataPayload(body, PadLength(h.flags, pad))
  {
    hide WithPadding, Unpad, HasFlag;
    PaddingComesOff(h.flags, body, pad);
  }

  /** The five octets of a priority: the exclusive bit, the stream depended on, and one less than the weight. */
  function PriorityOctets(p: Priority): (b: bytes)
    requires p.dependStreamId < STREAM_ID_LIMIT && 1 <= p.weight <= 256
    ensures |b| == 5
  {
    Octets(p.dependStreamId + (if p.exclusive then 0x8000_0000 else 0), 4) + [p.weight - 1]
  }

  predicate ProperPriority(p: Priority)
  {
    p.dependStreamId < STREAM_ID_LIMIT && 1 <= p.weight <= 256
  }

  lemma PriorityReads(p: Priority)
    requires ProperPriority(p)
    ensures ParsePriority(PriorityOctets(p)) == p
  {
    var n := p.dependStreamId + if p.exclusive then 0x8000_0000 else 0;
    var b := PriorityOctets(p);
    FourAndTwo(n, [p.weight - 1]);
    assert b == Octets(n, 4) + [p.weight - 1];
    assert FromBe32(b) == ((b[0] as int * 256 + b[1]) * 256 + b[2]) * 256 + b[3];
  }

  lemma PriorityParses(h: FrameHeader, p: Priority)
    requires ProperPriority(p) && h.ftype == PRIORITY && h.length == 5
    ensures Parse(h, PriorityOctets(p)) == PriorityPayload(p)
  {
    hide PriorityOctets, ParsePriority;
    PriorityReads(p);
  }

  /** With a priority in front, if the flags say so, and a body of the five octets that are asked for. */
  lemma HeadersParse(h: FrameHeader, p: Priority, fragment: bytes, pad: bytes)
    requires |pad| < 256 && ProperPriority(p) && h.ftype == HEADERS
    requires var body := (if HasFlag(h.flags, PRIORITY_FLAG) then PriorityOctets(p) else []) + fragment;
             |body| >= 5 && h.length == |WithPadding(h.flags, body, pad)|
    ensures var body := (if HasFlag(h.flags, PRIORITY_FLAG) then PriorityOctets(p) else []) + fragment;
            Parse(h, WithPadding(h.flags, body, pad)) == HeadersPayload(fragment, PadLength(h.flags, pad))
  {
    hide WithPadding, Unpad, HasFlag, PriorityOctets;
    var body := (if HasFlag(h.flags, PRIORITY_FLAG) then PriorityOctets(p) else []) + fragment;
    PaddingComesOff(h.flags, body, pad);
    assert HasFlag(h.flags, PRIORITY_FLAG) ==> body[5..] == fragment;
    assert [] + fragment == fragment;
  }

  lemma RstStreamParses(h: FrameHeader, e: nat)
    requires e < UINT32_LIMIT && h.ftype == RST_STREAM && h.length == 4
    ensures Parse(h, Octets(e, 4)) == RstStreamPayload(e)
  {
    hide Octets, FromBe32;
    FourAndTwo(e, []);
    assert Octets(e, 4) + [] == Octets(e, 4);
  }

  /** Whatever the reserved bit in front of the promised id. */
  lemma PushPromiseParses(h: FrameHeader, promised: nat, reserved: bool, fragment: bytes, pad: bytes)
    requires |pad| < 256 && promised < STREAM_ID_LIMIT && h.ftype == PUSH_PROMISE
    requires h.length ==
             |WithPadding(h.flags, Octets(promised + (if reserved then 0x8000_0000 else 0), 4) + fragment, pad)|
    ensures var body := Octets(promised + (if reserved then 0x8000_0000 else 0), 4) + fragment;
            Parse(h, WithPadding(h.flags, body, pad)) ==
            PushPromisePayload(promised, fragment, PadLength(h.flags, pad))
  {
    hide WithPadding, Unpad, HasFlag, Octets, FromBe32;
    var n := promised + if reserved then 0x8000_0000 else 0;
    var body := Octets(n, 4) + fragment;
    PaddingComesOff(h.flags, body, pad);
    FourAndTwo(n, fragment);
    assert body[4..] == fragment;
  }

  lemma PingParses(h: FrameHeader, opaqueData: bytes)
    requires |opaqueData| == 8 && h.ftype == PING && h.length == 8
    ensures Parse(h, opaqueData) == PingPayload(opaqueData)
  {
  }

  lemma GoAwayParses(h: FrameHeader, last: nat, reserved: bool, e: nat, debug: bytes)
    requires last < STREAM_ID_LIMIT && e < UINT32_LIMIT && h.ftype == GOAWAY && h.length == 8 + |debug|
    ensures Parse(h, Octets(last + (if reserved then 0x8000_0000 else 0), 4) + Octets(e, 4) + debug) ==
            GoAwayPayload(last, e, debug)
  {
    hide Octets, FromBe32;
    var n := last + if reserved then 0x8000_0000 else 0;
    var p := Octets(n, 4) + Octets(e, 4) + debug;
    FourAndTwo(n, Octets(e, 4) + debug);
    FourAndTwo(e, debug);
    assert p == Octets(n, 4) + (Octets(e, 4) + debug);
    assert p[4..] == Octets(e, 4) + debug && p[8..] == debug;
  }

  lemma WindowUpdateParses(h: FrameHeader, increment: nat, reserved: bool)
    requires increment < STREAM_ID_LIMIT && h.ftype == WINDOW_UPDATE && h.length == 4
    ensures Parse(h, Octets(increment + (if reserved then 0x8000_0000 else 0), 4)) == WindowUpdatePayload(increment)
  {
    hide Octets, FromBe32;
    var n := increment + if reserved then 0x8000_0000 else 0;
    FourAndTwo(n, []);
    assert Octets(n, 4) + [] == Octets(n, 4);
  }

  lemma ContinuationParses(h: FrameHeader, fragment: bytes)
    requires h.ftype == CONTINUATION && h.length == |fragment|
    ensures Parse(h, fragment) == ContinuationPayload(fragment)
  {
  }

  /** The entries of SETTINGS, each two octets of id and four of value. */
  function Entries(settings: seq<(nat, nat)>): (b: bytes)
    ensures |b| == 6 * |settings|
  {
    if settings == [] then [] else Octets(settings[0].0, 2) + Octets(settings[0].1, 4) + Entries(settings[1..])
  }

  lemma {:induction false} EntriesRead(settings: seq<(nat, nat)>)
    requires forall i :: 0 <= i < |settings| ==> settings[i].0 < 0x1_0000 && settings[i].1 < UINT32_LIMIT
    ensures ParseSettings(Entries(settings)) == settings
  {
    hide Octets, FromBe32, FromBe16;
    if settings != [] {
      var ((id, value), rest) := (settings[0], Entries(settings[1..]));
      var p := Entries(settings);
      FourAndTwo(id, Octets(value, 4) + rest);
      FourAndTwo(value, rest);
      assert p == Octets(id, 2) + (Octets(value, 4) + rest);
      assert p[2..] == Octets(value, 4) + rest && p[6..] == rest;
      EntriesRead(settings[1..]);
    }
  }

  lemma SettingsParse(h: FrameHeader, settings: seq<(nat, nat)>)
    requires forall i :: 0 <= i < |settings| ==> settings[i].0 < 0x1_0000 && settings[i].1 < UINT32_LIMIT
    requires h.ftype == SETTINGS && h.length == 6 * |settings|
    ensures Parse(h, Entries(settings)) == SettingsPayload(settings)
  {
    hide Entries, ParseSettings;
    EntriesRead(settings);
  }

  // ---------------------------------------------------------------- what is refused

  /** What padding takes of a payload. */
  function BodySize(flags: byte, p: bytes): int
  {
    if !HasFlag(flags, PADDED) then |p| else if p == [] then -1 else |p| - 1 - p[0]
  }

  /** The sizes each type must have, by its number. */
  predicate RightSize(h: FrameHeader, p: bytes)
  {
    match h.ftype
    case 0 => BodySize(h.flags, p) >= 0
    case 1 => BodySize(h.flags, p) >= 5
    case 2 => |p| == 5
    case 3 => |p| == 4
    case 4 => |p| % 6 == 0
    case 5 => BodySize(h.flags, p) >= 4
    case 6 => |p| == 8
    case 7 => |p| >= 8
    case 8 => |p| == 4
    case _ => true
  }

  /** A payload is refused exactly for its size, and always as such. */
  lemma RefusedForSizeIff(h: FrameHeader, p: bytes)
    requires |p| == h.length && h.ftype <= CONTINUATION
    ensures Parse(h, p).Malformed? <==> !RightSize(h, p)
    ensures Parse(h, p).Malformed? ==> Parse(h, p).error == FRAME_SIZE_ERROR
  {
    hide ParseSettings, ParsePriority, FromBe32, HasFlag;
  }
}
