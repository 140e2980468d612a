/** Frame headers (section 4.1 of RFC 7540) and payloads (src/http2/frame.cc, src/http2/parser.cc). */
module Frames {
  import opened Bytes

  const HEADER_SIZE := 9

  // Http2FrameType
  const DATA := 0
  const HEADERS := 1
  const PRIORITY := 2
  const RST_STREAM := 3
  const SETTINGS := 4
  const PUSH_PROMISE := 5
  const PING := 6
  const GOAWAY := 7
  const WINDOW_UPDATE := 8
  const CONTINUATION := 9

  // Http2FrameFlag
  const END_STREAM := 0x1
  const ACK := 0x1
  const END_HEADERS := 0x4
  const PADDED := 0x8
  const PRIORITY_FLAG := 0x20

  // Http2ErrorCode
  const NO_ERROR := 0
  const PROTOCOL_ERROR := 1
  const FLOW_CONTROL_ERROR := 3
  const FRAME_SIZE_ERROR := 6
  const COMPRESSION_ERROR := 9

  const STREAM_ID_LIMIT := 0x8000_0000

  datatype FrameHeader = FrameHeader(length: nat, ftype: byte, flags: byte, streamId: nat)

  /** put_uint32_in_be_stream */
  function Be32(n: nat): (r: bytes)
    ensures |r| == 4
  {
    [n / 256 / 256 / 256 % 256, n / 256 / 256 % 256, n / 256 % 256, n % 256]
  }

  /** get_uint32_from_be_stream */
  function FromBe32(b: bytes): (r: nat)
    requires |b| >= 4
    ensures r < UINT32_LIMIT
  {
    var (b0: int, b1: int, b2: int, b3: int) := (b[0], b[1], b[2], b[3]);
    ((b0 * 256 + b1) * 256 + b2) * 256 + b3
  }

  function Be16(n: nat): (r: bytes)
    ensures |r| == 2
  {
    [n / 256 % 256, n % 256]
  }

  function FromBe16(b: bytes): (r: nat)
    requires |b| >= 2
    ensures r < 0x1_0000
  {
    var (b0: int, b1: int) := (b[0], b[1]);
    b0 * 256 + b1
  }

  lemma Be32RoundTrip(n: nat, rest: bytes)
    requires n < UINT32_LIMIT
    ensures FromBe32(Be32(n) + rest) == n
  {
  }

  /** The wire form: 24 bits of length, then type, flags and stream id. */
  function PackHeader(h: FrameHeader): (r: bytes)
    ensures |r| == HEADER_SIZE
  {
    [h.length / 256 / 256 % 256, h.length / 256 % 256, h.length % 256, h.ftype, h.flags] + Be32(h.streamId)
  }

  function UnpackHeader(b: bytes): (h: FrameHeader)
    requires |b| >= HEADER_SIZE
    ensures h.length < 0x100_0000 && h.streamId < STREAM_ID_LIMIT
  {
    FrameHeader(FromBe32(b[..4]) / 0x100, b[3], b[4], FromBe32(b[5..9]) % STREAM_ID_LIMIT)
  }

  lemma HeaderRoundTrip(h: FrameHeader, rest: bytes)
    requires h.length < 0x100_0000 && h.streamId < STREAM_ID_LIMIT
    ensures UnpackHeader(PackHeader(h) + rest) == h
  {
    var b := PackHeader(h) + rest;
    assert b[..4] == [h.length / 256 / 256 % 256, h.length / 256 % 256, h.length % 256, h.ftype];
    assert b[5..9] == Be32(h.streamId);
    Be32RoundTrip(h.streamId, []);
    assert Be32(h.streamId) + [] == Be32(h.streamId);
  }

  /** put_uint32_in_be_stream at an offset of a buffer */
  method PutBe32(buf: array<byte>, at: nat, n: nat)
    requires at + 4 <= buf.Length
    modifies buf
    ensures buf[..at] == old(buf[..at]) && buf[at..at + 4] == Be32(n) && buf[at + 4..] == old(buf[at + 4..])
  {
    buf[at], buf[at + 1], buf[at + 2], buf[at + 3] :=
      n / 256 / 256 / 256 % 256, n / 256 / 256 % 256, n / 256 % 256, n % 256;
  }

  /** http2_frame_header_pack; `length << 8` keeps 32 bits, and the type then overwrites its last octet. */
  method PutHeader(buf: array<byte>, h: FrameHeader)
    requires HEADER_SIZE <= buf.Length
    modifies buf
    ensures buf[..HEADER_SIZE] == PackHeader(h) && buf[HEADER_SIZE..] == old(buf[HEADER_SIZE..])
  {
    PutBe32(buf, 0, h.length * 0x100 % UINT32_LIMIT);
    ghost var shifted := buf[0..4];
    assert shifted == Be32(h.length * 0x100 % UINT32_LIMIT);
    ShiftedLength(h.length);
    buf[3] := h.ftype;
    buf[4] := h.flags;
    PutBe32(buf, 5, h.streamId);
    assert buf[..5] == [shifted[0], shifted[1], shifted[2], h.ftype, h.flags];
    assert buf[..HEADER_SIZE] == buf[..5] + buf[5..9];
  }

  lemma ShiftedLength(n: nat)
    ensures Be32(n * 0x100 % UINT32_LIMIT)[..3] == [n / 256 / 256 % 256, n / 256 % 256, n % 256]
  {
    var m := n * 0x100 % UINT32_LIMIT;
    var t := n / 0x100_0000;
    var k := n - t * 0x100_0000;
    assert m == k * 256;
    assert m / 256 == k;
    assert n / 256 == t * 0x1_0000 + k / 256;
    assert n / 256 / 256 == t * 0x100 + k / 256 / 256;
  }

  // ---------------------------------------------------------------- payloads

  datatype Priority = Priority(dependStreamId: nat, exclusive: bool, weight: nat)

  datatype Payload =
    | DataPayload(data: bytes, padLen: nat)
    | HeadersPayload(fragment: bytes, padLen: nat)
    | PriorityPayload(priority: Priority)
    | RstStreamPayload(errorCode: nat)
    | SettingsPayload(settings: seq<(nat, nat)>)
    | PushPromisePayload(promisedStreamId: nat, fragment: bytes, padLen: nat)
    | PingPayload(opaqueData: bytes)
    | GoAwayPayload(lastStreamId: nat, errorCode: nat, debug: bytes)
    | WindowUpdatePayload(increment: nat)
    | ContinuationPayload(fragment: bytes)
    | Malformed(error: nat)

  /** What is left of a payload once the pad length and the padding are off, if they fit. */
  datatype Unpadded = Body(body: bytes, padLen: nat) | BadPadding

  function Unpad(flags: byte, p: bytes): (r: Unpadded)
    ensures r.Body? ==> r.padLen + |r.body| <= |p|
  {
    if !HasFlag(flags, PADDED) then Body(p, 0)
    else if p == [] || p[0] + 1 > |p| then BadPadding
    else Body(p[1..|p| - p[0]], p[0])
  }

  function ParsePriority(p: bytes): Priority
    requires |p| >= 5
  {
    Priority(FromBe32(p) % STREAM_ID_LIMIT, p[0] >= 0x80, 1 + p[4] as nat)
  }

  function ParseSettings(p: bytes): (r: seq<(nat, nat)>)
    requires |p| % 6 == 0
    ensures |r| == |p| / 6
    ensures forall i :: 0 <= i < |r| ==> r[i].0 < 0x1_0000 && r[i].1 < UINT32_LIMIT
  {
    if p == [] then [] else [(FromBe16(p), FromBe32(p[2..]))] + ParseSettings(p[6..])
  }

  /** The loop of parse_http2_frame_settings. */
  method ReadSettings(input: bytes) returns (settings: seq<(nat, nat)>)
    requires |input| % 6 == 0
    ensures settings == ParseSettings(input)
  {
    settings := [];
    var niv := |input| / 6;
    var i := 0;
    var payload := input;
    while i < niv
      invariant i <= niv && |payload| == 6 * (niv - i)
      invariant settings + ParseSettings(payload) == ParseSettings(input)
    {
      settings := settings + [(FromBe16(payload), FromBe32(payload[2..]))];
      payload := payload[6..];
      i := i + 1;
    }
  }

  /** The parse_http2_frame_* functions, chosen by type as frame_process_func_array does. */
  function Parse(h: FrameHeader, p: bytes): Payload
    requires |p| == h.length && h.ftype <= CONTINUATION
  {
    match h.ftype
    case 0 =>
      (match Unpad(h.flags, p) case BadPadding => Malformed(FRAME_SIZE_ERROR) case Body(b, n) => DataPayload(b, n))
    case 1 =>
      (match Unpad(h.flags, p)
       case BadPadding => Malformed(FRAME_SIZE_ERROR)
       case Body(b, n) =>
         if |b| < 5 then Malformed(FRAME_SIZE_ERROR)
         else HeadersPayload(if HasFlag(h.flags, PRIORITY_FLAG) then b[5..] else b, n))
    case 2 => if h.length != 5 then Malformed(FRAME_SIZE_ERROR) else PriorityPayload(ParsePriority(p))
    case 3 => if h.length != 4 then Malformed(FRAME_SIZE_ERROR) else RstStreamPayload(FromBe32(p))
    case 4 => if h.length % 6 != 0 then Malformed(FRAME_SIZE_ERROR) else SettingsPayload(ParseSettings(p))
    case 5 =>
      (match Unpad(h.flags, p)
       case BadPadding => Malformed(FRAME_SIZE_ERROR)
       case Body(b, n) =>
         if |b| < 4 then Malformed(FRAME_SIZE_ERROR)
         else PushPromisePayload(FromBe32(b) % STREAM_ID_LIMIT, b[4..], n))
    case 6 => if h.length != 8 then Malformed(FRAME_SIZE_ERROR) else PingPayload(p)
    case 7 =>
      if h.length < 8 then Malformed(FRAME_SIZE_ERROR)
      else GoAwayPayload(FromBe32(p) % STREAM_ID_LIMIT, FromBe32(p[4..]), p[8..])
    case 8 => if h.length != 4 then Malformed(FRAME_SIZE_ERROR) else WindowUpdatePayload(FromBe32(p) % STREAM_ID_LIMIT)
    case _ => ContinuationPayload(p)
  }

  /**
   * The piece of a header block that the octets of a frame carry (sections 6.2, 6.6 and 6.10 of RFC 7540):
   * what is left once padding, priority and promised id are off, if they fit.
   */
  function CarriedBlock(h: FrameHeader, p: bytes): Option<bytes>
  {
    match h.ftype
    case 1 =>
      (match Unpad(h.flags, p)
       case BadPadding => None
       case Body(b, _) =>
         if !HasFlag(h.flags, PRIORITY_FLAG) then Some(b) else if |b| < 5 then None else Some(b[5..]))
    case 5 =>
      (match Unpad(h.flags, p)
       case BadPadding => None
       case Body(b, _) => if |b| < 4 then None else Some(b[4..]))
    case 9 => Some(p)
    case _ => None
  }

  /** The payload is one that the frame's type parses to. */
  predicate Fits(h: FrameHeader, p: Payload)
  {
    match p
    case Malformed(_) => true
    case SettingsPayload(_) => h.ftype == SETTINGS
    case PingPayload(_) => h.ftype == PING
    case GoAwayPayload(_, _, _) => h.ftype == GOAWAY
    case _ => h.ftype in {DATA, HEADERS, PRIORITY, RST_STREAM, PUSH_PROMISE, WINDOW_UPDATE, CONTINUATION}
  }

  lemma ParseFits(h: FrameHeader, octets: bytes)
    requires |octets| == h.length && h.ftype <= CONTINUATION
    ensures Fits(h, Parse(h, octets))
  {
    hide Unpad, ParseSettings, ParsePriority, FromBe32, HasFlag;
  }

  // ---------------------------------------------------------------- settings go round

  /** pack_http2_frame_settings, without the frame header */
  function SettingsOctets(settings: seq<(nat, nat)>): (r: bytes)
    ensures |r| == 6 * |settings|
  {
    if settings == [] then [] else Be16(settings[0].0) + Be32(settings[0].1) + SettingsOctets(settings[1..])
  }

  lemma {:induction false} SettingsRoundTrip(settings: seq<(nat, nat)>)
    requires forall i :: 0 <= i < |settings| ==> settings[i].0 < 0x1_0000 && settings[i].1 < UINT32_LIMIT
    ensures ParseSettings(SettingsOctets(settings)) == settings
  {
    if settings != [] {
      var (id, value) := settings[0];
      var rest := SettingsOctets(settings[1..]);
      var p := SettingsOctets(settings);
      assert p[6..] == rest;
      assert p[2..] == Be32(value) + rest;
      Be32RoundTrip(value, rest);
      assert FromBe16(p) == id;
      SettingsRoundTrip(settings[1..]);
    }
  }
}

/** The range table of src/http2/settings.cc (section 6.5.2 of RFC 7540). */
module Settings {
  import opened Bytes
  import Frames

  const COUNT := 7

  const HEADER_TABLE_SIZE := 1
  const ENABLE_PUSH := 2
  const MAX_CONCURRENT_STREAMS := 3
  const INITIAL_WINDOW_SIZE := 4
  const MAX_FRAME_SIZE := 5
  const MAX_HEADER_LIST_SIZE := 6

  datatype Range = Range(defaultValue: nat, min: nat, max: nat, disconnect: bool, error: nat)

  /** global_settings_parameters */
  function Parameters(id: nat): (r: Range)
    requires id < COUNT
    ensures r.min <= r.defaultValue <= r.max < UINT32_LIMIT
  {
    match id
    case 0 => Range(0, 0, 0, false, Frames.NO_ERROR)
    case 1 => Range(4096, 0, 4294967295, false, Frames.PROTOCOL_ERROR)
    case 2 => Range(1, 0, 1, true, Frames.PROTOCOL_ERROR)
    case 3 => Range(4294967295, 0, 4294967295, true, Frames.PROTOCOL_ERROR)
    case 4 => Range(65535, 0, 2147483647, true, Frames.FLOW_CONTROL_ERROR)
    case 5 => Range(16384, 16384, 16777215, true, Frames.PROTOCOL_ERROR)
    case _ => Range(16777216, 0, 16777216, false, Frames.PROTOCOL_ERROR)
  }

  predicate InRange(id: nat, value: nat)
    requires id < COUNT
  {
    Parameters(id).min <= value <= Parameters(id).max
  }

  function Clamp(id: nat, value: nat): (r: nat)
    requires id < COUNT
    ensures InRange(id, r) && (InRange(id, value) ==> r == value)
  {
    var p := Parameters(id);
    if value < p.min then p.min else if value > p.max then p.max else value
  }
}
