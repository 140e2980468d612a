/**
 * Questions and answers over every run of a connection: every PING is answered with its own octets, every
 * SETTINGS is acknowledged once, no more than one own PING is open, and what a client says first is the preface.
 */
module ConnectionTraffic {
  import opened Bytes
  import Coder = CompressorModel
  import ConnectionCodecs
  import opened ConnectionInvariant
  import opened ConnectionModel
  import opened ConnectionOutputs
  import opened ConnectionRuns
  import opened FlowControl
  import FrameRoundTrips
  import opened Frames
  import Settings
  import opened StreamModel
  import opened StringLiterals

  // ---------------------------------------------------------------- PING

  /** What an operation does about PING: nothing, ask, take an answer, or be asked and answer with the same octets. */
  ghost predicate PingStep(c: Conn, d: Conn)
  {
    var (sent, seen) := (Only(c.log, OfPing), Only(c.log, OfPong));
    || (Only(d.log, OfPing) == sent && Only(d.log, OfPong) == seen && d.pingPending == c.pingPending)
    || (exists data :: Only(d.log, OfPing) == sent + [SentPing(data, false)] && Only(d.log, OfPong) == seen &&
                       !c.pingPending && d.pingPending)
    || (exists data :: Only(d.log, OfPing) == sent && Only(d.log, OfPong) == seen + [OnPing(data, true)] &&
                       !d.pingPending)
    || (exists data :: Only(d.log, OfPing) == sent + [SentPing(data, true)] &&
                       Only(d.log, OfPong) == seen + [OnPing(data, false)] && d.pingPending == c.pingPending)
  }

  /** The settings asked for are waited for as before, and the local ones are as they were. */
  predicate Waits(c: Conn, d: Conn)
  {
    d.localSettings == c.localSettings &&
    (c.settingsPending ==> d.settingsPending && d.requestSettings == c.requestSettings)
  }

  /**
   * What it does about SETTINGS: nothing, make those asked for local when they are acknowledged, or report the
   * peer's and acknowledge them.
   */
  ghost predicate SettingsStep(c: Conn, d: Conn)
  {
    var (acks, reports) := (Only(c.log, OfAck), Only(c.log, OfReport));
    || (Only(d.log, OfAck) == acks && Only(d.log, OfReport) == reports && Waits(c, d))
    || (&& Only(d.log, OfAck) == acks && Only(d.log, OfReport) == reports + [OnSettings([], true)]
        && d.localSettings == AckedSettings(c.localSettings, c.requestSettings)
        && !d.settingsPending && d.requestSettings == [])
    || (exists seen :: Only(d.log, OfAck) == acks + [SentSettingsAck] &&
                       Only(d.log, OfReport) == reports + [OnSettings(seen, false)] && Waits(c, d))
  }

  /** All of it, with what a client says first. */
  ghost predicate TrafficStep(c: Conn, d: Conn)
  {
    PingStep(c, d) && SettingsStep(c, d) && ClientStep(c, d)
  }

  /** The flags that PING and SETTINGS go by. */
  lemma FlagsSay(c: Conn, d: Conn)
    ensures Steady(c, d) ==> d.pingPending == c.pingPending && Waits(c, d)
    ensures (exists p, g, w ::
               FlagsOf(d) == FlagsOf(c).(pingPending := p, receivedGoAway := g, sendWindow := w)) ==> Waits(c, d)
    ensures var f := FlagsOf(d);
            && f.pingPending == d.pingPending && f.settingsPending == d.settingsPending
            && f.localSettings == d.localSettings && f.requestSettings == d.requestSettings
  {
    hide AckedSettings;
  }

  lemma ApartSteps(c: Conn, d: Conn, kinds: set<Kind>)
    requires Adds(c, d, kinds)
    ensures {OfPing, OfPong} !! kinds && d.pingPending == c.pingPending ==> PingStep(c, d)
    ensures {OfAck, OfReport} !! kinds && Waits(c, d) ==> SettingsStep(c, d)
  {
    hide Only, Adds, Waits;
    if {OfPing, OfPong} !! kinds {
      AddsKeeps(c, d, kinds, OfPing);
      AddsKeeps(c, d, kinds, OfPong);
    }
    if {OfAck, OfReport} !! kinds {
      AddsKeeps(c, d, kinds, OfAck);
      AddsKeeps(c, d, kinds, OfReport);
    }
  }

  lemma CalmSteps(c: Conn, d: Conn)
    requires Calm(c, d)
    ensures TrafficStep(c, d)
  {
    hide Only, Adds, Steady, ClientStep, PingStep, SettingsStep, Waits;
    FlagsSay(c, d);
    ApartSteps(c, d, REFUSAL);
  }

  lemma StepsAround(c: Conn, t: Conn, d: Conn, e: Conn)
    requires t.log == c.log && FlagsOf(t) == FlagsOf(c) && TrafficStep(t, d) && Calm(d, e) && FlagsOf(e) == FlagsOf(d)
    ensures TrafficStep(c, e)
  {
    hide Only, Steady, ClientStep;
    CalmIsQuiet(d, e);
    SameVoice(c, t);
    SameFields(d, e);
    VoiceTwice(c, t, d);
    VoiceTwice(c, d, e);
  }

  lemma SameVoice(c: Conn, t: Conn)
    requires t.log == c.log && FlagsOf(t) == FlagsOf(c)
    ensures ClientStep(c, t) && t.pingPending == c.pingPending && t.localSettings == c.localSettings
    ensures t.settingsPending == c.settingsPending && t.requestSettings == c.requestSettings
  {
    hide ClientStep;
    VoiceByFields(c, t);
  }

  lemma SameFields(c: Conn, d: Conn)
    requires FlagsOf(d) == FlagsOf(c)
    ensures d.pingPending == c.pingPending && d.localSettings == c.localSettings
    ensures d.settingsPending == c.settingsPending && d.requestSettings == c.requestSettings
  {
  }

  lemma PingSteps(c: Conn, h: FrameHeader, data: bytes)
    ensures TrafficStep(c, PingReceived(c, h, data))
  {
    hide Only, Adds, HasFlag, PingReceived, Calm, ClientStep, Waits;
    var d := PingReceived(c, h, data);
    PingHandled(c, h, data);
    FlagsSay(c, d);
    PendingFlags(c, d);
    if h.streamId != 0 {
      CalmSteps(c, d);
    } else {
      ApartSteps(c, d, ON_PING);
    }
  }

  lemma PendingFlags(c: Conn, d: Conn)
    ensures FlagsOf(d) == FlagsOf(c) ==> d.pingPending == c.pingPending
    ensures FlagsOf(d) == FlagsOf(c).(pingPending := false) ==> !d.pingPending
  {
  }

  lemma SettingsSteps(c: Conn, h: FrameHeader, settings: seq<(nat, nat)>)
    requires Sized(c)
    ensures TrafficStep(c, SettingsReceived(c, h, settings))
  {
    hide Only, Adds, HasFlag, SettingsReceived, Calm, Steady, ApplySettings, AckedSettings, ClientStep, PingStep;
    var d := SettingsReceived(c, h, settings);
    FlagsSay(c, d);
    if h.streamId == 0 && HasFlag(h.flags, ACK) && h.length == 0 {
      AckHandled(c, h, settings);
      AckedFlags(c, d);
    } else {
      SettingsHandled(c, h, settings);
      if Calm(c, d) {
        CalmSteps(c, d);
      }
    }
    ApartSteps(c, d, ON_SETTINGS);
  }

  lemma AckedFlags(c: Conn, d: Conn)
    requires FlagsOf(d) == FlagsOf(c).(localSettings := AckedSettings(c.localSettings, c.requestSettings),
                                       settingsPending := false, requestSettings := [])
    ensures d.localSettings == AckedSettings(c.localSettings, c.requestSettings)
    ensures !d.settingsPending && d.requestSettings == [] && d.pingPending == c.pingPending
  {
    hide AckedSettings;
  }

  lemma OtherSteps(c: Conn, h: FrameHeader, p: Payload, huffman: Huffman)
    requires Sized(c) && (p.DataPayload? || p.WindowUpdatePayload? || p.GoAwayPayload?)
    requires p.DataPayload? ==> |p.data| < STREAM_ID_LIMIT
    ensures TrafficStep(c, Handle(c, h, p, huffman))
  {
    hide Only, Adds, DataReceived, GoAwayReceived, WindowUpdateReceived, Steady, ClientStep, Waits, PingStep,
         SettingsStep;
    var d := Handle(c, h, p, huffman);
    FlagsSay(c, d);
    match p
    case DataPayload(data, padLen) =>
      DataHandled(c, h, data, padLen);
      ApartSteps(c, d, ON_DATA);
    case GoAwayPayload(last, e, debug) =>
      GoAwayHandled(c, h, last, e, debug);
      SteadyOr(c, d);
      ApartSteps(c, d, REFUSAL);
    case WindowUpdatePayload(n) =>
      IncrementHandled(c, h, n);
      SteadyOr(c, d);
      ApartSteps(c, d, REFUSAL);
  }

  lemma SteadyOr(c: Conn, d: Conn)
    ensures FlagsOf(d) == Opened(FlagsOf(c)) ==> d.pingPending == c.pingPending && Waits(c, d)
    ensures FlagsOf(d) == FlagsOf(c) ==> d.pingPending == c.pingPending && Waits(c, d)
    ensures FlagsOf(d) == FlagsOf(c).(receivedGoAway := true) ==> d.pingPending == c.pingPending && Waits(c, d)
    ensures (exists n :: FlagsOf(d) == FlagsOf(c).(sendWindow := n)) ==> d.pingPending == c.pingPending && Waits(c, d)
  {
  }

  lemma HandledSteps(c: Conn, h: FrameHeader, p: Payload, huffman: Huffman)
    requires Sized(c) && !Plain(p) && (p.DataPayload? ==> |p.data| < STREAM_ID_LIMIT)
    ensures TrafficStep(c, Handle(c, h, p, huffman))
  {
    hide TrafficStep, PingReceived, SettingsReceived;
    match p
    case PingPayload(data) => PingSteps(c, h, data);
    case SettingsPayload(settings) => SettingsSteps(c, h, settings);
    case _ =>
      hide Handle;
      OtherSteps(c, h, p, huffman);
  }

  lemma DataIsShort(h: FrameHeader, payload: bytes)
    requires |payload| == h.length < 0x100_0000 && h.ftype <= CONTINUATION && Parse(h, payload).DataPayload?
    ensures |Parse(h, payload).data| < STREAM_ID_LIMIT
  {
    hide ParseSettings, ParsePriority, FromBe32, HasFlag;
  }

  lemma FrameSteps(c: Conn, h: FrameHeader, payload: bytes, huffman: Huffman)
    requires Sized(c) && |payload| == h.length < 0x100_0000
    ensures TrafficStep(c, Process(c, h, payload, huffman).conn)
  {
    hide Process, Handle, Parse, Calm, TrafficStep, Plain, Tracked, Reaped, Admitted, FlagsOf;
    if Reaching(c, h, payload).None? || Plain(Parse(h, payload)) {
      FrameIsCalm(c, h, payload, huffman);
      CalmSteps(c, Process(c, h, payload, huffman).conn);
    } else {
      var p := Parse(h, payload);
      MalformedIsPlain(p);
      FrameIsHandled(c, h, payload, huffman);
      TrackedIsCalm(c, h.streamId);
      var t := Tracked(c, h.streamId);
      if p.DataPayload? {
        DataIsShort(h, payload);
      }
      HandledSteps(t, h, p, huffman);
      var d := Handle(t, h, p, huffman);
      ReapedIsCalm(d, h.streamId);
      CalmByFields(d, d);
      StepsAround(c, t, d, d);
      StepsAround(c, t, d, Reaped(d, h.streamId));
    }
  }

  lemma MalformedIsPlain(p: Payload)
    ensures !Plain(p) ==> !p.Malformed?
  {
  }

  // ---------------------------------------------------------------- calls

  lemma VerifySteps(c: Conn)
    ensures var d := InitialSettingsSent(c.(finishHandshake := true)); PingStep(c, d) && SettingsStep(c, d)
  {
    hide Only, Adds, InitialSettingsSent, PingStep, SettingsStep;
    var d := InitialSettingsSent(c.(finishHandshake := true));
    VerifyHandled(c);
    FlagsSay(c, d);
    ApartSteps(c, d, {OfSettings});
  }

  lemma RequestSteps(c: Conn, settings: seq<(nat, nat)>)
    ensures TrafficStep(c, SettingsSent(c, settings))
  {
    hide Only, Adds, SettingsSent, PingStep, SettingsStep, ClientStep;
    var d := SettingsSent(c, settings);
    RequestHandled(c, settings);
    FlagsSay(c, d);
    ApartSteps(c, d, OPENING);
  }

  lemma PingCallSteps(c: Conn, data: bytes)
    ensures TrafficStep(c, PingSent(c, data))
  {
    hide Only, Adds, PingSent, SettingsStep, ClientStep;
    var (d, kinds) := (PingSent(c, data), {OfPreface, OfSettings, OfPing});
    PingSentHandled(c, data);
    FlagsSay(c, d);
    AddsKeeps(c, d, kinds, OfPong);
    ApartSteps(c, d, kinds);
    assert Only(c.log, OfPing) + [] == Only(c.log, OfPing);
  }

  lemma FlowSteps(c: Conn, op: Op, huffman: Huffman)
    requires Ready(c) && (op.SendData? || op.SendWindowUpdate?)
    ensures TrafficStep(c, Apply(c, op, huffman))
  {
    hide Only, Adds, DataSent, WindowUpdateSent, PingStep, SettingsStep, ClientStep, Coder.WellFormed;
    var d := Apply(c, op, huffman);
    FlagsSay(c, d);
    match op
    case SendData(id, handle, data, endStream) =>
      DataSentFlows(c, id, handle, data, endStream);
      ApartSteps(c, d, REFUSAL + {OfData});
    case SendWindowUpdate(id, ci, si) =>
      UpdateCallFlows(c, id, ci, si);
      ApartSteps(c, d, {OfPreface, OfSettings, OfWindow});
  }

  lemma CallSteps(c: Conn, op: Op, huffman: Huffman)
    requires Ready(c) && !op.Receive?
    ensures var d := Apply(c, op, huffman);
            PingStep(c, d) && SettingsStep(c, d) && (!op.VerifyPreface? ==> ClientStep(c, d))
  {
    hide PingStep, SettingsStep, ClientStep, Calm, InitialSettingsSent, SettingsSent, PingSent, Coder.WellFormed;
    if PlainCall(op) {
      hide Apply;
      CallIsCalm(c, op, huffman);
      CalmSteps(c, Apply(c, op, huffman));
    } else if op.SendData? || op.SendWindowUpdate? {
      hide Apply;
      FlowSteps(c, op, huffman);
    } else {
      hide PlainCall;
      match op
      case VerifyPreface => VerifySteps(c);
      case SendSettings(settings) => RequestSteps(c, settings);
      case SendPing(data) => PingCallSteps(c, data);
      case _ =>
    }
  }

  lemma OperationSteps(c: Conn, op: Op, huffman: Huffman)
    requires Ready(c)
    ensures var d := Apply(c, op, huffman);
            PingStep(c, d) && SettingsStep(c, d) && (!op.VerifyPreface? ==> ClientStep(c, d))
  {
    hide PingStep, SettingsStep, ClientStep, Process, Coder.WellFormed, Calm;
    if !op.Receive? {
      hide Apply;
      CallSteps(c, op, huffman);
    } else if Whole(op) {
      FrameSteps(c, UnpackHeader(op.package), PayloadOf(op), huffman);
    } else {
      CalmByFields(c, c);
      CalmSteps(c, c);
    }
  }

  // ---------------------------------------------------------------- runs

  /** The octets of the PING frames among some outputs that are answers, and of the questions reported. */
  function Answers(sent: seq<Output>): seq<bytes>
  {
    if sent == [] then []
    else
      var n := |sent| - 1;
      Answers(sent[..n]) + (if sent[n].SentPing? && sent[n].ack then [sent[n].opaqueData] else [])
  }

  function Questions(seen: seq<Output>): seq<bytes>
  {
    if seen == [] then []
    else
      var n := |seen| - 1;
      Questions(seen[..n]) + (if seen[n].OnPing? && !seen[n].ack then [seen[n].opaqueData] else [])
  }

  /** How many of its own questions an endpoint has asked, and how many answers it has been told of. */
  function Own(sent: seq<Output>): nat
  {
    if sent == [] then 0
    else
      var n := |sent| - 1;
      Own(sent[..n]) + (if sent[n].SentPing? && !sent[n].ack then 1 else 0)
  }

  function Told(seen: seq<Output>): nat
  {
    if seen == [] then 0
    else
      var n := |seen| - 1;
      Told(seen[..n]) + (if seen[n].OnPing? && seen[n].ack then 1 else 0)
  }

  /** How many of the peer's SETTINGS were reported. */
  function Announcements(reports: seq<Output>): nat
  {
    if reports == [] then 0
    else
      var n := |reports| - 1;
      Announcements(reports[..n]) + (if reports[n].OnSettings? && !reports[n].ack then 1 else 0)
  }

  lemma OneMore(outputs: seq<Output>, o: Output)
    ensures Answers(outputs + [o]) == Answers(outputs) + (if o.SentPing? && o.ack then [o.opaqueData] else [])
    ensures Questions(outputs + [o]) == Questions(outputs) + (if o.OnPing? && !o.ack then [o.opaqueData] else [])
    ensures Own(outputs + [o]) == Own(outputs) + (if o.SentPing? && !o.ack then 1 else 0)
    ensures Told(outputs + [o]) == Told(outputs) + (if o.OnPing? && o.ack then 1 else 0)
    ensures Announcements(outputs + [o]) == Announcements(outputs) + (if o.OnSettings? && !o.ack then 1 else 0)
  {
    assert (outputs + [o])[..|outputs|] == outputs;
  }

  /** What holds of questions and answers after any run. */
  ghost predicate InBalance(c: Conn)
  {
    && Answers(Only(c.log, OfPing)) == Questions(Only(c.log, OfPong))
    && Own(Only(c.log, OfPing)) <= Told(Only(c.log, OfPong)) + (if c.pingPending then 1 else 0)
    && |Only(c.log, OfAck)| == Announcements(Only(c.log, OfReport))
  }

  lemma PingsStayInBalance(c: Conn, d: Conn)
    requires PingStep(c, d)
    requires Answers(Only(c.log, OfPing)) == Questions(Only(c.log, OfPong))
    requires Own(Only(c.log, OfPing)) <= Told(Only(c.log, OfPong)) + (if c.pingPending then 1 else 0)
    ensures Answers(Only(d.log, OfPing)) == Questions(Only(d.log, OfPong))
    ensures Own(Only(d.log, OfPing)) <= Told(Only(d.log, OfPong)) + (if d.pingPending then 1 else 0)
  {
    hide Only, Answers, Questions, Own, Told;
    var (sent, seen, after, told) :=
      (Only(c.log, OfPing), Only(c.log, OfPong), Only(d.log, OfPing), Only(d.log, OfPong));
    if after != sent {
      OneMore(sent, after[|sent|]);
    }
    if told != seen {
      OneMore(seen, told[|seen|]);
    }
  }

  lemma SettingsStayInBalance(c: Conn, d: Conn)
    requires SettingsStep(c, d) && |Only(c.log, OfAck)| == Announcements(Only(c.log, OfReport))
    ensures |Only(d.log, OfAck)| == Announcements(Only(d.log, OfReport))
  {
    hide Only, Announcements;
    var (reports, after) := (Only(c.log, OfReport), Only(d.log, OfReport));
    if after != reports {
      OneMore(reports, after[|reports|]);
    }
  }

  lemma StartsInBalance(clientSide: bool, hash: Coder.Hash)
    ensures var c := Init(clientSide, hash);
            InBalance(c) && Voice(c.log) == [] && Only(c.log, OfPreface) == [] && c.clientSide == clientSide
  {
  }

  /**
   * Over every run: the PING frames sent as answers carry, in order, the octets of the questions reported; at
   * most one own question is open; and the peer's SETTINGS that were reported were each acknowledged once.
   */
  lemma {:induction false} EveryQuestionIsAnswered(clientSide: bool, hash: Coder.Hash, ops: seq<Op>, huffman: Huffman)
    ensures Inv(Init(clientSide, hash)) && InBalance(After(Init(clientSide, hash), ops, huffman))
    decreases |ops|
  {
    hide Inv, Apply, Only, Answers, Questions, Own, Told, Announcements, PingStep, SettingsStep, ClientStep;
    InitInv(clientSide, hash);
    StartsInBalance(clientSide, hash);
    var start := Init(clientSide, hash);
    if ops != [] {
      var n := |ops| - 1;
      var before := After(start, ops[..n], huffman);
      EveryQuestionIsAnswered(clientSide, hash, ops[..n], huffman);
      ReadyByInv(before);
      OperationSteps(before, ops[n], huffman);
      PingsStayInBalance(before, After(start, ops, huffman));
      SettingsStayInBalance(before, After(start, ops, huffman));
    }
  }

  /** A PING frame on stream 0 that is no answer is answered with its own eight octets. */
  lemma PingFrameIsAnswered(c: Conn, h: FrameHeader, payload: bytes, huffman: Huffman)
    requires Sized(c) && |payload| == h.length == 8 && Admitted(c, h)
    requires h.ftype == PING && h.streamId == 0 && !HasFlag(h.flags, ACK)
    ensures var d := Process(c, h, payload, huffman).conn;
            Only(d.log, OfPing) == Only(c.log, OfPing) + [SentPing(payload, true)]
  {
    hide Handle, Reaped, Tracked, Only, HasFlag, Adds, PingReceived;
    FrameRoundTrips.PingParses(h, payload);
    FrameIsHandled(c, h, payload, huffman);
    TrackedIsCalm(c, 0);
    PingHandled(Tracked(c, 0), h, payload);
    HandlesPing(Tracked(c, 0), h, payload, huffman);
  }

  lemma HandlesPing(c: Conn, h: FrameHeader, data: bytes, huffman: Huffman)
    requires Sized(c)
    ensures Handle(c, h, PingPayload(data), huffman) == PingReceived(c, h, data)
  {
  }

  // ---------------------------------------------------------------- the preface

  /** No operation is the server's answer to a preface. */
  predicate NoVerify(ops: seq<Op>)
  {
    forall i :: 0 <= i < |ops| ==> !ops[i].VerifyPreface?
  }

  /**
   * In every run of a client the preface is the first thing it says, its settings the second, and there is one
   * preface; only answers to SETTINGS and PING may have gone out before.
   */
  lemma {:induction false} ThePrefaceComesFirst(hash: Coder.Hash, ops: seq<Op>, huffman: Huffman)
    requires NoVerify(ops)
    ensures Inv(Init(true, hash))
    ensures var c := After(Init(true, hash), ops, huffman);
            && c.clientSide
            && if c.prefaceSent then
                 && |Voice(c.log)| >= 2 && Voice(c.log)[0] == SentPreface && Voice(c.log)[1].SentSettings?
                 && Only(c.log, OfPreface) == [SentPreface]
               else Voice(c.log) == [] && Only(c.log, OfPreface) == []
    decreases |ops|
  {
    hide Inv, Apply, Only, Voice, PingStep, SettingsStep;
    InitInv(true, hash);
    StartsInBalance(true, hash);
    var start := Init(true, hash);
    if ops != [] {
      var n := |ops| - 1;
      var before := After(start, ops[..n], huffman);
      ThePrefaceComesFirst(hash, ops[..n], huffman);
      ReadyByInv(before);
      OperationSteps(before, ops[n], huffman);
    }
  }

  /** The peer's SETTINGS, with nothing in them. */
  const EMPTY_SETTINGS := FrameHeader(0, SETTINGS, 0, 0)

  lemma EmptySettingsAnswered(c: Conn, huffman: Huffman)
    requires Sized(c) && !c.nextFrameLimit && !c.sentGoAway
    ensures Process(c, EMPTY_SETTINGS, [], huffman).conn.log == c.log + [OnSettings([], false), SentSettingsAck]
  {
    hide Reaped, GoAwaySent;
    EmptySettingsParse();
    assert Tracked(c, 0) == c by { ConnectionCodecs.NotTracked(c); }
  }

  lemma EmptySettingsParse()
    ensures Parse(EMPTY_SETTINGS, []) == SettingsPayload([]) && !HasFlag(EMPTY_SETTINGS.flags, ACK)
  {
  }

  /** A client whose peer speaks first acknowledges its SETTINGS before it has sent the preface. */
  lemma AcknowledgesBeforePreface(hash: Coder.Hash, huffman: Huffman)
    ensures Inv(Init(true, hash))
    ensures var c := After(Init(true, hash), [Wire(EMPTY_SETTINGS, [])], huffman);
            c.log == [OnSettings([], false), SentSettingsAck] && !c.prefaceSent
  {
    hide Inv, Apply, Process, After, Wire, Only, PingStep, SettingsStep;
    InitInv(true, hash);
    var (start, op) := (Init(true, hash), Wire(EMPTY_SETTINGS, []));
    AfterOne(start, [], op, huffman);
    assert [] + [op] == [op];
    AtRest(hash);
    WireProcessed(start, EMPTY_SETTINGS, [], huffman);
    EmptySettingsAnswered(start, huffman);
    OperationSteps(start, op, huffman);
    AnswersAreNotSpoken();
    assert !op.VerifyPreface? by { WireReceives(EMPTY_SETTINGS, []); }
  }

  lemma WireReceives(h: FrameHeader, payload: bytes)
    ensures Wire(h, payload).Receive?
  {
  }

  lemma AtRest(hash: Coder.Hash)
    ensures var c := Init(true, hash);
            !c.nextFrameLimit && !c.sentGoAway && c.log == [] && !c.prefaceSent && c.clientSide
  {
  }

  lemma AnswersAreNotSpoken()
    ensures Voice([OnSettings([], false), SentSettingsAck]) == [] && Voice([]) == []
  {
    assert [OnSettings([], false), SentSettingsAck][..1] == [OnSettings([], false)];
    assert [OnSettings([], false)][..0] == [];
  }

  // ---------------------------------------------------------------- local settings

  /** The value asked for last for an id, or what there is. */
  function LastAsked(local: seq<nat>, requested: seq<(nat, nat)>, id: nat): nat
    requires id < |local|
  {
    if requested == [] then local[id]
    else
      var n := |requested| - 1;
      if requested[n].0 == id then requested[n].1 else LastAsked(local, requested[..n], id)
  }

  lemma {:induction false} AckedSnoc(local: seq<nat>, requested: seq<(nat, nat)>, last: (nat, nat))
    ensures AckedSettings(local, requested + [last]) ==
            var r := AckedSettings(local, requested); if last.0 < |r| then r[last.0 := last.1] else r
    decreases |requested|
  {
    if requested == [] {
      assert [last][1..] == [] && requested + [last] == [last];
      assert AckedSettings(if last.0 < |local| then local[last.0 := last.1] else local, [last][1..]) ==
             if last.0 < |local| then local[last.0 := last.1] else local;
    } else {
      var (id, value) := requested[0];
      assert (requested + [last])[1..] == requested[1..] + [last];
      AckedSnoc(if id < |local| then local[id := value] else local, requested[1..], last);
    }
  }

  /** An acknowledgement gives each known id the value asked for last. */
  lemma {:induction false} AckedMeans(local: seq<nat>, requested: seq<(nat, nat)>, id: nat)
    requires id < |local|
    ensures AckedSettings(local, requested)[id] == LastAsked(local, requested, id)
    decreases |requested|
  {
    if requested != [] {
      var n := |requested| - 1;
      AckedMeans(local, requested[..n], id);
      AckedSnoc(local, requested[..n], requested[n]);
      assert requested[..n] + [requested[n]] == requested;
    }
  }

  /** No acknowledgement is reported in a run. */
  function Acknowledgements(reports: seq<Output>): nat
  {
    if reports == [] then 0
    else
      var n := |reports| - 1;
      Acknowledgements(reports[..n]) + (if reports[n].OnSettings? && reports[n].ack then 1 else 0)
  }

  lemma ReportsOneMore(reports: seq<Output>, o: Output)
    ensures Acknowledgements(reports + [o]) == Acknowledgements(reports) + (if o.OnSettings? && o.ack then 1 else 0)
  {
    assert (reports + [o])[..|reports|] == reports;
  }

  /** One step: without an acknowledgement what is asked for waits, and with one it becomes local. */
  lemma RequestStep(c: Conn, d: Conn)
    requires SettingsStep(c, d)
    ensures Acknowledgements(Only(c.log, OfReport)) <= Acknowledgements(Only(d.log, OfReport))
    ensures if Acknowledgements(Only(d.log, OfReport)) == Acknowledgements(Only(c.log, OfReport)) then Waits(c, d)
            else d.localSettings == AckedSettings(c.localSettings, c.requestSettings)
  {
    hide Only, Acknowledgements, AckedSettings;
    var (reports, after) := (Only(c.log, OfReport), Only(d.log, OfReport));
    if after != reports {
      ReportsOneMore(reports, after[|reports|]);
    }
  }

  /**
   * Settings asked for wait over every run, and no local setting moves, until an acknowledgement comes: then the
   * local ones are those with exactly what was asked for in them.
   */
  lemma {:induction false} RequestsWaitForTheirAnswer(c: Conn, ops: seq<Op>, op: Op, huffman: Huffman)
    requires Inv(c) && c.settingsPending
    requires Acknowledgements(Only(After(c, ops, huffman).log, OfReport)) == Acknowledgements(Only(c.log, OfReport))
    ensures Waits(c, After(c, ops, huffman)) && After(c, ops, huffman).settingsPending && Ready(After(c, ops, huffman))
    ensures var d := Apply(After(c, ops, huffman), op, huffman);
            Acknowledgements(Only(d.log, OfReport)) > Acknowledgements(Only(c.log, OfReport)) ==>
              d.localSettings == AckedSettings(c.localSettings, c.requestSettings)
    decreases |ops|
  {
    hide Inv, Apply, Only, Acknowledgements, AckedSettings, PingStep, SettingsStep, ClientStep;
    var d := After(c, ops, huffman);
    ReadyByInv(d);
    if ops != [] {
      var n := |ops| - 1;
      var before := After(c, ops[..n], huffman);
      ReadyByInv(before);
      OperationSteps(before, ops[n], huffman);
      RequestStep(before, d);
      NeverFewer(c, ops[..n], huffman);
      RequestsWaitForTheirAnswer(c, ops[..n], ops[n], huffman);
    }
    OperationSteps(d, op, huffman);
    RequestStep(d, Apply(d, op, huffman));
  }

  lemma {:induction false} NeverFewer(c: Conn, ops: seq<Op>, huffman: Huffman)
    requires Inv(c)
    ensures Acknowledgements(Only(c.log, OfReport)) <= Acknowledgements(Only(After(c, ops, huffman).log, OfReport))
    decreases |ops|
  {
    hide Inv, Apply, Only, Acknowledgements, PingStep, SettingsStep, ClientStep;
    if ops != [] {
      var n := |ops| - 1;
      var before := After(c, ops[..n], huffman);
      ReadyByInv(before);
      NeverFewer(c, ops[..n], huffman);
      OperationSteps(before, ops[n], huffman);
      RequestStep(before, After(c, ops, huffman));
    }
  }
}
