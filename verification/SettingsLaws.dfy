/**
 * What SETTINGS do, value by value: which are refused and with which error, what is kept of the others and
 * reported, and what an acknowledgement brings into force (section 6.5 of RFC 7540).
 */
module SettingsLaws {
  import opened Bytes
  import Coder = CompressorModel
  import opened ConnectionCodecs
  import opened ConnectionInvariant
  import opened ConnectionModel
  import opened ConnectionRuns
  import opened ConnectionTraffic
  import opened FrameEffects
  import opened FrameRoundTrips
  import opened Frames
  import HeaderBlocks
  import Settings
  import opened StringLiterals
  import opened TransportLaws

  // ---------------------------------------------------------------- one setting

  /**
   * The values that end the connection: ENABLE_PUSH above 1, an INITIAL_WINDOW_SIZE above 2^31 - 1, and a
   * MAX_FRAME_SIZE outside 2^14 to 2^24 - 1.
   */
  predicate Bad(id: nat, value: nat)
  {
    || (id == 2 && value > 1)
    || (id == 4 && value >= 0x8000_0000)
    || (id == 5 && (value < 0x4000 || value >= 0x100_0000))
  }

  /** The error they end it with. */
  function BadCode(id: nat): nat
  {
    if id == 4 then 3 else 1
  }

  /** Of what is not bad, id 0 keeps nothing and MAX_HEADER_LIST_SIZE at most 2^24. */
  function KeptValue(id: nat, value: nat): nat
  {
    if id == 0 then 0 else if id == 6 && value > 0x100_0000 then 0x100_0000 else value
  }

  lemma BadIsRefused(id: nat, value: nat)
    requires value < UINT32_LIMIT
    ensures Refused(id, value) <==> Bad(id, value)
    ensures Bad(id, value) ==> Settings.Parameters(id).error == BadCode(id)
    ensures !Bad(id, value) && id < Settings.COUNT ==> Settings.Clamp(id, value) == KeptValue(id, value)
  {
  }

  /** The settings of either end before any frame, and the SETTINGS that the first ones are announced in. */
  lemma Defaults(clientSide: bool, hash: Coder.Hash)
    ensures var c := Init(clientSide, hash);
            && c.remoteSettings == [0, 4096, 1, 0xffff_ffff, 65535, 16384, 0x100_0000]
            && c.localSettings == [0, 4096, 1, 0xffff_ffff, 65535, 16384, 8192]
            && NonDefault(c.localSettings, 1) == [(6, 8192)]
            && (clientSide ==> PrefaceEnsured(c).log == [SentPreface, SentSettings([(6, 8192)])])
            && InitialSettingsSent(c).log == [SentSettings([(6, 8192)])]
  {
    var local := Init(clientSide, hash).localSettings;
    assert local == [0, 4096, 1, 0xffff_ffff, 65535, 16384, 8192];
    OnlyLast(local);
  }

  lemma OnlyLast(local: seq<nat>)
    requires local == [0, 4096, 1, 0xffff_ffff, 65535, 16384, 8192]
    ensures NonDefault(local, 1) == [(6, 8192)]
  {
    assert NonDefault(local, 7) == [];
    assert NonDefault(local, 6) == [(6, 8192)];
    assert NonDefault(local, 5) == [(6, 8192)];
    assert NonDefault(local, 4) == [(6, 8192)];
    assert NonDefault(local, 3) == [(6, 8192)];
    assert NonDefault(local, 2) == [(6, 8192)];
  }

  // ---------------------------------------------------------------- a whole frame

  /** The index of the first bad setting, or the number of settings. */
  function Until(settings: seq<(nat, nat)>): (n: nat)
    ensures n <= |settings| && (n < |settings| ==> Bad(settings[n].0, settings[n].1))
    ensures forall i :: 0 <= i < n ==> !Bad(settings[i].0, settings[i].1)
  {
    if settings == [] || Bad(settings[0].0, settings[0].1) then 0 else 1 + Until(settings[1..])
  }

  /** Settings as they are kept. */
  function KeptAll(settings: seq<(nat, nat)>): (r: seq<(nat, nat)>)
    ensures |r| == |settings|
  {
    if settings == [] then []
    else [(settings[0].0, KeptValue(settings[0].0, settings[0].1))] + KeptAll(settings[1..])
  }

  /** The connection with some settings of the peer's in force. */
  function WithRemote(c: Conn, kept: seq<(nat, nat)>): Conn
  {
    c.(remoteSettings := Stores(c.remoteSettings, kept), compressor := Resizes(c.compressor, kept))
  }

  predicate Wide(settings: seq<(nat, nat)>)
  {
    forall i :: 0 <= i < |settings| ==> settings[i].0 < 0x1_0000 && settings[i].1 < UINT32_LIMIT
  }

  lemma OneMoreRemote(c: Conn, id: nat, value: nat, rest: seq<(nat, nat)>)
    requires Sized(c) && value < UINT32_LIMIT && !Bad(id, value)
    ensures var d := if id < Settings.COUNT then SettingApplied(c, id, value) else c;
            Sized(d) && WithRemote(c, [(id, KeptValue(id, value))] + rest) == WithRemote(d, rest)
    ensures id < Settings.COUNT ==> Settings.Clamp(id, value) == KeptValue(id, value)
  {
    hide Settings.Clamp, Settings.Parameters, SettingApplied, Stores, Resizes, KeptValue, Bad, Refused, LetThrough;
    BadIsRefused(id, value);
    var v := KeptValue(id, value);
    OneMoreTold(c.compressor, c.remoteSettings, (id, v), rest);
    if id < Settings.COUNT {
      SettingFields(c, id, value);
    }
  }

  /** The settings up to the first bad one are applied in order; that one is answered, and nothing after it is read. */
  lemma {:induction false} AppliedAre(c: Conn, settings: seq<(nat, nat)>, seen: seq<(nat, nat)>)
    requires Sized(c) && Wide(settings)
    ensures var n := Until(settings);
            var d := WithRemote(c, KeptAll(settings[..n]));
            ApplySettings(c, settings, seen) ==
            Applied(if n < |settings| then GoAwaySent(d, BadCode(settings[n].0), 0) else d,
                    seen + KeptAll(settings[..n]), n < |settings|)
    decreases |settings|
  {
    hide GoAwaySent, Settings.Parameters, Settings.Clamp, SettingApplied, Stores, Resizes, KeptValue, Bad, WithRemote,
         Refused;
    if settings == [] {
      NothingRemote(c);
    } else {
      var (id, value) := settings[0];
      BadIsRefused(id, value);
      if Bad(id, value) {
        NothingRemote(c);
        BadIsKnown(id, value);
      } else {
        var (kept, rest) := ((id, KeptValue(id, value)), settings[1..]);
        var n := Until(rest);
        assert settings[..n + 1][1..] == rest[..n];
        OneMoreRemote(c, id, value, KeptAll(rest[..n]));
        var d := if id < Settings.COUNT then SettingApplied(c, id, value) else c;
        NotKnown(id, value);
        AppliedAre(d, rest, seen + [kept]);
        assert seen + [kept] + KeptAll(rest[..n]) == seen + ([kept] + KeptAll(rest[..n]));
      }
    }
  }

  lemma BadIsKnown(id: nat, value: nat)
    requires Bad(id, value)
    ensures id < Settings.COUNT
  {
  }

  lemma NotKnown(id: nat, value: nat)
    ensures id >= Settings.COUNT ==> KeptValue(id, value) == value
  {
  }

  lemma NothingRemote(c: Conn)
    ensures WithRemote(c, []) == c && KeptAll([]) == []
  {
  }

  /** The settings kept are those said last. */
  lemma {:induction false} StoresLast(remote: seq<nat>, kept: seq<(nat, nat)>)
    ensures Stores(remote, kept) == AckedSettings(remote, kept)
    decreases |kept|
  {
    if kept != [] {
      var (id, value) := kept[0];
      StoresLast(if id < |remote| then remote[id := value] else remote, kept[1..]);
    }
  }

  lemma RefusalTells(c: Conn, d: Conn, e: nat)
    requires d.streams == c.streams && d.table == c.table && d.log == c.log && d.lastStreamId == c.lastStreamId
    ensures RefusedWith(c, e, GoAwaySent(d, e, 0))
  {
    hide Specials, LastIds, GoAwaySent;
    HeaderBlocks.GoAwayTells(d, e);
    GoAwayNames(d, e);
  }

  lemma GoAwayNames(c: Conn, e: nat)
    ensures GoAways(GoAwaySent(c, e, 0)) == GoAways(c) + [c.lastStreamId]
  {
    hide Specials, LastIds, PrefaceEnsured, Sound;
    PrefaceIsQuiet(c);
    var (p, g) := (PrefaceEnsured(c), GoAwaySent(c, e, 0));
    GoAwaysAppend(p, g.log[|p.log|]);
  }

  /** After the settings every known id has the value kept of it last, or the one it had. */
  predicate InForce(before: seq<nat>, kept: seq<(nat, nat)>, after: seq<nat>)
  {
    |after| == |before| && forall id :: 0 <= id < |before| ==> after[id] == LastAsked(before, kept, id)
  }

  lemma RemoteInForce(c: Conn, kept: seq<(nat, nat)>)
    ensures InForce(c.remoteSettings, kept, WithRemote(c, kept).remoteSettings)
  {
    hide Stores, AckedSettings, LastAsked, Resizes;
    StoresLast(c.remoteSettings, kept);
    forall id | 0 <= id < |c.remoteSettings|
      ensures WithRemote(c, kept).remoteSettings[id] == LastAsked(c.remoteSettings, kept, id)
    {
      AckedMeans(c.remoteSettings, kept, id);
    }
  }

  /**
   * SETTINGS without a bad value are reported as they are kept and acknowledged, and are in force; otherwise the
   * first bad one is answered with its error, those before it are in force all the same, and none is reported.
   */
  lemma SettingsArrive(c: Conn, h: FrameHeader, settings: seq<(nat, nat)>, huffman: Huffman)
    requires Inv(c) && Wide(settings) && h.ftype == SETTINGS && !FirstBit(h) && Proper(c, h, Entries(settings))
    ensures var (d, n) := (Take(c, h, Entries(settings), huffman), Until(settings));
            var kept := KeptAll(settings[..n]);
            if h.streamId != 0 then RefusedWith(Tracked(c, h.streamId), 1, d)
            else
              && InForce(c.remoteSettings, kept, d.remoteSettings) && d.localSettings == c.localSettings
              && if n < |settings| then RefusedWith(c, BadCode(settings[n].0), d)
                 else d.log == c.log + [OnSettings(kept, false), SentSettingsAck] && d.streams == c.streams &&
                      d.sentGoAway == c.sentGoAway
  {
    hide Inv, Parse, Handle, Reaped, Tracked, RightSize, GoAwaySent, RefusedWith, Take, Entries, SettingsReceived,
         WithRemote, InForce, KeptAll, Until, BadCode, Admitted;
    var t := Tracked(c, h.streamId);
    Reaches(c, h, Entries(settings), huffman);
    SettingsParse(h, settings);
    SettingsHandled(t, h, settings, huffman);
    if h.streamId != 0 {
      RefusalStands(t, 1, h.streamId);
    } else {
      NotTracked(c);
      FirstBitIs(h);
      var (n, kept) := (Until(settings), KeptAll(settings[..Until(settings)]));
      var r := WithRemote(c, kept);
      AppliedAre(c, settings, []);
      assert [] + kept == kept;
      RemoteInForce(c, kept);
      RemoteKeeps(c, kept);
      if n < |settings| {
        RefusalTells(c, r, BadCode(settings[n].0));
        HeaderBlocks.GoAwayTells(r, BadCode(settings[n].0));
      }
      SettingsTaken(c, h, settings);
    }
  }

  lemma RemoteKeeps(c: Conn, kept: seq<(nat, nat)>)
    ensures var d := WithRemote(c, kept);
            && d.streams == c.streams && d.table == c.table && d.log == c.log && d.lastStreamId == c.lastStreamId
            && d.localSettings == c.localSettings && d.sentGoAway == c.sentGoAway
  {
  }

  lemma SettingsHandled(c: Conn, h: FrameHeader, settings: seq<(nat, nat)>, huffman: Huffman)
    requires Sized(c)
    ensures Handle(c, h, SettingsPayload(settings), huffman) == SettingsReceived(c, h, settings)
    ensures h.streamId != 0 ==> SettingsReceived(c, h, settings) == GoAwaySent(c, 1, 0)
  {
    hide GoAwaySent, ApplySettings, HasFlag;
  }

  lemma SettingsTaken(c: Conn, h: FrameHeader, settings: seq<(nat, nat)>)
    requires Sized(c) && h.streamId == 0 && !HasFlag(h.flags, ACK)
    ensures var (a, d) := (ApplySettings(c, settings, []), SettingsReceived(c, h, settings));
            if a.refused then d == a.conn
            else
              && d.log == a.conn.log + [OnSettings(a.seen, false), SentSettingsAck]
              && d.remoteSettings == a.conn.remoteSettings && d.localSettings == a.conn.localSettings
              && d.streams == a.conn.streams && d.sentGoAway == a.conn.sentGoAway
  {
    hide ApplySettings, HasFlag;
  }

  /**
   * An acknowledgement brings the settings asked for into force here and ends the wait for it; one that is not
   * empty is refused.
   */
  lemma AcknowledgementArrives(c: Conn, h: FrameHeader, settings: seq<(nat, nat)>, huffman: Huffman)
    requires Inv(c) && Wide(settings) && h.ftype == SETTINGS && FirstBit(h) && Proper(c, h, Entries(settings))
    requires h.streamId == 0
    ensures var d := Take(c, h, Entries(settings), huffman);
            if settings != [] then RefusedWith(c, 6, d)
            else
              && InForce(c.localSettings, c.requestSettings, d.localSettings) && d.remoteSettings == c.remoteSettings
              && !d.settingsPending && d.requestSettings == []
              && d.log == c.log + [OnSettings([], true)] && d.streams == c.streams
  {
    hide Inv, Parse, Handle, Reaped, Tracked, RightSize, GoAwaySent, RefusedWith, Take, Entries, SettingsReceived,
         AckedSettings, LastAsked, Admitted;
    Reaches(c, h, Entries(settings), huffman);
    SettingsParse(h, settings);
    SettingsHandled(c, h, settings, huffman);
    NotTracked(c);
    FirstBitIs(h);
    AckTaken(c, h, settings);
    if settings != [] {
      RefusalStands(c, 6, 0);
    } else {
      forall id | 0 <= id < |c.localSettings|
        ensures AckedSettings(c.localSettings, c.requestSettings)[id] ==
                LastAsked(c.localSettings, c.requestSettings, id)
      {
        AckedMeans(c.localSettings, c.requestSettings, id);
      }
    }
  }

  lemma AckTaken(c: Conn, h: FrameHeader, settings: seq<(nat, nat)>)
    requires Sized(c) && h.streamId == 0 && HasFlag(h.flags, ACK)
    ensures SettingsReceived(c, h, settings) ==
            if h.length != 0 then GoAwaySent(c, 6, 0)
            else Log(c.(localSettings := AckedSettings(c.localSettings, c.requestSettings),
                        settingsPending := false, requestSettings := []), OnSettings([], true))
  {
    hide ApplySettings, HasFlag, GoAwaySent, AckedSettings;
  }
}
