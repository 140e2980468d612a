/** TransportAdaptor (src/http2.cc) on a connection object: the loop behind Transport.Feed. */
module TransportObject {
  import opened Bytes
  import Coder = CompressorModel
  import opened ConnectionInvariant
  import opened ConnectionModel
  import opened ConnectionObject
  import opened ConnectionRuns
  import opened Frames
  import Settings
  import opened StringLiterals
  import opened Transport

  lemma VerifiedKeeps(c: Conn)
    requires Inv(c)
    ensures Inv(InitialSettingsSent(c.(finishHandshake := true)))
    ensures PrefaceVerified(c) == InitialSettingsSent(c.(finishHandshake := true))
  {
    HandshakeIsQuiet(c);
    InitialSettingsKeep(c.(finishHandshake := true));
  }

  class TransportAdaptor {
    const impl: Connection

    constructor (clientSide: bool, hash: Coder.Hash)
      ensures impl.Valid() && impl.Value() == Init(clientSide, hash)
      ensures fresh(impl) && fresh(impl.dynamicTable) && fresh(impl.sendRecord) && impl.parts == {}
    {
      impl := new Connection(clientSide, hash);
    }

    /** ReceivedData: how many octets were consumed, or -1. */
    method ReceivedData(buf: bytes, huffman: Huffman) returns (consumed: int)
      requires impl.Valid() && Inv(impl.Value())
      modifies impl, impl.dynamicTable, impl.sendRecord, impl.parts
      ensures impl.Valid() && fresh(impl.parts - old(impl.parts)) && Inv(impl.Value())
      ensures var fed := Feed(old(impl.Value()), buf, huffman);
              impl.Value() == fed.conn && consumed == if fed.ok then fed.consumed else -1
    {
      hide Inv, FeedFrames, GoAwaySent, InitialSettingsSent, Ascii, Connection.Valid, Connection.Value;
      var at := 0;
      impl.HandshakeSays();
      if !impl.finishHandshake {
        if |buf| < PREFACE_SIZE {
          return 0;
        }
        if buf[..PREFACE_SIZE] != Preface() {
          GoAwayKeeps(impl.Value(), PROTOCOL_ERROR, 0);
          impl.SendGoAway(PROTOCOL_ERROR, 0);
          return -1;
        }
        VerifiedKeeps(impl.Value());
        impl.VerifyPrefaceDone();
        impl.SendInitialSettings();
        at := PREFACE_SIZE;
      }
      consumed := FrameLoop(buf[at..], huffman);
      if consumed >= 0 {
        consumed := at + consumed;
      }
    }

    /** The frame loop of ReceivedData. */
    method FrameLoop(buf: bytes, huffman: Huffman) returns (consumed: int)
      requires impl.Valid() && Inv(impl.Value())
      modifies impl, impl.dynamicTable, impl.sendRecord, impl.parts
      ensures impl.Valid() && fresh(impl.parts - old(impl.parts)) && Inv(impl.Value())
      ensures var fed := FeedFrames(old(impl.Value()), buf, huffman);
              impl.Value() == fed.conn && consumed == if fed.ok then fed.consumed else -1
    {
      hide Inv, FeedFrames, GoAwaySent, PackageProcess, UnpackHeader, Connection.Valid, Connection.Value;
      var at: nat := 0;
      ghost var whole := FeedFrames(impl.Value(), buf, huffman);
      assert buf[0..] == buf;
      while at + HEADER_SIZE <= |buf|
        invariant at <= |buf| && impl.Valid() && fresh(impl.parts - old(impl.parts)) && Inv(impl.Value())
        invariant Further(at, FeedFrames(impl.Value(), buf[at..], huffman)) == whole
        decreases |buf| - at
      {
        ghost var rest := buf[at..];
        var h := UnpackHeader(buf[at..]);
        impl.FieldsSay();
        if h.length > impl.localSettings[Settings.MAX_FRAME_SIZE] {
          NoFrame(impl.Value(), rest, huffman);
          GoAwayKeeps(impl.Value(), FRAME_SIZE_ERROR, 0);
          impl.SendGoAway(FRAME_SIZE_ERROR, 0);
          return -1;
        }
        var frameTotal := h.length + HEADER_SIZE;
        if frameTotal > |buf| - at {
          break;
        }
        OneFrame(impl.Value(), rest, huffman);
        assert rest[..frameTotal] == buf[at..at + frameTotal] && rest[frameTotal..] == buf[at + frameTotal..];
        var ok := impl.PackageProcess(buf[at..at + frameTotal], huffman);
        if !ok {
          return -1;
        }
        at := at + frameTotal;
      }
      NoFrame(impl.Value(), buf[at..], huffman);
      return at;
    }
  }
}
