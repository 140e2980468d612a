/** http2_stream (src/http2/stream.cc) as the object the connection shares with the application. */
module StreamObject {
  import opened Bytes
  import Frames
  import opened Headers
  import opened SliceBuffer
  import opened StreamModel
  import opened StreamStates

  class Http2Stream {
    const id: nat
    var state: State
    var frameType: nat
    var frameFlags: nat
    var readClosed: bool
    var writeClosed: bool
    var lastError: nat
    var priority: Frames.Priority
    var headers: seq<Header>
    const dataCache: SliceBuffer

    ghost predicate Valid()
      reads this, dataCache
    {
      dataCache.Valid()
    }

    ghost function Value(): Stream
      requires Valid()
      reads this, dataCache
    {
      Stream(state, frameType, frameFlags, readClosed, writeClosed, lastError, priority, headers, dataCache.Contents())
    }

    constructor (streamId: nat)
      ensures Valid() && Value() == NewStream() && id == streamId && fresh(dataCache)
    {
      id := streamId;
      state, frameType, frameFlags := Idle, 0, 0;
      readClosed, writeClosed, lastError := false, false, 0;
      priority := Frames.Priority(0, false, 16);
      headers := [];
      dataCache := new SliceBuffer();
    }

    /** get_next_status, and the assignment unless it says kDoNotUse */
    method Transition(e: Event)
      modifies this`state
      ensures state == Apply(e, old(state))
    {
      match NextStatus(e, state) {
        case None =>
        case Some(next) => state := next;
      }
    }

    method SendPushPromise()
      requires Valid()
      modifies this
      ensures Valid() && Value() == Moved(old(Value()), Send(PushPromise))
    {
      Transition(Send(PushPromise));
    }

    method RecvPushPromise()
      requires Valid()
      modifies this
      ensures Valid() && Value() == Moved(old(Value()), Recv(PushPromise))
    {
      Transition(Recv(PushPromise));
    }

    method SendHeaders()
      requires Valid()
      modifies this
      ensures Valid() && Value() == Moved(old(Value()), Send(Message.Headers))
    {
      Transition(Send(Message.Headers));
    }

    method RecvHeaders(decoded: seq<Header>)
      requires Valid()
      modifies this
      ensures Valid() && Value() == HeadersReceived(old(Value()), decoded)
    {
      Transition(Recv(Message.Headers));
      headers := decoded;
    }

    method SendRstStream()
      requires Valid()
      modifies this
      ensures Valid() && Value() == Moved(old(Value()), Send(RstStream))
    {
      Transition(Send(RstStream));
    }

    method RecvRstStream(errorCode: nat)
      requires Valid()
      modifies this
      ensures Valid() && Value() == RstReceived(old(Value()), errorCode)
    {
      Transition(Recv(RstStream));
      lastError := errorCode;
    }

    method SendEndStream()
      requires Valid()
      modifies this
      ensures Valid() && Value() == EndSent(old(Value()))
    {
      Transition(Send(EndStream));
      MarkUnwritable();
    }

    method RecvEndStream()
      requires Valid()
      modifies this
      ensures Valid() && Value() == EndReceived(old(Value()))
    {
      Transition(Recv(EndStream));
      MarkUnreadable();
    }

    method MarkUnwritable()
      requires Valid()
      modifies this`writeClosed
      ensures Valid() && Value() == old(Value()).(writeClosed := true)
    {
      writeClosed := true;
    }

    method MarkUnreadable()
      requires Valid()
      modifies this`readClosed
      ensures Valid() && Value() == old(Value()).(readClosed := true)
    {
      readClosed := true;
    }

    method SaveFrameInfo(ftype: nat, flags: nat)
      requires Valid()
      modifies this
      ensures Valid() && Value() == FrameSeen(old(Value()), ftype, flags)
    {
      frameType := ftype;
      frameFlags := flags;
      if HasFlag(frameFlags, Frames.END_STREAM) {
        RecvEndStream();
      }
    }

    method SetPriorityInfo(info: Frames.Priority)
      requires Valid()
      modifies this
      ensures Valid() && Value() == old(Value()).(priority := info)
    {
      priority := info;
    }

    method AppendHeaders(decoded: seq<Header>)
      requires Valid()
      modifies this
      ensures Valid() && Value() == old(Value()).(headers := old(Value()).headers + decoded)
    {
      var i: nat := 0;
      assert decoded[..0] == [];
      while i < |decoded|
        invariant i <= |decoded| && Valid()
        invariant Value() == old(Value()).(headers := old(Value()).headers + decoded[..i])
      {
        headers := headers + [decoded[i]];
        assert decoded[..i + 1] == decoded[..i] + [decoded[i]];
        i := i + 1;
      }
      assert decoded[..i] == decoded;
    }

    method AppendData(s: bytes)
      requires Valid()
      modifies dataCache
      ensures Valid() && Value() == old(Value()).(data := old(Value()).data + s)
    {
      dataCache.AddSlice(s);
    }

    /** http2_stream::ReadData: what is handed to the application is gone from the stream. */
    method Read(buffer: array<byte>, size: nat) returns (copied: nat)
      requires Valid() && size <= buffer.Length
      modifies dataCache, buffer
      ensures Valid() && copied == Min(size, |old(Value()).data|)
      ensures buffer[..copied] == old(Value()).data[..copied]
      ensures Value() == old(Value()).(data := old(Value()).data[copied..])
    {
      copied := ReadData(dataCache, buffer, size);
    }
  }
}
