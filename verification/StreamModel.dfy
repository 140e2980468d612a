/** One stream as src/http2/stream.cc keeps it, as a value; see StreamStates for the state machine. */
module StreamModel {
  import opened Bytes
  import Frames
  import opened Headers
  import opened StreamStates

  datatype Stream = Stream(
    state: State,
    frameType: nat,
    frameFlags: nat,
    readClosed: bool,
    writeClosed: bool,
    lastError: nat,
    priority: Frames.Priority,
    headers: seq<Header>,
    data: bytes)

  function NewStream(): Stream
  {
    Stream(Idle, 0, 0, false, false, 0, Frames.Priority(0, false, 16), [], [])
  }

  function Moved(s: Stream, e: Event): Stream
  {
    s.(state := Apply(e, s.state))
  }

  function HeadersReceived(s: Stream, headers: seq<Header>): Stream
  {
    Moved(s, Recv(Message.Headers)).(headers := headers)
  }

  function RstReceived(s: Stream, errorCode: nat): Stream
  {
    Moved(s, Recv(RstStream)).(lastError := errorCode)
  }

  function EndSent(s: Stream): Stream
  {
    Moved(s, Send(EndStream)).(writeClosed := true)
  }

  function EndReceived(s: Stream): Stream
  {
    Moved(s, Recv(EndStream)).(readClosed := true)
  }

  /** save_frame_info: whatever the frame type, the END_STREAM bit ends the stream. */
  function FrameSeen(s: Stream, frameType: nat, flags: nat): Stream
  {
    var t := s.(frameType := frameType, frameFlags := flags);
    if HasFlag(flags, Frames.END_STREAM) then EndReceived(t) else t
  }
}
