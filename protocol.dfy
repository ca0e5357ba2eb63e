/**
 * The ttyd WebSocket client: the `isShutdown`/`closed` state machine of a connection, the
 * tag-byte frames it writes and reads, and the deadlines of its ping watchdog.
 *
 * The channels, goroutines and the WebSocket library are abstract: a dial, a write or a
 * socket close is an outcome passed in (`None` for success), and an error sent on the
 * client's error channel is recorded in the sequence `errors`.
 */
module Protocol {
  import opened Text
  import opened Wrappers

  // ---------------------------------------------------------------------------------------
  // Frames

  /** Client messages. */
  const MsgInput: byte := '0' as int
  const MsgResizeTerminal: byte := '1' as int
  const MsgPause: byte := '2' as int
  const MsgResume: byte := '3' as int

  /** Server messages. */
  const MsgOutput: byte := '0' as int

  /** The frame `chanLoop` writes for keyboard input; empty input is never written. */
  function InputFrame(data: seq<byte>): (r: Option<seq<byte>>)
    ensures r.None? <==> data == []
  {
    if |data| == 0 then None else Some([MsgInput] + data)
  }

  /** A frame queued on `toWs` is written as is, unless it is empty. */
  function OutboundFrame(data: seq<byte>): (r: Option<seq<byte>>)
    ensures r.None? <==> data == []
    ensures r.Some? ==> r.value == data
  {
    if |data| == 0 then None else Some(data)
  }

  /** The JSON `ResizeTerminalDTO` marshals to. */
  function ResizeJson(cols: int, rows: int): string
  {
    ColumnsKey + ResizeFields(cols, rows) + "}"
  }

  function ResizeFields(cols: int, rows: int): string
  {
    IntToDecimal(cols) + [','] + (RowsKey + IntToDecimal(rows))
  }

  lemma ResizeJsonIsAscii(cols: int, rows: int)
    ensures IsAscii(ResizeJson(cols, rows))
  {
    DecimalIsPlain(cols);
    DecimalIsPlain(rows);
  }

  /** `ResizeTerminal`: the resize tag, then the JSON of the new size. */
  function ResizeFrame(cols: int, rows: int): (r: seq<byte>)
    ensures |r| > 1 && r[0] == MsgResizeTerminal
  {
    ResizeJsonIsAscii(cols, rows);
    [MsgResizeTerminal] + AsciiBytes(ResizeJson(cols, rows))
  }

  const PauseFrame: seq<byte> := [MsgPause]
  const ResumeFrame: seq<byte> := [MsgResume]

  const ColumnsKey: string := "{\"columns\":"
  const RowsKey: string := "\"rows\":"

  /** A reading of the resize JSON, the way a server takes it apart. */
  function ParseResizeJson(json: string): Option<(int, int)>
  {
    if !HasPrefix(json, ColumnsKey) || |json| < |ColumnsKey| + 1 || json[|json| - 1] != '}' then None
    else ParseResizeFields(json[|ColumnsKey|..|json| - 1])
  }

  /** The two numbers between the braces, after the columns key. */
  function ParseResizeFields(fields: string): Option<(int, int)>
  {
    match Cut(fields, ',')
    case None => None
    case Some((cols, rest)) =>
      if !HasPrefix(rest, RowsKey) then None
      else
        match (ParseDecimal(cols), ParseDecimal(rest[|RowsKey|..]))
        case (Some(c), Some(r)) => Some((c, r))
        case _ => None
  }

  /** What a client frame asks the server for. */
  datatype ClientMessage = Input(data: seq<byte>) | Resize(cols: int, rows: int) | Pause | Resume | Malformed

  /** The server's reading of a client frame: the reference the frames are checked against. */
  function DecodeClientFrame(frame: seq<byte>): ClientMessage
  {
    if frame == [] then Malformed
    else if frame[0] == MsgInput then Input(frame[1..])
    else if frame[0] == MsgResizeTerminal then
      match ParseResizeJson(BytesText(frame[1..]))
      case Some((c, r)) => Resize(c, r)
      case None => Malformed
    else if frame == PauseFrame then Pause
    else if frame == ResumeFrame then Resume
    else Malformed
  }

  /** Input frames carry the keystrokes unchanged. */
  lemma InputFrameRoundTrip(data: seq<byte>)
    requires data != []
    ensures InputFrame(data).Some? && DecodeClientFrame(InputFrame(data).value) == Input(data)
  {
    assert ([MsgInput] + data)[1..] == data;
  }

  lemma ResizeFieldsRoundTrip(cols: int, rows: int)
    ensures ParseResizeFields(ResizeFields(cols, rows)) == Some((cols, rows))
  {
    var c, r := IntToDecimal(cols), IntToDecimal(rows);
    DecimalIsPlain(cols);
    assert ',' !in c;
    CutAtFirst(c, ',', RowsKey + r);
    assert (RowsKey + r)[..|RowsKey|] == RowsKey;
    assert (RowsKey + r)[|RowsKey|..] == r;
    DecimalRoundTrip(cols);
    DecimalRoundTrip(rows);
  }

  lemma ResizeJsonRoundTrip(cols: int, rows: int)
    ensures ParseResizeJson(ResizeJson(cols, rows)) == Some((cols, rows))
  {
    var fields := ResizeFields(cols, rows);
    var json := ResizeJson(cols, rows);
    assert json[..|ColumnsKey|] == ColumnsKey;
    assert json[|ColumnsKey|..|json| - 1] == fields;
    ResizeFieldsRoundTrip(cols, rows);
  }

  /** Resize frames carry the size unchanged. */
  lemma ResizeFrameRoundTrip(cols: int, rows: int)
    ensures DecodeClientFrame(ResizeFrame(cols, rows)) == Resize(cols, rows)
  {
    var json := ResizeJson(cols, rows);
    ResizeJsonIsAscii(cols, rows);
    assert ResizeFrame(cols, rows)[1..] == AsciiBytes(json);
    AsciiRoundTrip(json);
    ResizeJsonRoundTrip(cols, rows);
  }

  /** The four kinds of client frame are told apart by their tag. */
  lemma FlowFramesDecode()
    ensures DecodeClientFrame(PauseFrame) == Pause
    ensures DecodeClientFrame(ResumeFrame) == Resume
  {
  }

  /** What `chanLoop` does with a frame from the server. */
  datatype Inbound = Ignored | Output(data: seq<byte>)

  function HandleInbound(data: seq<byte>): (r: Inbound)
    ensures r.Output? <==> |data| > 0 && data[0] == MsgOutput
    ensures r.Output? ==> [MsgOutput] + r.data == data
  {
    if |data| <= 0 then Ignored
    else if data[0] == MsgOutput then Output(data[1..])
    else Ignored
  }

  /** gorilla/websocket's message types. */
  const TextMessage: int := 1
  const BinaryMessage: int := 2

  /** What `ReadMessage` gives `readLoop`. */
  datatype ReadResult = ReadFailed(err: Error) | Message(msgType: int, data: seq<byte>)

  // ---------------------------------------------------------------------------------------
  // Connection state

  datatype Error =
    | RedialOnClosed   // "not allowed to redial on closed client"
    | NotShutDown      // "can only soft-close in order to redial if the client is already shut down"
    | NotResponding    // "server is not responding, closing"
    | Transport(code: nat)

  /** The flags of a `Client`, whether its `shutdown` channel and its other channels are
   *  still open, and the errors it has sent on its error channel. */
  datatype Conn = Conn(isShutdown: bool, closed: bool, shutdownOpen: bool, channelsOpen: bool, errors: seq<Error>)

  /** What the code keeps true: a running client has an open `shutdown` channel to close, a
   *  closed client is shut down, and the other channels are open exactly until Close. */
  predicate Valid(c: Conn) {
    (!c.isShutdown ==> c.shutdownOpen) && (c.closed ==> c.isShutdown) && (c.closed <==> !c.channelsOpen)
  }

  /** The client `DialAndAuth` builds before its first dial. */
  const Fresh: Conn := Conn(true, false, false, true, [])

  /** `Redial`, given the outcome of dialing and sending the auth token. */
  function RedialStep(c: Conn, dial: Option<Error>): (Conn, Option<Error>)
  {
    if c.closed then (c, Some(RedialOnClosed))
    else if dial.Some? then (c, dial)
    else (c.(isShutdown := false, shutdownOpen := true), None)
  }

  /** `doShutdown`: only a running client is shut down, and only then is an error sent. */
  function ShutdownStep(c: Conn, err: Option<Error>): Conn
  {
    if !c.isShutdown then
      c.(isShutdown := true, shutdownOpen := false,
         errors := c.errors + if err.Some? then [err.value] else [])
    else c
  }

  /** `SoftClose`, given the outcome of closing the socket. */
  function SoftCloseResult(c: Conn, sockClose: Option<Error>): Option<Error>
  {
    if !c.isShutdown then Some(NotShutDown) else sockClose
  }

  /** `Close`, given the outcome of closing the socket. */
  function CloseStep(c: Conn, sockClose: Option<Error>): (Conn, Option<Error>)
  {
    var c1 := ShutdownStep(c, None);
    if c1.closed then (c1, None)
    else
      var c2 := c1.(closed := true, channelsOpen := false);
      (c2, SoftCloseResult(c2, sockClose))
  }

  /** A fresh client is shut down and not closed; a successful dial sets it running. */
  lemma FreshThenRedial()
    ensures Valid(Fresh) && Fresh.isShutdown && !Fresh.closed
    ensures RedialStep(Fresh, None) == (Fresh.(isShutdown := false, shutdownOpen := true), None)
    ensures Valid(RedialStep(Fresh, None).0)
  {
  }

  /** Redial refuses a closed client and changes nothing; a failed dial changes nothing; a
   *  successful one sets the client running. */
  lemma RedialOutcomes(c: Conn, dial: Option<Error>)
    ensures c.closed ==> RedialStep(c, dial) == (c, Some(RedialOnClosed))
    ensures !c.closed && dial.Some? ==> RedialStep(c, dial) == (c, dial)
    ensures RedialStep(c, dial).1.None? <==> !c.closed && dial.None?
    ensures RedialStep(c, dial).1.None? ==> !RedialStep(c, dial).0.isShutdown
  {
  }

  /** `doShutdown` acts once: it leaves the client shut down, sends an error only when it
   *  was running and one was given, and a second call changes nothing. */
  lemma ShutdownOnce(c: Conn, e1: Option<Error>, e2: Option<Error>)
    ensures ShutdownStep(c, e1).isShutdown
    ensures ShutdownStep(ShutdownStep(c, e1), e2) == ShutdownStep(c, e1)
    ensures |ShutdownStep(c, e1).errors| == |c.errors| + (if !c.isShutdown && e1.Some? then 1 else 0)
    ensures c.isShutdown ==> ShutdownStep(c, e1) == c
  {
  }

  /** `SoftClose` fails unless the client is shut down. */
  lemma SoftCloseNeedsShutdown(c: Conn, sockClose: Option<Error>)
    ensures !c.isShutdown ==> SoftCloseResult(c, sockClose) == Some(NotShutDown)
    ensures c.isShutdown ==> SoftCloseResult(c, sockClose) == sockClose
  {
  }

  /** `Close` leaves the client shut down and closed, and a second call returns no error and
   *  changes nothing. */
  lemma CloseIdempotent(c: Conn, e1: Option<Error>, e2: Option<Error>)
    ensures CloseStep(c, e1).0.isShutdown && CloseStep(c, e1).0.closed
    ensures CloseStep(CloseStep(c, e1).0, e2) == (CloseStep(c, e1).0, None)
    ensures !c.closed ==> CloseStep(c, e1).1 == e1
  {
  }

  /** Every transition keeps Valid, so `close(c.shutdown)` in doShutdown and the channel
   *  closes in Close never hit a channel that is already closed. */
  lemma TransitionsKeepValid(c: Conn, o: Option<Error>)
    requires Valid(c)
    ensures Valid(RedialStep(c, o).0)
    ensures Valid(ShutdownStep(c, o))
    ensures Valid(CloseStep(c, o).0)
    ensures !c.isShutdown ==> c.shutdownOpen
    ensures !c.closed ==> c.channelsOpen
  {
  }

  class Client {
    var isShutdown: bool
    var closed: bool
    var shutdownOpen: bool
    var channelsOpen: bool
    var errors: seq<Error>

    function State(): Conn
      reads this
    {
      Conn(isShutdown, closed, shutdownOpen, channelsOpen, errors)
    }

    /** The client as `DialAndAuth` allocates it. */
    constructor()
      ensures State() == Fresh
    {
      isShutdown := true;
      closed := false;
      shutdownOpen := false;
      channelsOpen := true;
      errors := [];
    }

    /** `DialAndAuth`: a fresh client, dialed once; no client comes back when that fails. */
    static method DialAndAuth(dial: Option<Error>) returns (client: Client?, err: Option<Error>)
      ensures err == dial
      ensures err.None? <==> client != null
      ensures client != null ==> fresh(client) && client.State() == RedialStep(Fresh, None).0
    {
      var c := new Client();
      err := c.Redial(dial);
      if err.Some? {
        return null, err;
      }
      client := c;
    }

    method Redial(dial: Option<Error>) returns (err: Option<Error>)
      modifies this
      ensures (State(), err) == RedialStep(old(State()), dial)
    {
      if closed {
        return Some(RedialOnClosed);
      }
      if dial.Some? {
        return dial;
      }
      shutdownOpen := true;
      isShutdown := false;
      return None;
    }

    method SoftClose(sockClose: Option<Error>) returns (err: Option<Error>)
      ensures err == SoftCloseResult(State(), sockClose)
    {
      if !isShutdown {
        return Some(NotShutDown);
      }
      return sockClose;
    }

    method Close(sockClose: Option<Error>) returns (err: Option<Error>)
      modifies this
      ensures (State(), err) == CloseStep(old(State()), sockClose)
    {
      DoShutdown(None);
      if closed {
        return None;
      }
      closed := true;
      channelsOpen := false;
      err := SoftClose(sockClose);
    }

    method DoShutdown(err: Option<Error>)
      modifies this
      ensures State() == ShutdownStep(old(State()), err)
    {
      if !isShutdown {
        shutdownOpen := false;
        isShutdown := true;
        if err.Some? {
          errors := errors + [err.value];
        }
      }
    }

    /** One pass of `readLoop`: a read error shuts the client down; binary and text messages
     *  are passed on, any other kind is skipped. */
    method ReadStep(r: ReadResult) returns (passed: Option<seq<byte>>)
      modifies this
      ensures r.ReadFailed? ==> passed.None? && State() == ShutdownStep(old(State()), Some(r.err))
      ensures r.Message? ==> State() == old(State())
      ensures r.Message? ==>
        (passed.Some? <==> r.msgType == BinaryMessage || r.msgType == TextMessage) &&
        (passed.Some? ==> passed.value == r.data)
    {
      match r
      case ReadFailed(e) =>
        DoShutdown(Some(e));
        return None;
      case Message(msgType, data) =>
        if msgType != BinaryMessage && msgType != TextMessage {
          return None;
        }
        return Some(data);
    }

    /** The write cases of `chanLoop`: nothing is written for an empty frame; a failed write
     *  shuts the client down with the write's error. */
    method WriteStep(frame: Option<seq<byte>>, write: Option<Error>) returns (written: Option<seq<byte>>)
      modifies this
      ensures written == frame
      ensures State() == if frame.Some? && write.Some? then ShutdownStep(old(State()), write) else old(State())
    {
      if frame.None? {
        return None;
      }
      written := frame;
      if write.Some? {
        DoShutdown(write);
      }
    }
  }

  // ---------------------------------------------------------------------------------------
  // Watchdog

  /** The watchdog runs only for a positive interval. */
  predicate WatchdogStarts(interval: int) {
    interval > 0
  }

  /** The watchdog's deadlines, in seconds. */
  class Watchdog {
    const interval: int
    var nextPing: int
    var nextTimeout: int

    /** The first timeout is one ping interval later than the later ones. */
    constructor(interval: int, now: int)
      ensures this.interval == interval
      ensures nextPing == now + interval
      ensures nextTimeout == now + (interval + 3) + interval
      ensures nextTimeout - nextPing == interval + 3
    {
      this.interval := interval;
      nextPing := now + interval;
      nextTimeout := now + (interval + 3) + interval;
    }

    /** A ping is due: on a failed write the client is shut down, otherwise the next ping is
     *  scheduled one interval from now. */
    method PingDue(now: int, client: Client, write: Option<Error>) returns (stop: bool)
      modifies this, client
      ensures stop <==> write.Some?
      ensures stop ==> client.State() == ShutdownStep(old(client.State()), write) && nextPing == old(nextPing)
      ensures !stop ==> client.State() == old(client.State()) && nextPing == now + interval
      ensures nextTimeout == old(nextTimeout)
    {
      if write.Some? {
        client.DoShutdown(write);
        return true;
      }
      nextPing := now + interval;
      return false;
    }

    /** A pong arrived: the timeout moves to three seconds past one interval from now. */
    method Pong(now: int)
      modifies this
      ensures nextTimeout == now + (interval + 3) && nextPing == old(nextPing)
    {
      nextTimeout := now + (interval + 3);
    }

    /** The timeout passed: the client is shut down with "not responding". */
    method TimedOut(client: Client)
      modifies client
      ensures client.State() == ShutdownStep(old(client.State()), Some(NotResponding))
    {
      client.DoShutdown(Some(NotResponding));
    }
  }
}
