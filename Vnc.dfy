/** The VNC session manager (`VNCManager`): connection state, the cached
    frame, and the input operations, with the transport reduced to the log of
    events it was asked to send. */
module Vnc {
  import opened Errors
  import Text

  const GifPrefix: string := "data:image/gif;base64,"
  /** The transparent one-pixel GIF shown whenever no real frame is available. */
  const Placeholder: string := GifPrefix + "R0lGODlhAQABAAD/ACwAAAAAAQABAAACADs="
  /** The prefix of a captured frame's data URL. */
  const PngPrefix: string := "data:image/png;base64,"
  const NotConnected: string := "Not connected to VNC server."
  const AlreadyConnected: string := "Already connected. Disconnect first."

  /** Transport button indices: 0 = left, 1 = middle, 2 = right. */
  const TransportLeft: int := 0
  const TransportMiddle: int := 1
  const TransportRight: int := 2

  /** What the transport is asked to do: move the pointer, click a transport
      button, press keys together, write text, flush. */
  datatype Event =
    | Move(x: int, y: int)
    | ButtonClick(button: int)
    | Press(keys: seq<string>)
    | Write(text: string)
    | Drain

  /** The periodic screenshot updater task, if one was started. */
  datatype UpdaterTask = NoTask | Running | Cancelled

  /** `button_map.get(button, 0)` with `button_map = {1: 0, 2: 1, 3: 2}`:
      the caller's 1 = left, 2 = middle, 3 = right become the transport's
      0, 1, 2; any other number becomes the left button. */
  function TransportButton(button: int): (b: int)
    ensures TransportLeft <= b <= TransportRight
    ensures 1 <= button <= 3 ==> b == button - 1
    ensures !(1 <= button <= 3) ==> b == TransportLeft
  {
    if button == 1 then 0 else if button == 2 then 1 else if button == 3 then 2 else 0
  }

  /** `"{host}:{port}"`. */
  function Address(host: string, port: int): string
  {
    host + ":" + Text.IntToDecimal(port)
  }

  /** The frame `capture_screen_base64` returns: the placeholder when not
      connected or when the capture failed, otherwise the PNG data URL of the
      captured payload. */
  function Frame(connected: bool, capture: Option<string>): (f: string)
    ensures |f| > 0
    ensures f == Placeholder <==> !connected || capture.None?
  {
    if !connected then Placeholder
    else match capture
      case None => Placeholder
      case Some(payload) =>
        assert (PngPrefix + payload)[11] == 'p' && Placeholder[11] == 'g';
        PngPrefix + payload
  }

  class VNCManager {
    /** `client is not None` */
    var hasClient: bool
    var isConnected: bool
    var host: Option<string>
    var port: Option<int>
    var lastScreenshot: string
    /** `_stop_event.is_set()` */
    var stopRequested: bool
    var updateTask: UpdaterTask
    /** `_exit_stack is not None` */
    var hasExitStack: bool
    /** Every event handed to the transport, oldest first. */
    var sent: seq<Event>

    /** The states the manager's methods keep it in: a client exactly while
        connected, an address exactly while connected, a running updater only
        while connected, and the placeholder frame whenever disconnected. */
    predicate Valid()
      reads this
    {
      && hasClient == isConnected
      && hasExitStack == isConnected
      && (host.Some? <==> isConnected)
      && (port.Some? <==> isConnected)
      && (updateTask == Running ==> isConnected && !stopRequested)
      && (!isConnected ==> lastScreenshot == Placeholder)
    }

    constructor ()
      ensures Valid()
      ensures !isConnected && !hasClient && host == None && port == None
      ensures lastScreenshot == Placeholder
      ensures updateTask == NoTask && !stopRequested && !hasExitStack && sent == []
    {
      hasClient := false;
      isConnected := false;
      host := None;
      port := None;
      lastScreenshot := Placeholder;
      stopRequested := false;
      updateTask := NoTask;
      hasExitStack := false;
      sent := [];
    }

    /** `connect(host, port)`. `failure` is the error the transport's
        handshake raises, if it fails. */
    method Connect(h: string, p: int, failure: Option<string>) returns (r: Result<bool>)
      requires Valid()
      modifies this
      ensures Valid()
      ensures old(isConnected) ==> r == Err(ConnectionError(AlreadyConnected))
      ensures old(isConnected) ==> unchanged(this)
      ensures !old(isConnected) && failure.None? ==>
        && r == Ok(true)
        && isConnected && hasClient && hasExitStack
        && host == Some(h) && port == Some(p)
        && !stopRequested && updateTask == Running
        && lastScreenshot == old(lastScreenshot) && sent == old(sent)
      ensures !old(isConnected) && failure.Some? ==>
        && r == Err(ConnectionError("Failed to connect to " + Address(h, p) + ": " + failure.value))
        && !isConnected && !hasClient && !hasExitStack
        && host == old(host) && port == old(port)
        && stopRequested == old(stopRequested) && updateTask == old(updateTask)
        && lastScreenshot == old(lastScreenshot) && sent == old(sent)
    {
      if isConnected {
        return Err(ConnectionError(AlreadyConnected));
      }
      hasExitStack := true;
      match failure {
        case Some(e) =>
          hasExitStack := false;
          hasClient := false;
          isConnected := false;
          r := Err(ConnectionError("Failed to connect to " + Address(h, p) + ": " + e));
        case None =>
          hasClient := true;
          isConnected := true;
          host := Some(h);
          port := Some(p);
          stopRequested := false;
          updateTask := Running;
          r := Ok(true);
      }
    }

    /** `disconnect()`: a no-op returning false when not connected; otherwise
        stops the updater, and resets the session whatever the cleanup
        raised. */
    method Disconnect() returns (r: bool)
      requires Valid()
      modifies this
      ensures Valid()
      ensures r == old(isConnected)
      ensures !old(isConnected) ==> unchanged(this)
      ensures old(isConnected) ==>
        && !isConnected && !hasClient && !hasExitStack
        && host == None && port == None && lastScreenshot == Placeholder
        && stopRequested == (old(stopRequested) || old(updateTask) != NoTask)
        && updateTask == (if old(updateTask) == NoTask then NoTask else Cancelled)
        && sent == old(sent)
    {
      if !isConnected {
        return false;
      }
      if updateTask != NoTask {
        stopRequested := true;
        updateTask := Cancelled;
      }
      hasExitStack := false;
      hasClient := false;
      isConnected := false;
      host := None;
      port := None;
      lastScreenshot := Placeholder;
      r := true;
    }

    /** `capture_screen_base64()`. `capture` is the encoded payload of the
        frame the transport returns, or None when capturing raised. */
    method CaptureScreenBase64(capture: Option<string>) returns (frame: string)
      requires Valid()
      ensures frame == Frame(isConnected, capture)
    {
      if !isConnected {
        return Placeholder;
      }
      match capture {
        case None => frame := Placeholder;
        case Some(payload) => frame := PngPrefix + payload;
      }
    }

    /** One pass of the updater's `while not stopped` body; `ran` says whether
        the loop condition admitted it. */
    method UpdaterStep(capture: Option<string>) returns (ran: bool)
      requires Valid()
      modifies this`lastScreenshot
      ensures Valid()
      ensures ran == !old(stopRequested)
      ensures lastScreenshot ==
        if !ran then old(lastScreenshot)
        else Frame(isConnected && hasClient, capture)
    {
      ran := !stopRequested;
      if !ran {
        return;
      }
      if isConnected && hasClient {
        var s := CaptureScreenBase64(capture);
        if |s| > 0 {
          lastScreenshot := s;
        }
      } else {
        lastScreenshot := Placeholder;
      }
    }

    /** `mouse_move(x, y)`. */
    method MouseMove(x: int, y: int) returns (r: Outcome)
      modifies this`sent
      ensures !isConnected || !hasClient ==> r == Failed(ConnectionError(NotConnected)) && sent == old(sent)
      ensures isConnected && hasClient ==> r == Done && sent == old(sent) + [Move(x, y), Drain]
    {
      if !isConnected || !hasClient {
        return Failed(ConnectionError(NotConnected));
      }
      sent := sent + [Move(x, y)];
      sent := sent + [Drain];
      r := Done;
    }

    /** `click(x, y, button)`: move, click the mapped button, flush. */
    method Click(x: int, y: int, button: int) returns (r: Outcome)
      modifies this`sent
      ensures !isConnected || !hasClient ==> r == Failed(ConnectionError(NotConnected)) && sent == old(sent)
      ensures isConnected && hasClient ==>
        r == Done && sent == old(sent) + [Move(x, y), ButtonClick(TransportButton(button)), Drain]
    {
      if !isConnected || !hasClient {
        return Failed(ConnectionError(NotConnected));
      }
      sent := sent + [Move(x, y)];
      var b := TransportButton(button);
      sent := sent + [ButtonClick(b)];
      sent := sent + [Drain];
      r := Done;
    }

    /** `press_keys(keys)`: one press of all the keys together, then flush. */
    method PressKeys(keys: seq<string>) returns (r: Outcome)
      modifies this`sent
      ensures !isConnected || !hasClient ==> r == Failed(ConnectionError(NotConnected)) && sent == old(sent)
      ensures isConnected && hasClient ==> r == Done && sent == old(sent) + [Press(keys), Drain]
    {
      if !isConnected || !hasClient {
        return Failed(ConnectionError(NotConnected));
      }
      sent := sent + [Press(keys)];
      sent := sent + [Drain];
      r := Done;
    }

    /** `type_string(text)`: one write of the text as given, then flush. */
    method TypeString(text: string) returns (r: Outcome)
      modifies this`sent
      ensures !isConnected || !hasClient ==> r == Failed(ConnectionError(NotConnected)) && sent == old(sent)
      ensures isConnected && hasClient ==> r == Done && sent == old(sent) + [Write(text), Drain]
    {
      if !isConnected || !hasClient {
        return Failed(ConnectionError(NotConnected));
      }
      sent := sent + [Write(text)];
      sent := sent + [Drain];
      r := Done;
    }
  }

  /** A session that connects and then disconnects is back in the state of a
      fresh manager, apart from the updater it started and stopped. */
  method ConnectThenDisconnect(m: VNCManager, h: string, p: int) returns (connected: Result<bool>, closed: bool)
    requires m.Valid() && !m.isConnected
    modifies m
    ensures m.Valid()
    ensures connected == Ok(true) && closed
    ensures !m.isConnected && !m.hasClient && m.host == None && m.port == None
    ensures m.lastScreenshot == Placeholder && m.sent == old(m.sent)
    ensures m.stopRequested && m.updateTask == Cancelled
  {
    connected := m.Connect(h, p, None);
    closed := m.Disconnect();
  }
}
