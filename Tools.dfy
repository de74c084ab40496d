/** The agent's input tools (`tools.py`): each checks the session, resolves
    where to act, and hands a fixed sequence of calls to the manager. The
    localiser's answer is an input (`bbox`), since it comes from a model. */
module Tools {
  import opened Errors
  import opened Text
  import opened Grid
  import opened Vnc
  import opened Grounding

  /** The error every tool raises when the session is not connected. */
  function NotConnectedFor(operation: string): Error
  {
    ConnectionError("VNC manager not available or not connected for " + operation + ".")
  }

  /** The events of one `click(x, y, button)` on a connected manager. */
  function ClickEvents(p: (int, int), button: int): seq<Event>
  {
    [Move(p.0, p.1), ButtonClick(TransportButton(button)), Drain]
  }

  /** `click_element(element)`: one click, with the manager's default button
      0, at the midpoint of the element's box. */
  method ClickElement(m: VNCManager, element: string, bbox: Result<Rect>) returns (r: Result<string>)
    modifies m`sent
    ensures !m.isConnected ==> r == Err(NotConnectedFor("click")) && m.sent == old(m.sent)
    ensures m.isConnected && bbox.Err? ==> r == Err(bbox.error) && m.sent == old(m.sent)
    ensures m.isConnected && bbox.Ok? && !m.hasClient ==>
      r == Err(ConnectionError(NotConnected)) && m.sent == old(m.sent)
    ensures m.isConnected && bbox.Ok? && m.hasClient ==>
      && r == Ok("clicked on " + element)
      && m.sent == old(m.sent) + ClickEvents(Midpoint(bbox.value), 0)
      && m.sent[|old(m.sent)| + 1] == ButtonClick(TransportLeft)
  {
    if !m.isConnected {
      return Err(NotConnectedFor("click"));
    }
    var position := ElementPosition(bbox);
    if position.Err? {
      return Err(position.error);
    }
    var (x, y) := position.value;
    var done := m.Click(x, y, 0);
    if done.Failed? {
      return Err(done.error);
    }
    r := Ok("clicked on " + element);
  }

  /** `double_click_element(element)`: two clicks at the same point; the
      second is not sent when the first fails. */
  method DoubleClickElement(m: VNCManager, element: string, bbox: Result<Rect>) returns (r: Result<string>)
    modifies m`sent
    ensures !m.isConnected ==> r == Err(NotConnectedFor("double_click")) && m.sent == old(m.sent)
    ensures m.isConnected && bbox.Err? ==> r == Err(bbox.error) && m.sent == old(m.sent)
    ensures m.isConnected && bbox.Ok? && !m.hasClient ==>
      r == Err(ConnectionError(NotConnected)) && m.sent == old(m.sent)
    ensures m.isConnected && bbox.Ok? && m.hasClient ==>
      && r == Ok("double-clicked on " + element)
      && m.sent == old(m.sent) + ClickEvents(Midpoint(bbox.value), 0) + ClickEvents(Midpoint(bbox.value), 0)
  {
    if !m.isConnected {
      return Err(NotConnectedFor("double_click"));
    }
    var position := ElementPosition(bbox);
    if position.Err? {
      return Err(position.error);
    }
    var (x, y) := position.value;
    var first := m.Click(x, y, 0);
    if first.Failed? {
      return Err(first.error);
    }
    // The second click meets the session the first one succeeded on.
    var second := m.Click(x, y, 0);
    r := Ok("double-clicked on " + element);
  }

  /** `right_click_element(element)` as written: it passes `button=2`, which
      the manager's table maps to the transport's middle button. */
  method RightClickElement(m: VNCManager, element: string, bbox: Result<Rect>) returns (r: Result<string>)
    modifies m`sent
    ensures !m.isConnected ==> r == Err(NotConnectedFor("right_click")) && m.sent == old(m.sent)
    ensures m.isConnected && bbox.Err? ==> r == Err(bbox.error) && m.sent == old(m.sent)
    ensures m.isConnected && bbox.Ok? && !m.hasClient ==>
      r == Err(ConnectionError(NotConnected)) && m.sent == old(m.sent)
    ensures m.isConnected && bbox.Ok? && m.hasClient ==>
      && r == Ok("right-clicked on " + element)
      && m.sent == old(m.sent) + ClickEvents(Midpoint(bbox.value), 2)
      && m.sent[|old(m.sent)| + 1] == ButtonClick(TransportMiddle)
  {
    r := RightClickWith(m, element, bbox, 2);
  }

  /** The right click the tool's comment and the manager's table intend:
      `button=3`, the transport's right button. */
  method RightClickElementIntended(m: VNCManager, element: string, bbox: Result<Rect>) returns (r: Result<string>)
    modifies m`sent
    ensures !m.isConnected ==> r == Err(NotConnectedFor("right_click")) && m.sent == old(m.sent)
    ensures m.isConnected && bbox.Err? ==> r == Err(bbox.error) && m.sent == old(m.sent)
    ensures m.isConnected && bbox.Ok? && !m.hasClient ==>
      r == Err(ConnectionError(NotConnected)) && m.sent == old(m.sent)
    ensures m.isConnected && bbox.Ok? && m.hasClient ==>
      && r == Ok("right-clicked on " + element)
      && m.sent == old(m.sent) + ClickEvents(Midpoint(bbox.value), 3)
      && m.sent[|old(m.sent)| + 1] == ButtonClick(TransportRight)
  {
    r := RightClickWith(m, element, bbox, 3);
  }

  method RightClickWith(m: VNCManager, element: string, bbox: Result<Rect>, button: int) returns (r: Result<string>)
    modifies m`sent
    ensures !m.isConnected ==> r == Err(NotConnectedFor("right_click")) && m.sent == old(m.sent)
    ensures m.isConnected && bbox.Err? ==> r == Err(bbox.error) && m.sent == old(m.sent)
    ensures m.isConnected && bbox.Ok? && !m.hasClient ==>
      r == Err(ConnectionError(NotConnected)) && m.sent == old(m.sent)
    ensures m.isConnected && bbox.Ok? && m.hasClient ==>
      r == Ok("right-clicked on " + element) && m.sent == old(m.sent) + ClickEvents(Midpoint(bbox.value), button)
  {
    if !m.isConnected {
      return Err(NotConnectedFor("right_click"));
    }
    var position := ElementPosition(bbox);
    if position.Err? {
      return Err(position.error);
    }
    var (x, y) := position.value;
    var done := m.Click(x, y, button);
    if done.Failed? {
      return Err(done.error);
    }
    r := Ok("right-clicked on " + element);
  }

  /** The button the right-click tool sends is the middle one, and the
      button its table reserves for a right click is 3. */
  lemma RightClickButton()
    ensures TransportButton(2) == TransportMiddle && TransportButton(2) != TransportRight
    ensures TransportButton(3) == TransportRight
  {
  }

  /** `type_text(text)`: the text forwarded unchanged in one write. */
  method TypeText(m: VNCManager, text: string) returns (r: Result<string>)
    modifies m`sent
    ensures !m.isConnected ==> r == Err(NotConnectedFor("type_text")) && m.sent == old(m.sent)
    ensures m.isConnected && !m.hasClient ==> r == Err(ConnectionError(NotConnected)) && m.sent == old(m.sent)
    ensures m.isConnected && m.hasClient ==>
      r == Ok("typed text " + text) && m.sent == old(m.sent) + [Write(text), Drain]
  {
    if !m.isConnected {
      return Err(NotConnectedFor("type_text"));
    }
    var done := m.TypeString(text);
    if done.Failed? {
      return Err(done.error);
    }
    r := Ok("typed text " + text);
  }

  /** `press_keys(keys)`: the key list forwarded unchanged in one press, and
      the keys named back joined by ", ". */
  method PressKeys(m: VNCManager, keys: seq<string>) returns (r: Result<string>)
    modifies m`sent
    ensures !m.isConnected ==> r == Err(NotConnectedFor("press_keys")) && m.sent == old(m.sent)
    ensures m.isConnected && !m.hasClient ==> r == Err(ConnectionError(NotConnected)) && m.sent == old(m.sent)
    ensures m.isConnected && m.hasClient ==>
      r == Ok("pressed keys " + Join(keys, ", ")) && m.sent == old(m.sent) + [Press(keys), Drain]
  {
    if !m.isConnected {
      return Err(NotConnectedFor("press_keys"));
    }
    var done := m.PressKeys(keys);
    if done.Failed? {
      return Err(done.error);
    }
    r := Ok("pressed keys " + Join(keys, ", "));
  }
}
