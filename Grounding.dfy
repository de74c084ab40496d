/** Element localisation (`grounding.py`): the bounding-box midpoint, the
    parser for OS-Atlas replies, and the grid-narrowing loop driven by the
    grounding agent's cell numbers. */
module Grounding {
  import opened Errors
  import opened Numeric
  import opened Text
  import opened Grid
  import opened Vnc

  const BoxStart: string := "<|box_start|>"
  const BoxEnd: string := "<|box_end|>"
  /** The grid drawn at every refinement step is GridSize x GridSize. */
  const GridSize: nat := 4
  const NotConnectedForGrounding: string :=
    "VNC manager not available or not connected for grounding_agent_query_element_bbox."

  // ---------------------------------------------------------------------
  // extract_bbox_midpoint
  // ---------------------------------------------------------------------

  /** `((x1 + x2) // 2, (y1 + y2) // 2)`: the centre of the box, rounded
      down on each axis. */
  function Midpoint(b: Rect): (p: (int, int))
    ensures 2 * p.0 <= b.x1 + b.x2 < 2 * p.0 + 2
    ensures 2 * p.1 <= b.y1 + b.y2 < 2 * p.1 + 2
  {
    (FloorDiv(b.x1 + b.x2, 2), FloorDiv(b.y1 + b.y2, 2))
  }

  /** The midpoint lies in the box whichever way round its corners are
      given, and swapping corners does not move it. */
  lemma MidpointOrderIrrelevant(b: Rect)
    ensures Midpoint(Rect(b.x2, b.y1, b.x1, b.y2)) == Midpoint(b)
    ensures Midpoint(Rect(b.x1, b.y2, b.x2, b.y1)) == Midpoint(b)
    ensures Min(b.x1, b.x2) <= Midpoint(b).0 <= Max(b.x1, b.x2)
    ensures Min(b.y1, b.y2) <= Midpoint(b).1 <= Max(b.y1, b.y2)
  {
  }

  /** `query_element_position(element)`: the midpoint of the box the
      localiser found, or the localiser's error. */
  function ElementPosition(bbox: Result<Rect>): (p: Result<(int, int)>)
    ensures p.Ok? <==> bbox.Ok?
    ensures p.Err? ==> p.error == bbox.error
    ensures p.Ok? ==> Min(bbox.value.x1, bbox.value.x2) <= p.value.0 <= Max(bbox.value.x1, bbox.value.x2)
    ensures p.Ok? ==> Min(bbox.value.y1, bbox.value.y2) <= p.value.1 <= Max(bbox.value.y1, bbox.value.y2)
  {
    match bbox
    case Err(e) => Err(e)
    case Ok(b) =>
      MidpointOrderIrrelevant(b);
      Ok(Midpoint(b))
  }

  // ---------------------------------------------------------------------
  // The reply parser of _os_atlas_query_element_bbox
  // ---------------------------------------------------------------------

  /** The text the number pattern is applied to: the group of the first
      `<|box_start|>(.*?)<|box_end|>` match, or the whole reply. */
  function InnerText(reply: string): string
  {
    match Search(reply, BoxStart, BoxEnd)
    case Some(g) => g
    case None => reply
  }

  /** Without a match the whole reply is scanned; with one, the text
      between the markers of a match. */
  lemma InnerTextSpec(reply: string)
    ensures (forall a, b :: !MatchAt(reply, BoxStart, BoxEnd, a, b)) ==> InnerText(reply) == reply
    ensures (exists a, b :: MatchAt(reply, BoxStart, BoxEnd, a, b)) ==>
      exists a: nat, b: nat :: MatchAt(reply, BoxStart, BoxEnd, a, b) && InnerText(reply) == reply[a + |BoxStart|..b]
  {
    SearchSpec(reply, BoxStart, BoxEnd);
  }

  /** `[int(round(float(n))) for n in findall(r"\d+\.\d+|\d+", inner)]`,
      accepted only when there are exactly four numbers. */
  function ParseAtlasReply(reply: string): (r: Result<Rect>)
    ensures r.Ok? <==> |UnsignedTokens(InnerText(reply))| == 4
    ensures r.Err? ==> r.error == Exception("Unexpected bbox format: " + reply)
    ensures r.Ok? ==> r.value.x1 >= 0 && r.value.y1 >= 0 && r.value.x2 >= 0 && r.value.y2 >= 0
    ensures r.Ok? ==> var nums := UnsignedTokens(InnerText(reply));
      && RoundsTo(NumeralValue(nums[0]), r.value.x1) && RoundsTo(NumeralValue(nums[1]), r.value.y1)
      && RoundsTo(NumeralValue(nums[2]), r.value.x2) && RoundsTo(NumeralValue(nums[3]), r.value.y2)
  {
    var nums := UnsignedTokens(InnerText(reply));
    if |nums| == 4 then
      RoundMonotone(0.0, NumeralValue(nums[0]));
      RoundMonotone(0.0, NumeralValue(nums[1]));
      RoundMonotone(0.0, NumeralValue(nums[2]));
      RoundMonotone(0.0, NumeralValue(nums[3]));
      RoundIntegral(0);
      Ok(Rect(Round(NumeralValue(nums[0])), Round(NumeralValue(nums[1])),
              Round(NumeralValue(nums[2])), Round(NumeralValue(nums[3]))))
    else Err(Exception("Unexpected bbox format: " + reply))
  }

  function Abs(z: int): nat { if z < 0 then -z else z }

  /** `(x1,y1),(x2,y2)` with each coordinate written by `str`, followed by
      `rest`. */
  function BoxTextThen(x1: int, y1: int, x2: int, y2: int, rest: string): string
  {
    "(" + (IntToDecimal(x1) + ("," + (IntToDecimal(y1) + ("),(" + (IntToDecimal(x2)
      + ("," + (IntToDecimal(y2) + (")" + rest))))))))
  }

  function BoxText(x1: int, y1: int, x2: int, y2: int): string
  {
    BoxTextThen(x1, y1, x2, y2, "")
  }

  /** The characters `str` writes for an integer: digits and a minus sign. */
  lemma DecimalChars(z: int)
    ensures forall i :: 0 <= i < |IntToDecimal(z)| ==> IsDigit(IntToDecimal(z)[i]) || IntToDecimal(z)[i] == '-'
    ensures '<' !in IntToDecimal(z) && '\n' !in IntToDecimal(z)
  {
    var d := IntToDecimal(z);
    if z < 0 {
      assert forall i :: 1 <= i < |d| ==> d[i] == NatToDecimal(-z)[i - 1];
    }
    assert forall i :: 0 <= i < |d| ==> d[i] != '<' && d[i] != '\n';
  }

  lemma BoxTextChars(x1: int, y1: int, x2: int, y2: int, rest: string)
    requires '<' !in rest && '\n' !in rest
    ensures '<' !in BoxTextThen(x1, y1, x2, y2, rest) && '\n' !in BoxTextThen(x1, y1, x2, y2, rest)
  {
    var t := ")" + rest;
    DecimalChars(y2);
    var u := "," + (IntToDecimal(y2) + t);
    assert '<' !in u && '\n' !in u;
    DecimalChars(x2);
    var v := "),(" + (IntToDecimal(x2) + u);
    assert '<' !in v && '\n' !in v;
    DecimalChars(y1);
    var w := "," + (IntToDecimal(y1) + v);
    assert '<' !in w && '\n' !in w;
    DecimalChars(x1);
    assert BoxTextThen(x1, y1, x2, y2, rest) == "(" + (IntToDecimal(x1) + w);
  }

  lemma BoxOnlyChars(x1: int, y1: int, x2: int, y2: int)
    ensures '<' !in BoxText(x1, y1, x2, y2) && '\n' !in BoxText(x1, y1, x2, y2)
  {
    BoxTextChars(x1, y1, x2, y2, "");
  }

  /** The unsigned pattern reads `str(z)` as the digits of |z|: a minus sign
      is skipped. */
  lemma UnsignedTokensOfInt(z: int, rest: string)
    requires rest == [] || (!IsDigit(rest[0]) && rest[0] != '.')
    ensures UnsignedTokens(IntToDecimal(z) + rest) == [NatToDecimal(Abs(z))] + UnsignedTokens(rest)
  {
    UnsignedTokensNumeral(Abs(z), rest);
    if z < 0 {
      MinusSkipped(NatToDecimal(-z), rest);
    }
  }

  /** The minus sign of a negative number is not part of any unsigned token. */
  lemma MinusSkipped(n: string, rest: string)
    ensures UnsignedTokens("-" + n + rest) == UnsignedTokens(n + rest)
  {
    assert "-" + n + rest == "-" + (n + rest);
    UnsignedTokensSkip("-", n + rest);
  }

  /** The numbers of a box written as `(x1,y1),(x2,y2)` are the four
      magnitudes, in order, and scanning then carries on after the box. */
  lemma {:induction false} BoxTextTokens(x1: int, y1: int, x2: int, y2: int, rest: string)
    ensures UnsignedTokens(BoxTextThen(x1, y1, x2, y2, rest))
      == [NatToDecimal(Abs(x1)), NatToDecimal(Abs(y1)), NatToDecimal(Abs(x2)), NatToDecimal(Abs(y2))]
         + UnsignedTokens(rest)
  {
    var t4 := IntToDecimal(y2) + (")" + rest);
    UnsignedTokensOfInt(y2, ")" + rest);
    UnsignedTokensSkip(")", rest);
    var s4 := "," + t4;
    UnsignedTokensSkip(",", t4);
    var t3 := IntToDecimal(x2) + s4;
    UnsignedTokensOfInt(x2, s4);
    var s3 := "),(" + t3;
    UnsignedTokensSkip("),(", t3);
    var t2 := IntToDecimal(y1) + s3;
    UnsignedTokensOfInt(y1, s3);
    var s2 := "," + t2;
    UnsignedTokensSkip(",", t2);
    var t1 := IntToDecimal(x1) + s2;
    UnsignedTokensOfInt(x1, s2);
    UnsignedTokensSkip("(", t1);
    Cons4(NatToDecimal(Abs(x1)), NatToDecimal(Abs(y1)), NatToDecimal(Abs(x2)), NatToDecimal(Abs(y2)),
          UnsignedTokens(rest));
  }

  lemma Cons4<T>(a: T, b: T, c: T, d: T, t: seq<T>)
    ensures [a] + ([b] + ([c] + ([d] + t))) == [a, b, c, d] + t
  {
  }

  lemma BoxTokens(x1: int, y1: int, x2: int, y2: int)
    ensures UnsignedTokens(BoxText(x1, y1, x2, y2))
      == [NatToDecimal(Abs(x1)), NatToDecimal(Abs(y1)), NatToDecimal(Abs(x2)), NatToDecimal(Abs(y2))]
  {
    BoxTextTokens(x1, y1, x2, y2, "");
    assert UnsignedTokens("") == [];
  }

  /** Four decimal numerals parse to the box of their values. */
  lemma ParseDecimalTokens(reply: string, a: nat, b: nat, c: nat, d: nat)
    requires UnsignedTokens(InnerText(reply)) == [NatToDecimal(a), NatToDecimal(b), NatToDecimal(c), NatToDecimal(d)]
    ensures ParseAtlasReply(reply) == Ok(Rect(a, b, c, d))
  {
    NumeralValueOfDecimal(a);
    NumeralValueOfDecimal(b);
    NumeralValueOfDecimal(c);
    NumeralValueOfDecimal(d);
    RoundIntegral(a);
    RoundIntegral(b);
    RoundIntegral(c);
    RoundIntegral(d);
  }

  /** Decimal tokens are rounded half to even: 12.5, 3.7, 40.5 and 9.2 give
      12, 4, 40 and 9. */
  lemma DecimalBoxRounding(reply: string)
    requires var nums := UnsignedTokens(InnerText(reply));
      && |nums| == 4 && NumeralValue(nums[0]) == 12.5 && NumeralValue(nums[1]) == 3.7
      && NumeralValue(nums[2]) == 40.5 && NumeralValue(nums[3]) == 9.2
    ensures ParseAtlasReply(reply) == Ok(Rect(12, 4, 40, 9))
  {
    var r := ParseAtlasReply(reply).value;
    RoundsToUnique(12.5, r.x1, 12);
    RoundsToUnique(3.7, r.y1, 4);
    RoundsToUnique(40.5, r.x2, 40);
    RoundsToUnique(9.2, r.y2, 9);
  }

  /** A reply that opens with `<|box_start|>(x1,y1),(x2,y2)<|box_end|>`
      parses to the box of the coordinates' magnitudes, whatever follows: the
      number pattern carries no sign. */
  lemma ParseBoxReply(x1: int, y1: int, x2: int, y2: int, rest: string)
    ensures ParseAtlasReply(BoxStart + BoxText(x1, y1, x2, y2) + BoxEnd + rest)
      == Ok(Rect(Abs(x1), Abs(y1), Abs(x2), Abs(y2)))
  {
    var reply := BoxStart + BoxText(x1, y1, x2, y2) + BoxEnd + rest;
    BoxInner(x1, y1, x2, y2, rest);
    BoxTokens(x1, y1, x2, y2);
    ParseDecimalTokens(reply, Abs(x1), Abs(y1), Abs(x2), Abs(y2));
  }

  /** The text between the first box markers of a boxed reply is the box. */
  lemma BoxInner(x1: int, y1: int, x2: int, y2: int, rest: string)
    ensures InnerText(BoxStart + BoxText(x1, y1, x2, y2) + BoxEnd + rest) == BoxText(x1, y1, x2, y2)
  {
    BoxOnlyChars(x1, y1, x2, y2);
    Boxed(BoxText(x1, y1, x2, y2), rest);
  }

  /** The text between box markers at the start of a reply, when it has no
      `<` and no line break. */
  lemma Boxed(inner: string, rest: string)
    requires '<' !in inner && '\n' !in inner
    ensures InnerText(BoxStart + inner + BoxEnd + rest) == inner
  {
    assert [] + BoxStart + inner + BoxEnd + rest == BoxStart + inner + BoxEnd + rest;
    SearchWrapped([], BoxStart, BoxEnd, inner, rest);
  }

  /** Without box markers the whole reply is scanned. */
  lemma ParseBareReply(x1: int, y1: int, x2: int, y2: int)
    ensures ParseAtlasReply(BoxText(x1, y1, x2, y2)) == Ok(Rect(Abs(x1), Abs(y1), Abs(x2), Abs(y2)))
  {
    var reply := BoxText(x1, y1, x2, y2);
    BoxOnlyChars(x1, y1, x2, y2);
    SearchAbsent(reply, BoxStart, BoxEnd);
    BoxTokens(x1, y1, x2, y2);
    ParseDecimalTokens(reply, Abs(x1), Abs(y1), Abs(x2), Abs(y2));
  }

  // ---------------------------------------------------------------------
  // grounding_agent_query_element_bbox
  // ---------------------------------------------------------------------

  /** `cells[int(reply.strip())]`, with Python's indexing: a negative index
      counts from the end, anything outside [-|cells|, |cells|) raises
      IndexError, and a reply that is not an integer raises ValueError. */
  function SelectCell(cells: seq<Rect>, reply: string): (r: Result<Rect>)
    ensures r.Ok? <==> ParseInt(Strip(reply)).Ok? && -|cells| <= ParseInt(Strip(reply)).value < |cells|
    ensures r.Ok? ==> r.value in cells
    ensures ParseInt(Strip(reply)).Err? ==> r == Err(ParseInt(Strip(reply)).error)
  {
    match ParseInt(Strip(reply))
    case Err(e) => Err(e)
    case Ok(k) =>
      if -|cells| <= k < |cells| then Ok(cells[if k < 0 then |cells| + k else k])
      else Err(IndexError("list index out of range"))
  }

  /** A reply that is `str(k)` with whitespace around it selects cell k,
      counting from the end when k is negative. */
  lemma SelectCellOfDecimal(cells: seq<Rect>, w1: string, k: int, w2: string)
    requires forall i :: 0 <= i < |w1| ==> IsSpace(w1[i])
    requires forall i :: 0 <= i < |w2| ==> IsSpace(w2[i])
    ensures -|cells| <= k < 0 ==> SelectCell(cells, w1 + IntToDecimal(k) + w2) == Ok(cells[|cells| + k])
    ensures 0 <= k < |cells| ==> SelectCell(cells, w1 + IntToDecimal(k) + w2) == Ok(cells[k])
    ensures !(-|cells| <= k < |cells|) ==>
      SelectCell(cells, w1 + IntToDecimal(k) + w2) == Err(IndexError("list index out of range"))
  {
    DecimalEnds(k);
    StripPadded(w1, IntToDecimal(k), w2);
    ParseIntOfDecimal(k);
  }

  /** "-1", the reply the grounding agent is told to give for an element it
      cannot see, selects the last cell of the grid. */
  lemma MinusOneSelectsLast(cells: seq<Rect>)
    requires |cells| > 0
    ensures SelectCell(cells, "-1") == Ok(cells[|cells| - 1])
  {
    MinusOneText();
    SelectCellOfDecimal(cells, [], -1, []);
  }

  /** The cell choice as the grounding prompt defines the reply: a cell
      number, or -1 for an element that cannot be seen, which yields None
      instead of a cell. Every other reply is read as `SelectCell` reads it. */
  function SelectCellIntended(cells: seq<Rect>, reply: string): (r: Result<Option<Rect>>)
    ensures r == Ok(None) <==> ParseInt(Strip(reply)) == Ok(-1)
    ensures r.Ok? && r.value.Some? ==> r.value.value in cells
    ensures ParseInt(Strip(reply)) != Ok(-1) ==> (r.Ok? <==> SelectCell(cells, reply).Ok?)
  {
    if ParseInt(Strip(reply)) == Ok(-1) then Ok(None)
    else match SelectCell(cells, reply)
      case Ok(c) => Ok(Some(c))
      case Err(e) => Err(e)
  }

  /** With the corrected choice, "-1" with whitespace around it says the
      element is not visible, whatever the grid. */
  lemma MinusOneNotVisible(cells: seq<Rect>, w1: string, w2: string)
    requires forall i :: 0 <= i < |w1| ==> IsSpace(w1[i])
    requires forall i :: 0 <= i < |w2| ==> IsSpace(w2[i])
    ensures SelectCellIntended(cells, w1 + "-1" + w2) == Ok(None)
  {
    MinusOneText();
    assert IntToDecimal(-1) == "-1";
    DecimalEnds(-1);
    StripPadded(w1, IntToDecimal(-1), w2);
    ParseIntOfDecimal(-1);
    assert ParseInt(Strip(w1 + "-1" + w2)) == Ok(-1);
  }

  lemma MinusOneText()
    ensures [] + IntToDecimal(-1) + [] == "-1"
  {
    assert NatToDecimal(1) == "1";
  }

  /** One refinement step: draw a GridSize x GridSize grid over the current
      target (the whole screen when there is none) and take the cell the
      reply names. */
  function Step(img: Image, t: Option<Rect>, reply: string): Result<Rect>
  {
    SelectCell(GridCells(img, GridSize, GridSize, t).value, reply)
  }

  /** The state of a refinement loop whose body is `step` after its first k
      iterations: None before the first, the rectangle the latest one
      selected, or the error an iteration raised. */
  function Trace(step: (Option<Rect>, string) -> Result<Rect>, replies: seq<string>, k: nat): (r: Result<Option<Rect>>)
    requires k <= |replies|
    ensures k == 0 ==> r == Ok(None)
    ensures r.Ok? && k > 0 ==> r.value.Some?
    decreases k
  {
    if k == 0 then Ok(None)
    else match Trace(step, replies, k - 1)
      case Err(e) => Err(e)
      case Ok(t) =>
        match step(t, replies[k - 1])
        case Err(e) => Err(e)
        case Ok(c) => Ok(Some(c))
  }

  /** The target after the first k refinement steps of the grounding loop. */
  function TargetAfter(img: Image, replies: seq<string>, k: nat): Result<Option<Rect>>
    requires k <= |replies|
  {
    Trace((t: Option<Rect>, reply: string) => Step(img, t, reply), replies, k)
  }

  predicate Inside(t: Rect, b: Rect)
  {
    b.x1 <= t.x1 <= t.x2 <= b.x2 && b.y1 <= t.y1 <= t.y2 <= b.y2
  }

  function Screen(img: Image): Rect { Rect(0, 0, img.width, img.height) }

  /** The cell a step selects lies within the rectangle the grid was drawn
      over: the screen, or the current target. */
  lemma StepWithin(img: Image, t: Option<Rect>, reply: string)
    requires Step(img, t, reply).Ok?
    requires t.Some? ==> Inside(t.value, Screen(img))
    ensures Inside(Step(img, t, reply).value, if t.None? then Screen(img) else t.value)
  {
    var cells := GridCells(img, GridSize, GridSize, t).value;
    var c := Step(img, t, reply).value;
    assert c in cells;
    var i :| 0 <= i < |cells| && cells[i] == c;
    CellInsideBounds(img, GridSize, GridSize, t, i);
    if t.Some? {
      assert Normalise(t.value) == t.value;
    }
  }

  /** Step k of the loop, in terms of the target before it. */
  lemma TargetAfterStep(img: Image, replies: seq<string>, k: nat)
    requires 0 < k <= |replies| && TargetAfter(img, replies, k).Ok?
    ensures TargetAfter(img, replies, k - 1).Ok?
    ensures Step(img, TargetAfter(img, replies, k - 1).value, replies[k - 1])
      == Ok(TargetAfter(img, replies, k).value.value)
  {
  }

  /** The target after step i + 1, from the target after step i. */
  lemma TargetAfterNext(img: Image, replies: seq<string>, i: nat, t: Option<Rect>)
    requires i < |replies| && TargetAfter(img, replies, i) == Ok(t)
    ensures Step(img, t, replies[i]).Err? ==> TargetAfter(img, replies, i + 1) == Err(Step(img, t, replies[i]).error)
    ensures Step(img, t, replies[i]).Ok? ==> TargetAfter(img, replies, i + 1) == Ok(Some(Step(img, t, replies[i]).value))
  {
  }

  /** Every target the loop reaches is a well-ordered rectangle on the
      screen. */
  lemma {:induction false} TargetOnScreen(img: Image, replies: seq<string>, k: nat)
    requires k <= |replies|
    ensures TargetAfter(img, replies, k).Ok? && k > 0 ==>
      Inside(TargetAfter(img, replies, k).value.value, Screen(img))
  {
    if k > 0 && TargetAfter(img, replies, k).Ok? {
      TargetAfterStep(img, replies, k);
      var prev := TargetAfter(img, replies, k - 1).value;
      TargetOnScreen(img, replies, k - 1);
      StepWithin(img, prev, replies[k - 1]);
    }
  }

  /** From the second step on, each target lies within the one before, and
      is one of the cells of the grid drawn over it: the loop only ever
      narrows. */
  lemma TargetNarrows(img: Image, replies: seq<string>, k: nat)
    requires 2 <= k <= |replies| && TargetAfter(img, replies, k).Ok?
    ensures TargetAfter(img, replies, k - 1).Ok? && TargetAfter(img, replies, k - 1).value.Some?
    ensures TargetAfter(img, replies, k).value.value
      in GridCells(img, GridSize, GridSize, TargetAfter(img, replies, k - 1).value).value
    ensures Inside(TargetAfter(img, replies, k).value.value, TargetAfter(img, replies, k - 1).value.value)
  {
    var j := k - 1;
    TargetAfterStep(img, replies, k);
    TargetOnScreen(img, replies, j);
    StepInside(img, TargetAfter(img, replies, j).value, replies[j]);
  }

  /** A step from a target on the screen picks one of the cells drawn over
      that target, inside it. */
  lemma StepInside(img: Image, t: Option<Rect>, reply: string)
    requires t.Some? && Inside(t.value, Screen(img)) && Step(img, t, reply).Ok?
    ensures Step(img, t, reply).value in GridCells(img, GridSize, GridSize, t).value
    ensures Inside(Step(img, t, reply).value, t.value)
  {
    StepWithin(img, t, reply);
  }

  /** The body of the refinement loop: draw the grid over the current
      target, then pick the cell the grounding agent's reply names. */
  method Refine(screen: Image, target: Option<Rect>, reply: string) returns (cell: Result<Rect>)
    ensures cell == Step(screen, target, reply)
  {
    var cells := DrawAnnotatedGrid(screen, GridSize, GridSize, target);
    cell := SelectCell(cells.value, reply);
  }

  /** `grounding_agent_query_element_bbox(element, steps)`: `screen` is the
      size of the frame captured at the start, and `replies` the grounding
      agent's answers in order. Besides the result it returns how many
      replies were consumed. The source defaults `steps` to 2. */
  method GroundingAgentQueryElementBbox(m: VNCManager, screen: Image, replies: seq<string>, steps: int)
    returns (res: Result<Rect>, asked: nat)
    requires steps <= |replies|
    ensures !m.isConnected ==> res == Err(ConnectionError(NotConnectedForGrounding)) && asked == 0
    ensures m.isConnected && steps <= 0 ==> res == Err(AssertionError) && asked == 0
    ensures m.isConnected && steps > 0 && res.Ok? ==>
      asked == steps && TargetAfter(screen, replies, steps) == Ok(Some(res.value))
    ensures m.isConnected && steps > 0 && res.Err? ==>
      && 0 < asked <= steps
      && TargetAfter(screen, replies, asked - 1).Ok?
      && TargetAfter(screen, replies, asked) == Err(res.error)
  {
    if !m.isConnected {
      return Err(ConnectionError(NotConnectedForGrounding)), 0;
    }
    if steps <= 0 {
      return Err(AssertionError), 0;
    }
    res, asked := RefineSteps(screen, replies, steps);
  }

  /** The `for _ in range(steps)` loop and the `assert target_rect` after
      it: the target after each refinement step, stopping at the first step
      that raises. */
  method RefineSteps(screen: Image, replies: seq<string>, steps: nat) returns (res: Result<Rect>, asked: nat)
    requires 0 < steps <= |replies|
    ensures res.Ok? ==> asked == steps && TargetAfter(screen, replies, steps) == Ok(Some(res.value))
    ensures res.Err? ==>
      && 0 < asked <= steps
      && TargetAfter(screen, replies, asked - 1).Ok?
      && TargetAfter(screen, replies, asked) == Err(res.error)
  {
    var target: Option<Rect> := None;
    asked := 0;
    while asked < steps
      invariant asked <= steps
      invariant TargetAfter(screen, replies, asked) == Ok(target)
      invariant asked > 0 ==> target.Some?
    {
      var cell := RefineAt(screen, replies, asked, target);
      asked := asked + 1;
      if cell.Err? {
        assert TargetAfter(screen, replies, asked - 1) == Ok(target);
        return Err(cell.error), asked;
      }
      target := Some(cell.value);
    }
    res := Ok(target.value);
  }

  /** Iteration i of the loop, from the target the first i iterations left. */
  method RefineAt(screen: Image, replies: seq<string>, i: nat, target: Option<Rect>) returns (cell: Result<Rect>)
    requires i < |replies| && TargetAfter(screen, replies, i) == Ok(target)
    ensures cell.Err? ==> TargetAfter(screen, replies, i + 1) == Err(cell.error)
    ensures cell.Ok? ==> TargetAfter(screen, replies, i + 1) == Ok(Some(cell.value))
  {
    cell := Refine(screen, target, replies[i]);
    TargetAfterNext(screen, replies, i, target);
  }
}
