# planar-computer-use: the decision logic, modelled in Dafny

planar-computer-use drives a remote desktop over VNC on behalf of a
language-model agent. A planner looks at a screenshot and names the next
step. An executor carries the step out through a small set of tools: click,
double-click, right-click, type text and press keys. Each click goes to a
screen position that a localiser finds for an element description. There are
two localisers:

- the OS-Atlas model, which answers with a box or a point as text;
- a grounding agent, which is shown a numbered 4 x 4 grid and answers with a
  cell number, over a few rounds that narrow the grid.

This project models the deterministic core of that system and proves its
properties. Every planner, grounding agent, OS-Atlas reply and screenshot is
an oracle, given as a parameter. The VNC transport is a log of the events it
was asked to send.

| module | file of the system | what it holds |
|---|---|---|
| `Errors` | (shared) | the Python exceptions the core raises, `Result`, `Option` |
| `Numeric` | (shared) | `round` (half to even), `//`, `math.floor`, `int()` of a float |
| `Text` | (shared) | `re.search` for `<open>(.*?)<close>`, the number patterns `\d+\.\d+\|\d+` and `-?\d+`, `str.strip`, `str.lower`, `replace(".", "")`, `int(str)`, `str(int)` |
| `Grid` | `planar_computer_use/pil_utilities.py` | the cell coordinates of `draw_annotated_grid` |
| `Grounding` | `planar_computer_use/grounding.py` | the box midpoint, the OS-Atlas reply parser, the grid-narrowing loop |
| `OsAtlas` | `planar_computer_use/osatlas.py` | `extract_bbox_midpoint` on a reply string |
| `AtlasApp` | `os_atlas_run_local/app.py` | `parse_bounding_box_info`, `rescale_bounding_boxes` |
| `Vnc` | `planar_computer_use/vnc_manager.py` | the `VNCManager` session class |
| `Tools` | `planar_computer_use/tools.py` | the five input tools |
| `Workflows` | `planar_computer_use/workflows.py` | the 25-turn `perform_computer_task` loop |

These code files are imperative in the source, and the model keeps that form:

- `VNCManager` is a class whose methods update its fields.
- The grid cells are built by nested `for` loops.
- The grounding loop reassigns its target on every step.
- The rescale loop appends one box at a time.
- The task loop returns early.

Each such method is proved against a specification function, and the
properties are proved about that function.

Some behaviours of the code are worth stating on their own:

- The grounding prompt (`planar_computer_use/agents.py:89`) tells the agent
  to reply `-1` for an element it cannot see. `grounding.py:91-92` then
  indexes the cell list with that number, so `-1` selects the last cell;
  see Findings.
- Any cell number in [-16, 15] is accepted there, through Python's
  negative indexing (`grounding.py:92`).
- The planner's reply is stripped, lower-cased and loses every `.`, wherever
  it stands (`workflows.py:37`).
- `disconnect` on a disconnected manager returns False
  (`vnc_manager.py:66-69`).
- The right-click tool sends the middle button (`tools.py:65-67`); see
  Findings.

`tools.py`, `grounding.py` and `workflows.py` fetch the session through
`VNCManager.get()` (`tools.py:20`, `grounding.py:71`) or
`VNCManager.connect(host_port, password)` (`workflows.py:25`). The class has no `get`, and its `connect`
(`vnc_manager.py:28`) is an instance method taking host, port and password
that returns a boolean, not a context manager. The model therefore passes
the session as a parameter.

## Model

| member | source | states |
|---|---|---|
| Numeric.FloorDiv | planar_computer_use/grounding.py:28 | `a // b` for b > 0 is the q with q*b <= a < q*b + b (floor, also for negative a) |
| Numeric.Floor | planar_computer_use/osatlas.py:27 | the floor of a real is the integer f with f <= x < f + 1 |
| Numeric.Trunc | planar_computer_use/osatlas.py:25 | `int()` of a float truncates toward zero: it agrees with floor on non-negative values and lies within 1 of x |
| Numeric.Round | planar_computer_use/pil_utilities.py:159 | `round` gives an integer within 1/2 of x, and the even one on a tie |
| Numeric.RoundIntegral | planar_computer_use/pil_utilities.py:92-95 | rounding an integral value returns it |
| Numeric.RoundMonotone | planar_computer_use/pil_utilities.py:159 | `round` is monotone |
| Numeric.RoundsToUnique | planar_computer_use/grounding.py:45 | only one integer is within 1/2 of a real and even on a tie, so RoundsTo pins `round`'s result down |
| Numeric.FloorHalf | planar_computer_use/osatlas.py:27 | floor of n/2.0 equals integer floor division n // 2 |
| Text.NatToDecimal | planar_computer_use/vnc_manager.py:64 | `str` of a port number (and of a cell index): non-empty, all digits, no leading zero |
| Text.NatToDecimalValue | planar_computer_use/vnc_manager.py:64 | the digits `str(n)` writes read back as n |
| Text.IntToDecimal | planar_computer_use/vnc_manager.py:64 | `str(z)` for any int; DecimalEnds, SignedValueOfDecimal and ParseIntOfDecimal prove it non-empty with non-space ends, a `-?\d+` token, and read back as z by `int()` |
| Text.UnsignedTokensDecimalRun | planar_computer_use/grounding.py:14 | digits, a point and digits, followed by a non-digit, are one token and scanning resumes after it |
| Text.DecimalRunScan | planar_computer_use/grounding.py:14 | where the digit runs of such a run end, and which pieces it splits into |
| Text.DecimalRunPieces | planar_computer_use/grounding.py:14 | how `ip + "." + fp + rest` is indexed and sliced |
| Text.DecimalValue | planar_computer_use/grounding.py:45 | `float()` of such a token is the integer part plus the fraction digits over the matching power of ten |
| Text.DigitRunOfDigits | planar_computer_use/grounding.py:14 | the digit run at the start of digits followed by a non-digit is exactly those digits |
| Text.NumeralValue | planar_computer_use/grounding.py:45 | `float(num)` of a token of the unsigned pattern is non-negative |
| Text.NumeralValueOfDecimal | planar_computer_use/grounding.py:45 | `str(n)` is a token of the unsigned pattern and its value is n |
| Text.SignedValueOfDecimal | os_atlas_run_local/app.py:83 | `str(z)` is a token of `-?\d+` and `int()` of it is z |
| Text.SignedValue | os_atlas_run_local/app.py:83 | `int()` of a `-?\d+` token; SignedValueOfDecimal proves it inverts `str(z)` |
| Text.UnsignedTokens | planar_computer_use/grounding.py:45 | `findall(r"\d+\.\d+\|\d+")`: every token is an unsigned integer or decimal numeral |
| Text.UnsignedNumeralShape | planar_computer_use/grounding.py:14 | digits, a dot and digits form a numeral of the decimal alternative |
| Text.SignedTokens | os_atlas_run_local/app.py:78 | `findall(r"-?\d+")`: every token is an optionally signed integer numeral |
| Text.UnsignedTokensSkip | planar_computer_use/osatlas.py:23 | text without digits contributes no tokens |
| Text.UnsignedTokensNumeral | planar_computer_use/osatlas.py:23 | `str(n)` followed by neither a digit nor a dot is one token, and scanning resumes after it |
| Text.SignedTokensRun | os_atlas_run_local/app.py:78 | a digit run followed by a non-digit is one signed token |
| Text.SignedTokensMinusRun | os_atlas_run_local/app.py:78 | `-` and a digit run followed by a non-digit is one signed token |
| Text.SignedTokensSkip | os_atlas_run_local/app.py:78 | text without digits or `-` contributes no signed tokens |
| Text.SignedTokensNumeral | os_atlas_run_local/app.py:78 | `str(z)` followed by a non-digit is one signed token |
| Text.FindClose | planar_computer_use/grounding.py:13 | the lazy group ends at the first close marker with no line break before it, or there is none |
| Text.SearchFrom | planar_computer_use/grounding.py:43 | the leftmost match at or after i, with the shortest group; None only when no match starts at or after i |
| Text.SearchSpec | planar_computer_use/grounding.py:43-44 | `re.search(...).group(1)`: None exactly when there is no match, otherwise the group of some match |
| Text.Search | planar_computer_use/grounding.py:43-44 | `re.search(open + "(.*?)" + close, s).group(1)`, or None without a match; SearchSpec, SearchWrapped and SearchAbsent state what it returns |
| Text.FindCloseAfter | planar_computer_use/grounding.py:13 | a close marker reached without line breaks or its first character is where the group ends |
| Text.SearchAbsent | planar_computer_use/osatlas.py:21-22 | text without the marker's first character has no match |
| Text.WrappedAt | planar_computer_use/grounding.py:43-44 | a match at the open marker ends at the first close marker after a group without line breaks |
| Text.SearchFromSkip | planar_computer_use/grounding.py:43 | positions where the open marker does not occur do not change the search |
| Text.SearchWrapped | planar_computer_use/grounding.py:43-44 | open + inner + close after a prefix with no open marker yields exactly inner |
| Text.SearchAfterPlain | os_atlas_run_local/app.py:60 | a prefix with no `<` does not disturb the match |
| Text.StripLeft | planar_computer_use/workflows.py:37 | stripping the left never lengthens the text |
| Text.StripRight | planar_computer_use/workflows.py:37 | stripping the right never lengthens the text |
| Text.StripLeftRemoves | planar_computer_use/workflows.py:37 | the result is a suffix, only whitespace is removed, and it starts with a non-space or is empty |
| Text.StripRightRemoves | planar_computer_use/workflows.py:37 | the result is a prefix, only whitespace is removed, and it ends with a non-space or is empty |
| Text.StripTwice | planar_computer_use/grounding.py:91 | `strip()` is idempotent, so `int()`'s own stripping of an already stripped reply changes nothing |
| Text.StripLeftPadded | planar_computer_use/grounding.py:91 | whitespace before a non-space start is removed exactly |
| Text.StripRightPadded | planar_computer_use/grounding.py:91 | whitespace after a non-space end is removed exactly |
| Text.StripPadded | os_atlas_run_local/app.py:72 | `strip()` of w1 + t + w2 is t when t has non-space ends and w1, w2 are whitespace |
| Text.Strip | planar_computer_use/workflows.py:37 | `str.strip()`; StripLeftRemoves, StripRightRemoves, StripTwice and StripPadded prove it removes exactly the outer whitespace and is idempotent |
| Text.Lower | planar_computer_use/workflows.py:37 | the ASCII lower-casing keeps the length |
| Text.RemoveChar | planar_computer_use/workflows.py:37 | `replace(".", "")` leaves no dot and never lengthens |
| Text.RemoveCharKeeps | planar_computer_use/workflows.py:37 | every other character survives the removal, and no new one appears |
| Text.RemoveCharAbsent | planar_computer_use/workflows.py:37 | text without a dot is unchanged by the removal |
| Text.RemoveCharConcat | planar_computer_use/workflows.py:37 | the removal distributes over concatenation |
| Text.ParseInt | planar_computer_use/grounding.py:91 | `int(t)` of stripped text t fails only with the ValueError that quotes t |
| Text.DecimalEnds | planar_computer_use/grounding.py:91 | `str(z)` is non-empty and neither starts nor ends with whitespace |
| Text.ParseIntOfDecimal | planar_computer_use/grounding.py:91 | `int(str(z))` is z |
| Text.Join | planar_computer_use/tools.py:96 | `sep.join(xs)`; Tools.PressKeys states the reply it builds |
| Grid.Normalise | planar_computer_use/pil_utilities.py:70-74 | min/max puts corners in order and keeps the same two values per axis |
| Grid.SearchArea | planar_computer_use/pil_utilities.py:69-108 | the grid covers the whole image or the normalised target, with non-negative size |
| Grid.Degenerate | planar_computer_use/pil_utilities.py:78-81 | a target with zero width or height after normalising; DegenerateFallback and CellInsideBounds state the fallback output |
| Grid.GridCells | planar_computer_use/pil_utilities.py:49-98 | raises exactly when num_rows or num_cols is not positive; otherwise exactly num_rows * num_cols cells, on both paths |
| Grid.Cells | planar_computer_use/pil_utilities.py:148-160 | rows * cols cells |
| Grid.Cell | planar_computer_use/pil_utilities.py:154-159 | the rounded corners of the cell in row r, column c; RowMajor, AdjacentCellsShareEdges and CellWithin state its place, its neighbours and its bounds |
| Grid.Edge | planar_computer_use/pil_utilities.py:154-159 | `round(origin + k * cell_size)`; AxisWithin and AxisEnd prove the edges ordered, inside the span, and ending at its rounded ends |
| Grid.DrawAnnotatedGrid | planar_computer_use/pil_utilities.py:49-160 | the row check comes before the column check; the nested loops build exactly the specified cell list |
| Grid.RowMajor | planar_computer_use/pil_utilities.py:149-160 | entry r*num_cols + c is the cell in row r, column c |
| Grid.CornerOrderIrrelevant | planar_computer_use/pil_utilities.py:70-79 | swapping x1/x2, y1/y2 or both in target_rect gives identical output |
| Grid.DegenerateFallback | planar_computer_use/pil_utilities.py:81-98 | a target with no width or height gives num_rows * num_cols copies of its normalised corners (rounding an integer changes nothing) |
| Grid.AdjacentCellsShareEdges | planar_computer_use/pil_utilities.py:154-159 | x2 of (r, c) is x1 of (r, c+1) and y2 of (r, c) is y1 of (r+1, c) |
| Grid.CellEdges | planar_computer_use/pil_utilities.py:154-157 | a cell's far edges are its neighbours' near edges |
| Grid.AxisWithin | planar_computer_use/pil_utilities.py:154-159 | the rounded edges of cell k are ordered and inside the rounded span |
| Grid.AxisEnd | planar_computer_use/pil_utilities.py:106-111 | the first edge is the rounded origin and the last is the rounded far side |
| Grid.CellWithin | planar_computer_use/pil_utilities.py:154-159 | every cell is ordered and inside the rounded search area |
| Grid.CellInsideBounds | planar_computer_use/pil_utilities.py:110-160 | every returned cell has x1 <= x2, y1 <= y2 and lies inside the rounded normalised rectangle, degenerate case included |
| Grid.WholeImageCorners | planar_computer_use/pil_utilities.py:106-111 | with no target, cell 0 starts at (0, 0) and the last cell ends at (width, height) |
| Vnc.TransportButton | planar_computer_use/vnc_manager.py:183-184 | 1, 2, 3 map to 0, 1, 2 and anything else maps to 0 |
| Vnc.Frame | planar_computer_use/vnc_manager.py:123-132 | the frame is the placeholder exactly when disconnected or when capture failed |
| Vnc.VNCManager.constructor | planar_computer_use/vnc_manager.py:16-26 | a new manager is disconnected, with no host, port or client and the placeholder frame |
| Vnc.VNCManager.Connect | planar_computer_use/vnc_manager.py:28-64 | while connected: ConnectionError and no field changes; on success: connected, host and port recorded, stop flag cleared, updater running, returns True; on failure: no client, not connected, ConnectionError quoting host:port and the cause |
| Vnc.VNCManager.Disconnect | planar_computer_use/vnc_manager.py:66-98 | disconnected: returns False and changes nothing; connected: always ends disconnected with client, host and port cleared and the placeholder frame, stops the updater, returns True |
| Vnc.VNCManager.CaptureScreenBase64 | planar_computer_use/vnc_manager.py:123-132 | returns the placeholder when not connected or when capture fails, else the PNG data URL |
| Vnc.VNCManager.UpdaterStep | planar_computer_use/vnc_manager.py:137-148 | one pass of the updater runs only while not stopped, and caches the captured frame or the placeholder |
| Vnc.VNCManager.MouseMove | planar_computer_use/vnc_manager.py:161-171 | not connected: ConnectionError and no events; else exactly move(x, y), drain |
| Vnc.VNCManager.Click | planar_computer_use/vnc_manager.py:173-195 | not connected: ConnectionError and no events; else exactly move(x, y), click(mapped button), drain |
| Vnc.VNCManager.PressKeys | planar_computer_use/vnc_manager.py:197-210 | one press of all keys in order, then drain; nothing when not connected |
| Vnc.VNCManager.TypeString | planar_computer_use/vnc_manager.py:212-225 | one write of the unmodified text, then drain; nothing when not connected |
| Vnc.ConnectThenDisconnect | planar_computer_use/vnc_manager.py:28-98 | connect then disconnect returns to a fresh manager's state, apart from the stopped updater |
| Grounding.Midpoint | planar_computer_use/grounding.py:27-28 | each coordinate is the floor of the corner sum halved |
| Grounding.MidpointOrderIrrelevant | planar_computer_use/grounding.py:27-28 | swapping x1/x2 or y1/y2 leaves the midpoint unchanged, and it lies between the corners |
| Grounding.ElementPosition | planar_computer_use/grounding.py:105-108 | the position is the box's midpoint, between its corners, or the localiser's error |
| Grounding.InnerTextSpec | planar_computer_use/grounding.py:43-44 | the group of the leftmost box-marker match, or the whole reply when there is no match |
| Grounding.InnerText | planar_computer_use/grounding.py:43-44 | `match.group(1) if match else reply`; InnerTextSpec, BoxInner and Boxed state its value |
| Grounding.MinusSkipped | planar_computer_use/grounding.py:14 | the minus sign before a number starts no unsigned token |
| Grounding.ParseAtlasReply | planar_computer_use/grounding.py:43-48 | accepted exactly when there are 4 unsigned tokens; otherwise the exception quoting the reply; coordinates are non-negative, and each is within 1/2 of the value of the token in its position and even on a tie (`int(round(float(num)))`, decimal tokens included) |
| Grounding.DecimalBoxRounding | planar_computer_use/grounding.py:45 | tokens of values 12.5, 3.7, 40.5, 9.2 give the box (12, 4, 40, 9): half to even, not half up |
| Grounding.DecimalChars | planar_computer_use/grounding.py:45 | `str(z)` holds only digits and `-`, so no `<` and no line break |
| Grounding.BoxTextChars | planar_computer_use/grounding.py:43 | a written box has no `<` and no line break |
| Grounding.UnsignedTokensOfInt | planar_computer_use/grounding.py:14 | the unsigned pattern reads `str(z)` as the digits of abs(z), dropping the minus sign |
| Grounding.BoxTextTokens | planar_computer_use/grounding.py:45 | `(x1,y1),(x2,y2)` yields the four magnitudes in order |
| Grounding.BoxTokens | planar_computer_use/grounding.py:45 | the same for a box with nothing after it |
| Grounding.ParseDecimalTokens | planar_computer_use/grounding.py:45-47 | four integer tokens are returned in extraction order, unchanged by rounding |
| Grounding.ParseBoxReply | planar_computer_use/grounding.py:43-47 | a boxed reply parses to the four magnitudes in order, whatever follows it |
| Grounding.BoxInner | planar_computer_use/grounding.py:43-44 | between the first box markers of a boxed reply is the box |
| Grounding.Boxed | planar_computer_use/grounding.py:43-44 | only the inner text of a boxed reply is scanned |
| Grounding.ParseBareReply | planar_computer_use/grounding.py:44 | without markers the whole reply is scanned |
| Grounding.SelectCell | planar_computer_use/grounding.py:91-92 | `cells[int(reply.strip())]`: accepted exactly for integers in [-len, len); the result is a cell of the list; non-integers give the ValueError |
| Grounding.SelectCellOfDecimal | planar_computer_use/grounding.py:91-92 | a padded `str(k)` selects cell k, counting from the end when k < 0, or raises IndexError when out of range |
| Grounding.MinusOneSelectsLast | planar_computer_use/grounding.py:91-92 | the reply "-1" selects the last cell |
| Grounding.SelectCellIntended | planar_computer_use/agents.py:89 | corrected: -1 gives None (not visible), every other reply is read as SelectCell reads it, and a selected cell is a cell of the list |
| Grounding.MinusOneNotVisible | planar_computer_use/agents.py:89 | corrected: "-1" with whitespace around it gives None, whatever the grid |
| Grounding.Trace | planar_computer_use/grounding.py:78-92 | the loop's state: after 0 steps the target is None; after any successful step it is a cell |
| Grounding.Step | planar_computer_use/grounding.py:83-92 | one pass of the loop body on the current target; StepWithin and Refine state it |
| Grounding.TargetAfter | planar_computer_use/grounding.py:78-92 | the loop's specification, the target after the first k steps; TargetAfterStep, TargetOnScreen, TargetNarrows and RefineSteps state it |
| Grounding.StepInside | planar_computer_use/grounding.py:83-92 | a step from a target on the screen picks one of the cells drawn over that target, inside it |
| Grounding.StepWithin | planar_computer_use/grounding.py:83-92 | each step's cell lies inside the previous target (or the screen) |
| Grounding.TargetAfterStep | planar_computer_use/grounding.py:82-92 | step k succeeds only after step k-1 did, and is that step applied to its target |
| Grounding.TargetAfterNext | planar_computer_use/grounding.py:82-92 | one more step either fails with that step's error or moves to the selected cell |
| Grounding.TargetOnScreen | planar_computer_use/grounding.py:78-92 | every target lies on the screen |
| Grounding.TargetNarrows | planar_computer_use/grounding.py:83-92 | each later target is an element of the previous target's 4 x 4 cell list and lies inside it |
| Grounding.Refine | planar_computer_use/grounding.py:83-92 | one iteration: draw the 4 x 4 grid on the current target and select the cell the reply names |
| Grounding.RefineSteps | planar_computer_use/grounding.py:82-95 | for steps > 0, where `assert target_rect` after the loop cannot fail (the caller raises its AssertionError for steps <= 0): the loop stops at the first failing step, after consuming its reply, with that step's error; otherwise after `steps` replies with the cell the specification gives |
| Grounding.RefineAt | planar_computer_use/grounding.py:83-92 | iteration i of the loop takes the target after i steps to the target after i + 1 steps, or to that step's error |
| Grounding.GroundingAgentQueryElementBbox | planar_computer_use/grounding.py:68-95 | not connected: ConnectionError before any oracle call; steps <= 0: AssertionError; success after exactly `steps` replies with the specified target; a failure at reply k propagates that step's error |
| OsAtlas.PositionOf | planar_computer_use/osatlas.py:24-29 | a position exists exactly for 2 or at least 4 numbers, and is non-negative; for 2 it is the floor of each value (`int()` of a non-negative float), for 4 or more the floors of (v0+v2)/2 and (v1+v3)/2 (float `//`) |
| OsAtlas.ExtractBboxMidpoint | planar_computer_use/osatlas.py:20-29 | accepted exactly for 2 or at least 4 numbers; otherwise the exception quoting the response; coordinates are non-negative; two tokens give the floors of their values, four or more the floors of the half sums of tokens 0 and 2, and 1 and 3, decimal tokens included |
| OsAtlas.DecimalBoxPosition | planar_computer_use/osatlas.py:27 | tokens of values 12.5, 3.7, 40.5, 9.2 give the midpoint (26, 6) |
| OsAtlas.DecimalPointPosition | planar_computer_use/osatlas.py:25 | tokens of values 12.5, 3.7 give the point (12, 3): truncation, not rounding |
| OsAtlas.PointTokens | planar_computer_use/osatlas.py:23 | `(x,y)` yields the two magnitudes |
| OsAtlas.PointChars | planar_computer_use/osatlas.py:21-22 | a written point has no `<` and no line break |
| OsAtlas.PointReply | planar_computer_use/osatlas.py:24-25 | a boxed point gives (abs(x), abs(y)) |
| OsAtlas.BoxPosition | planar_computer_use/osatlas.py:26-27 | four integer numerals give the floor-halved sums of n0+n2 and n1+n3, whatever follows |
| OsAtlas.NumeralsPosition | planar_computer_use/osatlas.py:26-27 | the same for any four numerals of those values |
| OsAtlas.HalfSum | planar_computer_use/osatlas.py:27 | float floor division of a + c by 2 is the integer floor division |
| OsAtlas.BoxReplyAgrees | planar_computer_use/osatlas.py:20-29 | on a boxed reply this parser equals the grounding parser followed by its midpoint |
| OsAtlas.ExtraNumbersIgnored | planar_computer_use/osatlas.py:26-27 | numbers after the fourth are ignored |
| AtlasApp.Coordinates | os_atlas_run_local/app.py:83 | four tokens give four coordinates |
| AtlasApp.ParseBoundingBoxInfo | os_atlas_run_local/app.py:54-97 | object_ref is None exactly when the reference markers do not match, else a group; at most one box, present exactly when the stripped box content has 4 signed tokens; never raises |
| AtlasApp.SignedBoxTextTokens | os_atlas_run_local/app.py:78 | `(x1,y1),(x2,y2)` yields the four coordinates with their signs |
| AtlasApp.SignedBoxTokens | os_atlas_run_local/app.py:78 | the same for a box with nothing after it |
| AtlasApp.StripBox | os_atlas_run_local/app.py:72 | stripping leaves a written box unchanged |
| AtlasApp.BoxCoordinates | os_atlas_run_local/app.py:72-85 | the four coordinates come back in order with their signs |
| AtlasApp.ObjectRefReply | os_atlas_run_local/app.py:59-64 | the object reference is the text between its markers |
| AtlasApp.BoxReply | os_atlas_run_local/app.py:71-85 | a boxed reply gives `[[x1, y1, x2, y2]]` with signs kept |
| AtlasApp.NoBoxMarkers | os_atlas_run_local/app.py:92-95 | no markers give (None, []) without raising |
| AtlasApp.PointIsNoBox | os_atlas_run_local/app.py:88-89 | two numbers give no box |
| AtlasApp.StripPoint | os_atlas_run_local/app.py:72 | stripping leaves a written point unchanged |
| AtlasApp.SignedPointTokens | os_atlas_run_local/app.py:78 | `(x,y)` yields two signed tokens |
| AtlasApp.RescaleBox | os_atlas_run_local/app.py:40-45 | a rescaled box has four coordinates |
| AtlasApp.UnpackError | os_atlas_run_local/app.py:39 | the ValueError of `xmin, ymin, xmax, ymax = box` for a box of n != 4 values; RescaleBoundingBoxes states when it is raised |
| AtlasApp.RescaleBoundingBoxes | os_atlas_run_local/app.py:34-47 | a zero scale divisor raises ZeroDivisionError; otherwise a list of the same length with x scaled by original_width/scaled_width and y by original_height/scaled_height, or the unpack error of the first box without four values |
| AtlasApp.DefaultScaleCorners | os_atlas_run_local/app.py:34-45 | with the default 1000 x 1000 scale, 0 maps to 0 and 1000 maps to the width and the height |
| AtlasApp.RescaleInverse | os_atlas_run_local/app.py:35-45 | dividing by the scale recovers the coordinate |
| AtlasApp.RescaleMonotone | os_atlas_run_local/app.py:35-45 | a non-negative scale keeps corners in order |
| Tools.ClickElement | planar_computer_use/tools.py:13-28 | not connected: ConnectionError before resolving; otherwise one click at the midpoint with button 0, mapped to the left button, and "clicked on {element}" |
| Tools.DoubleClickElement | planar_computer_use/tools.py:31-48 | two clicks at the same midpoint, and "double-clicked on {element}" |
| Tools.RightClickElement | planar_computer_use/tools.py:51-68 | as written: button=2, which reaches the transport as the middle button |
| Tools.RightClickElementIntended | planar_computer_use/tools.py:65-67 | corrected: button=3, the transport's right button |
| Tools.RightClickWith | planar_computer_use/tools.py:57-68 | the right-click tool's steps for a given button |
| Tools.RightClickButton | planar_computer_use/vnc_manager.py:183-184 | the table maps 2 to the middle button and 3 to the right button |
| Tools.TypeText | planar_computer_use/tools.py:71-82 | the text forwarded unchanged in one write, and "typed text {text}" |
| Tools.PressKeys | planar_computer_use/tools.py:85-96 | the key list forwarded unchanged in one press, and "pressed keys " followed by the keys joined by ", " |
| Workflows.NormaliseStep | planar_computer_use/workflows.py:37 | normalising never lengthens the reply |
| Workflows.NormaliseStepDots | planar_computer_use/workflows.py:37 | every dot is removed, not only a trailing one, and every other character is kept |
| Workflows.IsCompletion | planar_computer_use/workflows.py:39 | the step is `complete` or `"complete"` |
| Workflows.Completes | planar_computer_use/workflows.py:37-39 | the normalised reply is a completion; PaddedCompletion and NormalisePadded state which replies complete |
| Workflows.FirstCompletion | planar_computer_use/workflows.py:31-40 | the first turn whose reply completes; FirstTurn and BeforeFirstCompletion state it |
| Workflows.Achieved | planar_computer_use/workflows.py:40 | the success message; PerformComputerTask states when it is returned |
| Workflows.GaveUp | planar_computer_use/workflows.py:48 | the exception after 25 turns; PerformComputerTask states when it is raised |
| Workflows.FirstTurn | planar_computer_use/workflows.py:31-40 | the first turn below 25 on which the test holds, with no earlier one; or there is none |
| Workflows.Planned | planar_computer_use/workflows.py:32-36 | k turns make k planner calls |
| Workflows.Executed | planar_computer_use/workflows.py:42-45 | k turns make k executor calls |
| Workflows.PerformComputerTask | planar_computer_use/workflows.py:19-48 | not connected: the failure message and no oracle calls; first completion at turn k: "Goal '{goal}' achieved." after k+1 planner calls and k executor calls; never: the exception naming the goal and 25 turns after 25 of each; never more than 25 planner calls |
| Workflows.PlannedAt | planar_computer_use/workflows.py:32-36 | turn i's planner call gets turn i's screenshot and the goal |
| Workflows.ExecutedAt | planar_computer_use/workflows.py:42-45 | turn i's executor call gets the same screenshot and the normalised step |
| Workflows.BeforeFirstCompletion | planar_computer_use/workflows.py:39-40 | no turn before the first completion has a completing reply |
| Workflows.NormalisePadded | planar_computer_use/workflows.py:37 | whitespace around a reply does not change its step |
| Workflows.PaddedCompletion | planar_computer_use/workflows.py:37-40 | "Complete." with whitespace around it completes the task |
| Workflows.CompleteDot | planar_computer_use/workflows.py:37 | "Complete." normalises to "complete" |
| Workflows.DropDot | planar_computer_use/workflows.py:37 | removing dots from "complete." gives "complete" |

## Left out

- The drawing in `draw_annotated_grid` and `draw_bounding_boxes`: lines, fonts, labels and outlines are PIL calls with no result beyond the coordinates.
- The asyncvnc protocol, screen capture, PNG and base64 encoding: a frame is an opaque string, and a failed capture is `None`.
- Concurrency: the updater task, the stop event, `wait_for` timeouts, cancellation and every `sleep`. The updater is modelled as one pass of its loop body (`Vnc.VNCManager.UpdaterStep`).
- Vnc.VNCManager.Connect: a failure after the handshake succeeded (in starting the updater task) is not modelled. The password only reaches the transport.
- The gradio and OS-Atlas network calls, temporary files and uploads (`_os_atlas_query_element_bbox`, `os_atlas_query_element_bbox`, `_os_atlas_query`, `os_atlas_query`, `upload_screenshot`). Only their reply parsing is modelled.
- The model loading, prompt building, `run_example`, `image_to_base64` and the Gradio UI in `os_atlas_run_local/app.py`.
- `draw_rectangle` and `highlight_ui_element`: they only chain localisation to an upload.
- `routes.py`, `agents.py`, `main.py`, `models.py` and `utils.py`: the planner, executor and grounding agents are oracles.
- Floating point: the grid division, `float(num)` and the rescale use exact reals. Binary rounding error is not modelled.
- Text.ParseInt: models `int()` on text that is already stripped, as at its one call site; `Text.StripTwice` shows `int()`'s own stripping would change nothing there. It accepts ASCII digits with one optional sign. Python also accepts underscores between digits and non-ASCII decimal digits. The error message quotes the text with plain quotes instead of Python's `repr` escaping.
- Text.Lower: lower-cases ASCII letters only. Python's `lower()` also maps other letters and can change the length.
- Text.UnsignedTokens, Text.SignedTokens: `\d` is taken as '0'-'9'. Python's `\d` in a str pattern also matches every other Unicode decimal digit, and `float()` and `int()` accept those, so a reply written in such digits is rejected here but parsed by the program.
- AtlasApp.UnpackError: uses the wording of Python releases before 3.14 for too many values.
- Grounding.GroundingAgentQueryElementBbox: the grounding agent's replies are a finite sequence, so the caller supplies at least `steps` of them.
- Workflows.PerformComputerTask: the session's own connect and disconnect around the loop are not modelled, since the context manager does not exist on the class. Neither are the executor's tool calls, because the executor is an oracle.

## Findings

| source | as written | input that shows it | evidently intended | confidence | as-written member | corrected member |
|---|---|---|---|---|---|---|
| planar_computer_use/tools.py:65-67 | `right_click_element` calls `click(x, y, button=2)`; the table at vnc_manager.py:183-184 maps 2 to transport button 1 (middle) | any right-click: the log receives `ButtonClick(1)` | a right click, `button=3`, which maps to transport button 2 | not executed | Tools.RightClickElement | Tools.RightClickElementIntended |
| planar_computer_use/grounding.py:91-92 | `cells[int(response.output.strip())]` with the reply `-1`, which the grounding prompt at agents.py:89 prescribes for an element it cannot see, selects the last cell through negative indexing | the element is not on screen and the agent replies `-1`: the loop narrows to the bottom-right cell | `-1` reported as "not visible" instead of being used as an index | not executed | Grounding.MinusOneSelectsLast | Grounding.SelectCellIntended |
