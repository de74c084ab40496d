/** The local OS-Atlas demo's reply handling (`os_atlas_run_local/app.py`):
    reading the object reference and the box out of the model's text, and
    scaling the box from the model's 1000 x 1000 frame to the image. */
module AtlasApp {
  import opened Errors
  import opened Text
  import opened Grounding
  import opened OsAtlas

  const RefStart: string := "<|object_ref_start|>"
  const RefEnd: string := "<|object_ref_end|>"
  /** The frame the model reports coordinates in, when the caller gives none. */
  const DefaultScale: int := 1000

  // ---------------------------------------------------------------------
  // parse_bounding_box_info
  // ---------------------------------------------------------------------

  /** The four coordinates of a box, read by `-?\d+` and `int()`. */
  function Coordinates(toks: seq<string>): (c: seq<int>)
    requires |toks| == 4
    requires forall i :: 0 <= i < 4 ==> IsSignedNumeral(toks[i])
    ensures |c| == 4
  {
    [SignedValue(toks[0]), SignedValue(toks[1]), SignedValue(toks[2]), SignedValue(toks[3])]
  }

  /** `parse_bounding_box_info(text)`: the object reference between the
      first reference markers, or None; and `[[x1, y1, x2, y2]]` when the
      stripped text between the first box markers holds exactly four
      integers, otherwise no box. It never raises: every `-?\d+` token is an
      integer literal, so the `except ValueError` branch cannot be taken. */
  function ParseBoundingBoxInfo(text: string): (r: (Option<string>, seq<seq<int>>))
    ensures r.0.None? <==> forall a, b :: !MatchAt(text, RefStart, RefEnd, a, b)
    ensures r.0.Some? ==> exists a: nat, b: nat ::
      MatchAt(text, RefStart, RefEnd, a, b) && r.0.value == text[a + |RefStart|..b]
    ensures |r.1| <= 1
    ensures |r.1| == 1 <==>
      Search(text, BoxStart, BoxEnd).Some? && |SignedTokens(Strip(Search(text, BoxStart, BoxEnd).value))| == 4
    ensures forall k :: 0 <= k < |r.1| ==> |r.1[k]| == 4
    ensures |r.1| == 1 ==> r.1[0] == Coordinates(SignedTokens(Strip(Search(text, BoxStart, BoxEnd).value)))
  {
    SearchSpec(text, RefStart, RefEnd);
    var objectRef := Search(text, RefStart, RefEnd);
    var boxes :=
      match Search(text, BoxStart, BoxEnd)
      case None => []
      case Some(content) =>
        var nums := SignedTokens(Strip(content));
        if |nums| == 4 then [Coordinates(nums)] else [];
    (objectRef, boxes)
  }

  /** The numbers `-?\d+` finds in `(x1,y1),(x2,y2)` are the four
      coordinates with their signs, and scanning carries on after the box. */
  lemma {:induction false} SignedBoxTextTokens(x1: int, y1: int, x2: int, y2: int, rest: string)
    ensures SignedTokens(BoxTextThen(x1, y1, x2, y2, rest))
      == [IntToDecimal(x1), IntToDecimal(y1), IntToDecimal(x2), IntToDecimal(y2)] + SignedTokens(rest)
  {
    var t4 := IntToDecimal(y2) + (")" + rest);
    SignedTokensNumeral(y2, ")" + rest);
    SignedTokensSkip(")", rest);
    var s4 := "," + t4;
    SignedTokensSkip(",", t4);
    var t3 := IntToDecimal(x2) + s4;
    SignedTokensNumeral(x2, s4);
    var s3 := "),(" + t3;
    SignedTokensSkip("),(", t3);
    var t2 := IntToDecimal(y1) + s3;
    SignedTokensNumeral(y1, s3);
    var s2 := "," + t2;
    SignedTokensSkip(",", t2);
    var t1 := IntToDecimal(x1) + s2;
    SignedTokensNumeral(x1, s2);
    SignedTokensSkip("(", t1);
    Cons4(IntToDecimal(x1), IntToDecimal(y1), IntToDecimal(x2), IntToDecimal(y2), SignedTokens(rest));
  }

  lemma SignedBoxTokens(x1: int, y1: int, x2: int, y2: int)
    ensures SignedTokens(BoxText(x1, y1, x2, y2))
      == [IntToDecimal(x1), IntToDecimal(y1), IntToDecimal(x2), IntToDecimal(y2)]
  {
    SignedBoxTextTokens(x1, y1, x2, y2, "");
    assert SignedTokens("") == [];
  }

  /** Stripping leaves a box written as `(x1,y1),(x2,y2)` as it is. */
  lemma StripBox(x1: int, y1: int, x2: int, y2: int)
    ensures Strip(BoxText(x1, y1, x2, y2)) == BoxText(x1, y1, x2, y2)
  {
    var t := BoxText(x1, y1, x2, y2);
    assert t[0] == '(' && t[|t| - 1] == ')';
    StripPadded([], t, []);
    assert [] + t + [] == t;
  }

  /** The four coordinates of `(x1,y1),(x2,y2)`, read back in order and
      with their signs. */
  lemma BoxCoordinates(x1: int, y1: int, x2: int, y2: int)
    ensures Strip(BoxText(x1, y1, x2, y2)) == BoxText(x1, y1, x2, y2)
    ensures |SignedTokens(BoxText(x1, y1, x2, y2))| == 4
    ensures Coordinates(SignedTokens(BoxText(x1, y1, x2, y2))) == [x1, y1, x2, y2]
  {
    StripBox(x1, y1, x2, y2);
    SignedBoxTokens(x1, y1, x2, y2);
    SignedValueOfDecimal(x1);
    SignedValueOfDecimal(y1);
    SignedValueOfDecimal(x2);
    SignedValueOfDecimal(y2);
  }

  /** A reply `<|object_ref_start|>name<|object_ref_end|>` followed by
      anything names that object. */
  lemma ObjectRefReply(name: string, rest: string)
    requires '<' !in name && '\n' !in name
    ensures ParseBoundingBoxInfo(RefStart + name + RefEnd + rest).0 == Some(name)
  {
    assert [] + RefStart + name + RefEnd + rest == RefStart + name + RefEnd + rest;
    SearchWrapped([], RefStart, RefEnd, name, rest);
  }

  /** A reply `<|box_start|>(x1,y1),(x2,y2)<|box_end|>`, after any text with
      no `<` in it, gives the one box of the four coordinates, signs kept. */
  lemma BoxReply(p: string, x1: int, y1: int, x2: int, y2: int, rest: string)
    requires '<' !in p
    ensures ParseBoundingBoxInfo(p + BoxStart + BoxText(x1, y1, x2, y2) + BoxEnd + rest).1 == [[x1, y1, x2, y2]]
  {
    BoxOnlyChars(x1, y1, x2, y2);
    SearchAfterPlain(p, BoxStart, BoxEnd, BoxText(x1, y1, x2, y2), rest);
    BoxCoordinates(x1, y1, x2, y2);
  }

  /** Without box markers there is no box, and nothing is raised. */
  lemma NoBoxMarkers(text: string)
    requires '<' !in text
    ensures ParseBoundingBoxInfo(text) == (None, [])
  {
    SearchAbsent(text, RefStart, RefEnd);
    SearchAbsent(text, BoxStart, BoxEnd);
  }

  /** Two numbers between the box markers are not a box. */
  lemma PointIsNoBox(x: int, y: int, rest: string)
    ensures ParseBoundingBoxInfo(BoxStart + PointText(x, y) + BoxEnd + rest).1 == []
  {
    PointChars(x, y);
    Boxed(PointText(x, y), rest);
    StripPoint(x, y);
    SignedPointTokens(x, y);
  }

  lemma StripPoint(x: int, y: int)
    ensures Strip(PointText(x, y)) == PointText(x, y)
  {
    var t := PointText(x, y);
    assert t[0] == '(' && t[|t| - 1] == ')';
    StripPadded([], t, []);
    assert [] + t + [] == t;
  }

  lemma SignedPointTokens(x: int, y: int)
    ensures SignedTokens(PointText(x, y)) == [IntToDecimal(x), IntToDecimal(y)]
  {
    var t2 := IntToDecimal(y) + ")";
    SignedTokensSkip(")", "");
    assert ")" + "" == ")";
    SignedTokensNumeral(y, ")");
    SignedTokensSkip(",", t2);
    SignedTokensNumeral(x, "," + t2);
    SignedTokensSkip("(", IntToDecimal(x) + ("," + t2));
    assert SignedTokens("") == [];
  }

  // ---------------------------------------------------------------------
  // rescale_bounding_boxes
  // ---------------------------------------------------------------------

  /** One box, x coordinates scaled by xs and y coordinates by ys. */
  function RescaleBox(box: seq<int>, xs: real, ys: real): (r: seq<real>)
    requires |box| == 4
    ensures |r| == 4
  {
    [box[0] as real * xs, box[1] as real * ys, box[2] as real * xs, box[3] as real * ys]
  }

  /** What unpacking `xmin, ymin, xmax, ymax = box` raises for a box of n
      values, n != 4. */
  function UnpackError(n: nat): Error
  {
    if n > 4 then ValueError("too many values to unpack (expected 4)")
    else ValueError("not enough values to unpack (expected 4, got " + NatToDecimal(n) + ")")
  }

  /** `rescale_bounding_boxes(bounding_boxes, original_width, original_height,
      scaled_width, scaled_height)`: a zero scale divisor raises before any
      box is read; otherwise every box is scaled, in order, and the first box
      without exactly four values raises. */
  method RescaleBoundingBoxes(boxes: seq<seq<int>>, ow: int, oh: int, sw: int, sh: int)
    returns (r: Result<seq<seq<real>>>)
    ensures sw == 0 || sh == 0 ==> r == Err(ZeroDivisionError)
    ensures sw != 0 && sh != 0 && (forall k :: 0 <= k < |boxes| ==> |boxes[k]| == 4) ==>
      && r.Ok? && |r.value| == |boxes|
      && forall k :: 0 <= k < |boxes| ==>
           r.value[k] == RescaleBox(boxes[k], ow as real / sw as real, oh as real / sh as real)
    ensures sw != 0 && sh != 0 && r.Err? ==>
      exists k :: (0 <= k < |boxes| && |boxes[k]| != 4 &&
        (forall j :: 0 <= j < k ==> |boxes[j]| == 4) && r.error == UnpackError(|boxes[k]|))
  {
    if sw == 0 || sh == 0 {
      return Err(ZeroDivisionError);
    }
    var xs := ow as real / sw as real;
    var ys := oh as real / sh as real;
    var rescaled: seq<seq<real>> := [];
    for k := 0 to |boxes|
      invariant |rescaled| == k
      invariant forall j :: 0 <= j < k ==> |boxes[j]| == 4 && rescaled[j] == RescaleBox(boxes[j], xs, ys)
    {
      var box := boxes[k];
      if |box| != 4 {
        return Err(UnpackError(|box|));
      }
      rescaled := rescaled + [RescaleBox(box, xs, ys)];
    }
    r := Ok(rescaled);
  }

  /** In the default 1000 x 1000 frame, 0 maps to 0 and 1000 maps to the
      image's width on x and its height on y. */
  lemma DefaultScaleCorners(ow: int, oh: int)
    ensures RescaleBox([0, 0, DefaultScale, DefaultScale], ow as real / DefaultScale as real, oh as real / DefaultScale as real)
      == [0.0, 0.0, ow as real, oh as real]
  {
    var xs := ow as real / DefaultScale as real;
    var ys := oh as real / DefaultScale as real;
    var r := RescaleBox([0, 0, DefaultScale, DefaultScale], xs, ys);
    assert r[0] == 0.0 && r[1] == 0.0;
    assert r[2] == DefaultScale as real * xs == ow as real;
    assert r[3] == DefaultScale as real * ys == oh as real;
  }

  /** Dividing a scaled coordinate by its scale gives the coordinate back,
      and a non-negative scale keeps the corners' order on each axis. */
  lemma RescaleInverse(box: seq<int>, xs: real, ys: real)
    requires |box| == 4 && xs != 0.0 && ys != 0.0
    ensures RescaleBox(box, xs, ys)[0] / xs == box[0] as real
    ensures RescaleBox(box, xs, ys)[1] / ys == box[1] as real
    ensures RescaleBox(box, xs, ys)[2] / xs == box[2] as real
    ensures RescaleBox(box, xs, ys)[3] / ys == box[3] as real
  {
  }

  lemma RescaleMonotone(box: seq<int>, xs: real, ys: real)
    requires |box| == 4 && xs >= 0.0 && ys >= 0.0
    requires box[0] <= box[2] && box[1] <= box[3]
    ensures RescaleBox(box, xs, ys)[0] <= RescaleBox(box, xs, ys)[2]
    ensures RescaleBox(box, xs, ys)[1] <= RescaleBox(box, xs, ys)[3]
  {
    assert (box[2] - box[0]) as real * xs >= 0.0;
    assert (box[3] - box[1]) as real * ys >= 0.0;
  }
}
