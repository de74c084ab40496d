/** The OS-Atlas point parser (`osatlas.py`): a reply naming a point or a
    box becomes one screen position. */
module OsAtlas {
  import opened Errors
  import opened Numeric
  import opened Text
  import opened Grid
  import opened Grounding

  /** The position a list of numerals names: two numbers are a point,
      each truncated by `int()`; four or more are a box, whose first and
      third, and second and fourth, are averaged with floor division; any
      other count names nothing. */
  function PositionOf(nums: seq<string>): (p: Option<(int, int)>)
    requires forall i :: 0 <= i < |nums| ==> IsUnsignedNumeral(nums[i])
    ensures p.Some? <==> |nums| == 2 || |nums| >= 4
    ensures p.Some? ==> p.value.0 >= 0 && p.value.1 >= 0
    ensures |nums| == 2 ==> FloorOf(NumeralValue(nums[0]), p.value.0) && FloorOf(NumeralValue(nums[1]), p.value.1)
    ensures |nums| >= 4 ==>
      && FloorOf((NumeralValue(nums[0]) + NumeralValue(nums[2])) / 2.0, p.value.0)
      && FloorOf((NumeralValue(nums[1]) + NumeralValue(nums[3])) / 2.0, p.value.1)
  {
    if |nums| == 2 then
      Some((Trunc(NumeralValue(nums[0])), Trunc(NumeralValue(nums[1]))))
    else if |nums| >= 4 then
      Some((Floor((NumeralValue(nums[0]) + NumeralValue(nums[2])) / 2.0),
            Floor((NumeralValue(nums[1]) + NumeralValue(nums[3])) / 2.0)))
    else None
  }

  /** `extract_bbox_midpoint(bbox_response)`: the numbers of the inner text
      name a point or a box; any other count raises. */
  function ExtractBboxMidpoint(response: string): (r: Result<(int, int)>)
    ensures r.Ok? <==> |UnsignedTokens(InnerText(response))| == 2 || |UnsignedTokens(InnerText(response))| >= 4
    ensures r.Err? ==> r.error == Exception("Unexpected bbox format: " + response)
    ensures r.Ok? ==> r.value.0 >= 0 && r.value.1 >= 0
    ensures var nums := UnsignedTokens(InnerText(response)); |nums| == 2 ==>
      FloorOf(NumeralValue(nums[0]), r.value.0) && FloorOf(NumeralValue(nums[1]), r.value.1)
    ensures var nums := UnsignedTokens(InnerText(response)); |nums| >= 4 ==>
      && FloorOf((NumeralValue(nums[0]) + NumeralValue(nums[2])) / 2.0, r.value.0)
      && FloorOf((NumeralValue(nums[1]) + NumeralValue(nums[3])) / 2.0, r.value.1)
  {
    match PositionOf(UnsignedTokens(InnerText(response)))
    case Some(p) => Ok(p)
    case None => Err(Exception("Unexpected bbox format: " + response))
  }

  /** A box of decimals: (12.5 + 40.5) // 2 and (3.7 + 9.2) // 2 are 26 and 6. */
  lemma DecimalBoxPosition(response: string)
    requires var nums := UnsignedTokens(InnerText(response));
      && |nums| == 4 && NumeralValue(nums[0]) == 12.5 && NumeralValue(nums[1]) == 3.7
      && NumeralValue(nums[2]) == 40.5 && NumeralValue(nums[3]) == 9.2
    ensures ExtractBboxMidpoint(response) == Ok((26, 6))
  {
    var p := ExtractBboxMidpoint(response).value;
    assert FloorOf(26.5, p.0) && FloorOf(6.45, p.1);
  }

  /** A point of decimals is truncated: 12.5 and 3.7 give 12 and 3. */
  lemma DecimalPointPosition(response: string)
    requires var nums := UnsignedTokens(InnerText(response));
      |nums| == 2 && NumeralValue(nums[0]) == 12.5 && NumeralValue(nums[1]) == 3.7
    ensures ExtractBboxMidpoint(response) == Ok((12, 3))
  {
    var p := ExtractBboxMidpoint(response).value;
    assert FloorOf(12.5, p.0) && FloorOf(3.7, p.1);
  }

  /** `(x,y)` with each coordinate written by `str`. */
  function PointText(x: int, y: int): string
  {
    "(" + (IntToDecimal(x) + ("," + (IntToDecimal(y) + ")")))
  }

  /** A written point has no `<` and no line break. */
  lemma PointChars(x: int, y: int)
    ensures '<' !in PointText(x, y) && '\n' !in PointText(x, y)
  {
    DecimalChars(y);
    var u := "," + (IntToDecimal(y) + ")");
    assert '<' !in u && '\n' !in u;
    DecimalChars(x);
  }

  /** The unsigned pattern reads `(x,y)` as the two magnitudes. */
  lemma PointTokens(x: int, y: int)
    ensures UnsignedTokens(PointText(x, y)) == [NatToDecimal(Abs(x)), NatToDecimal(Abs(y))]
  {
    var t2 := IntToDecimal(y) + ")";
    UnsignedTokensOfInt(y, ")");
    UnsignedTokensSkip(")", "");
    assert ")" + "" == ")";
    var s2 := "," + t2;
    UnsignedTokensSkip(",", t2);
    var t1 := IntToDecimal(x) + s2;
    UnsignedTokensOfInt(x, s2);
    UnsignedTokensSkip("(", t1);
    assert UnsignedTokens("") == [];
  }

  /** A boxed point reply gives the point's magnitudes. */
  lemma PointReply(x: int, y: int, rest: string)
    ensures ExtractBboxMidpoint(BoxStart + PointText(x, y) + BoxEnd + rest) == Ok((Abs(x), Abs(y)))
  {
    PointTokens(x, y);
    PointChars(x, y);
    Boxed(PointText(x, y), rest);
    NumeralValueOfDecimal(Abs(x));
    NumeralValueOfDecimal(Abs(y));
  }

  /** Four decimal numerals give the floor-halved sums of the first and
      third, and of the second and fourth, whatever follows them. */
  lemma BoxPosition(a: nat, b: nat, c: nat, d: nat, more: seq<string>)
    requires forall i :: 0 <= i < |more| ==> IsUnsignedNumeral(more[i])
    ensures forall i :: 0 <= i < 4 + |more| ==>
      IsUnsignedNumeral(([NatToDecimal(a), NatToDecimal(b), NatToDecimal(c), NatToDecimal(d)] + more)[i])
    ensures PositionOf([NatToDecimal(a), NatToDecimal(b), NatToDecimal(c), NatToDecimal(d)] + more)
      == Some(Midpoint(Rect(a, b, c, d)))
  {
    NumeralValueOfDecimal(a);
    NumeralValueOfDecimal(b);
    NumeralValueOfDecimal(c);
    NumeralValueOfDecimal(d);
    NumeralsPosition(NatToDecimal(a), NatToDecimal(b), NatToDecimal(c), NatToDecimal(d), a, b, c, d, more);
  }

  lemma NumeralsPosition(ta: string, tb: string, tc: string, td: string, a: nat, b: nat, c: nat, d: nat, more: seq<string>)
    requires IsUnsignedNumeral(ta) && NumeralValue(ta) == a as real
    requires IsUnsignedNumeral(tb) && NumeralValue(tb) == b as real
    requires IsUnsignedNumeral(tc) && NumeralValue(tc) == c as real
    requires IsUnsignedNumeral(td) && NumeralValue(td) == d as real
    requires forall i :: 0 <= i < |more| ==> IsUnsignedNumeral(more[i])
    ensures forall i :: 0 <= i < 4 + |more| ==> IsUnsignedNumeral(([ta, tb, tc, td] + more)[i])
    ensures PositionOf([ta, tb, tc, td] + more) == Some(Midpoint(Rect(a, b, c, d)))
  {
    var nums := [ta, tb, tc, td] + more;
    assert nums[0] == ta && nums[1] == tb && nums[2] == tc && nums[3] == td;
    assert forall i :: 0 <= i < |nums| ==> IsUnsignedNumeral(nums[i]);
    HalfSum(a, c);
    HalfSum(b, d);
  }

  lemma HalfSum(a: nat, c: nat)
    ensures Floor((a as real + c as real) / 2.0) == FloorDiv(a + c, 2)
  {
    assert a as real + c as real == (a + c) as real;
    FloorHalf(a + c);
  }

  /** On a boxed reply with integer corners, this parser and the grounding
      module's reply parser followed by its midpoint agree. */
  lemma BoxReplyAgrees(x1: int, y1: int, x2: int, y2: int, rest: string)
    ensures ParseAtlasReply(BoxStart + BoxText(x1, y1, x2, y2) + BoxEnd + rest).Ok?
    ensures ExtractBboxMidpoint(BoxStart + BoxText(x1, y1, x2, y2) + BoxEnd + rest)
      == Ok(Midpoint(ParseAtlasReply(BoxStart + BoxText(x1, y1, x2, y2) + BoxEnd + rest).value))
  {
    ParseBoxReply(x1, y1, x2, y2, rest);
    BoxInner(x1, y1, x2, y2, rest);
    BoxTokens(x1, y1, x2, y2);
    var nums := [NatToDecimal(Abs(x1)), NatToDecimal(Abs(y1)), NatToDecimal(Abs(x2)), NatToDecimal(Abs(y2))];
    assert nums + [] == nums;
    BoxPosition(Abs(x1), Abs(y1), Abs(x2), Abs(y2), []);
  }

  /** Numbers after the fourth play no part. */
  lemma ExtraNumbersIgnored(x1: int, y1: int, x2: int, y2: int, z: int)
    ensures ExtractBboxMidpoint(BoxTextThen(x1, y1, x2, y2, "," + IntToDecimal(z)))
      == Ok(Midpoint(Rect(Abs(x1), Abs(y1), Abs(x2), Abs(y2))))
  {
    var tail := "," + IntToDecimal(z);
    var reply := BoxTextThen(x1, y1, x2, y2, tail);
    DecimalChars(z);
    BoxTextChars(x1, y1, x2, y2, tail);
    SearchAbsent(reply, BoxStart, BoxEnd);
    BoxTextTokens(x1, y1, x2, y2, tail);
    BoxPosition(Abs(x1), Abs(y1), Abs(x2), Abs(y2), UnsignedTokens(tail));
  }
}
