/** The string handling the Python code takes from its standard library:
    `re.search` with a lazy group between two markers, `re.findall` for the
    number patterns `\d+\.\d+|\d+` and `-?\d+`, `str.strip`, `str.lower`,
    `str.replace(".", "")`, `int(str)`, `str(int)` and `", ".join`. */
module Text {
  import opened Errors

  // ---------------------------------------------------------------------
  // Decimal digits and numerals
  // ---------------------------------------------------------------------

  predicate IsDigit(c: char) { '0' <= c <= '9' }

  predicate AllDigits(s: string) { forall i :: 0 <= i < |s| ==> IsDigit(s[i]) }

  function DigitValue(c: char): (d: nat)
    requires IsDigit(c)
    ensures d < 10
  {
    c as int - '0' as int
  }

  function DigitChar(d: nat): (c: char)
    requires d < 10
    ensures IsDigit(c) && DigitValue(c) == d
  {
    ('0' as int + d) as char
  }

  /** The number a run of decimal digits denotes, most significant first. */
  function DigitsValue(s: string): nat
    requires AllDigits(s)
    decreases |s|
  {
    if s == [] then 0 else DigitsValue(s[..|s| - 1]) * 10 + DigitValue(s[|s| - 1])
  }

  function Pow10(n: nat): (p: nat)
    ensures p >= 1
  {
    if n == 0 then 1 else 10 * Pow10(n - 1)
  }

  /** `str(n)` for a non-negative int: digits only, no leading zero. */
  function NatToDecimal(n: nat): (s: string)
    ensures |s| >= 1 && AllDigits(s)
    ensures |s| > 1 ==> s[0] != '0'
    decreases n
  {
    if n < 10 then [DigitChar(n)] else NatToDecimal(n / 10) + [DigitChar(n % 10)]
  }

  /** `str(z)` for any int. */
  function IntToDecimal(z: int): string
  {
    if z < 0 then "-" + NatToDecimal(-z) else NatToDecimal(z)
  }

  lemma {:induction false} NatToDecimalValue(n: nat)
    ensures DigitsValue(NatToDecimal(n)) == n
    decreases n
  {
    if n >= 10 {
      var s := NatToDecimal(n);
      assert s[..|s| - 1] == NatToDecimal(n / 10);
      NatToDecimalValue(n / 10);
    }
  }

  /** Length of the longest run of digits at the start of `s`. */
  function DigitRun(s: string): (n: nat)
    ensures n <= |s| && AllDigits(s[..n])
    ensures n < |s| ==> !IsDigit(s[n])
  {
    if s == [] || !IsDigit(s[0]) then 0 else 1 + DigitRun(s[1..])
  }

  lemma {:induction false} DigitRunOfDigits(d: string, rest: string)
    requires AllDigits(d)
    requires rest == [] || !IsDigit(rest[0])
    ensures DigitRun(d + rest) == |d|
    decreases |d|
  {
    if d != [] {
      assert (d + rest)[1..] == d[1..] + rest;
      DigitRunOfDigits(d[1..], rest);
    } else {
      assert d + rest == rest;
    }
  }

  /** A token of `\d+\.\d+|\d+`: digits, optionally a point and more digits. */
  predicate IsUnsignedNumeral(t: string)
  {
    var d := DigitRun(t);
    d > 0 && (d == |t| || (t[d] == '.' && d + 1 < |t| && AllDigits(t[d + 1..])))
  }

  /** A token of `-?\d+`: an optional minus sign, then digits. */
  predicate IsSignedNumeral(t: string)
  {
    if |t| > 0 && t[0] == '-' then |t| > 1 && AllDigits(t[1..]) else |t| > 0 && AllDigits(t)
  }

  /** `float(t)` of an unsigned token, as the exact decimal it spells. */
  function NumeralValue(t: string): (v: real)
    requires IsUnsignedNumeral(t)
    ensures v >= 0.0
  {
    var d := DigitRun(t);
    if d == |t| then DigitsValue(t) as real
    else DigitsValue(t[..d]) as real + DigitsValue(t[d + 1..]) as real / Pow10(|t| - d - 1) as real
  }

  /** `int(t)` of a signed token. */
  function SignedValue(t: string): int
    requires IsSignedNumeral(t)
  {
    if t[0] == '-' then -(DigitsValue(t[1..]) as int) else DigitsValue(t)
  }

  lemma NumeralValueOfDecimal(n: nat)
    ensures IsUnsignedNumeral(NatToDecimal(n)) && NumeralValue(NatToDecimal(n)) == n as real
  {
    DigitRunOfDigits(NatToDecimal(n), []);
    assert NatToDecimal(n) + [] == NatToDecimal(n);
    NatToDecimalValue(n);
  }

  lemma SignedValueOfDecimal(z: int)
    ensures IsSignedNumeral(IntToDecimal(z)) && SignedValue(IntToDecimal(z)) == z
  {
    if z < 0 {
      assert IntToDecimal(z)[1..] == NatToDecimal(-z);
      NatToDecimalValue(-z);
    } else {
      NatToDecimalValue(z);
    }
  }

  // ---------------------------------------------------------------------
  // re.findall for the two number patterns
  // ---------------------------------------------------------------------

  /** `re.findall(r"\d+\.\d+|\d+", s)`: scanning left to right, a maximal digit
      run followed by a point and a digit is taken together with the digits
      after the point; otherwise the digit run alone. Nothing else matches. */
  function UnsignedTokens(s: string): (r: seq<string>)
    ensures forall i :: 0 <= i < |r| ==> IsUnsignedNumeral(r[i])
    decreases |s|
  {
    if s == [] then []
    else if !IsDigit(s[0]) then UnsignedTokens(s[1..])
    else
      var d := DigitRun(s);
      if d + 1 < |s| && s[d] == '.' && IsDigit(s[d + 1]) then
        var e := d + 1 + DigitRun(s[d + 1..]);
        UnsignedNumeralShape(s, d, e);
        [s[..e]] + UnsignedTokens(s[e..])
      else
        assert DigitRun(s[..d]) == d by { DigitRunOfDigits(s[..d], []); assert s[..d] + [] == s[..d]; }
        [s[..d]] + UnsignedTokens(s[d..])
  }

  lemma UnsignedNumeralShape(s: string, d: nat, e: nat)
    requires 0 < d && d + 1 < |s| && d == DigitRun(s) && s[d] == '.' && IsDigit(s[d + 1])
    requires e == d + 1 + DigitRun(s[d + 1..])
    ensures e <= |s| && IsUnsignedNumeral(s[..e])
  {
    var t := s[..e];
    assert t[..d] == s[..d];
    DigitRunOfDigits(s[..d], t[d..]);
    assert t == s[..d] + t[d..];
    assert t[d + 1..] == s[d + 1..][..DigitRun(s[d + 1..])];
  }

  /** `re.findall(r"-?\d+", s)`: a minus sign directly before a digit run
      belongs to the token; any other character is skipped. */
  function SignedTokens(s: string): (r: seq<string>)
    ensures forall i :: 0 <= i < |r| ==> IsSignedNumeral(r[i])
    decreases |s|
  {
    if s == [] then []
    else if s[0] == '-' && |s| > 1 && IsDigit(s[1]) then
      var d := 1 + DigitRun(s[1..]);
      assert s[..d][1..] == s[1..][..d - 1];
      [s[..d]] + SignedTokens(s[d..])
    else if IsDigit(s[0]) then
      var d := DigitRun(s);
      [s[..d]] + SignedTokens(s[d..])
    else SignedTokens(s[1..])
  }

  lemma {:induction false} UnsignedTokensSkip(p: string, rest: string)
    requires forall i :: 0 <= i < |p| ==> !IsDigit(p[i])
    ensures UnsignedTokens(p + rest) == UnsignedTokens(rest)
    decreases |p|
  {
    if p == [] {
      assert p + rest == rest;
    } else {
      assert (p + rest)[1..] == p[1..] + rest;
      UnsignedTokensSkip(p[1..], rest);
    }
  }

  /** Digits, a point and digits, followed by a non-digit, are one token of
      the decimal alternative. */
  lemma UnsignedTokensDecimalRun(ip: string, fp: string, rest: string)
    requires |ip| > 0 && AllDigits(ip) && |fp| > 0 && AllDigits(fp)
    requires rest == [] || !IsDigit(rest[0])
    ensures UnsignedTokens(ip + "." + fp + rest) == [ip + "." + fp] + UnsignedTokens(rest)
  {
    var s := ip + "." + fp + rest;
    var e := |ip| + 1 + |fp|;
    DecimalRunScan(ip, fp, rest);
    assert UnsignedTokens(s) == [s[..e]] + UnsignedTokens(s[e..]);
  }

  /** `float()` of such a token: the integer part plus the fraction digits
      over the matching power of ten. */
  lemma DecimalValue(ip: string, fp: string)
    requires |ip| > 0 && AllDigits(ip) && |fp| > 0 && AllDigits(fp)
    ensures IsUnsignedNumeral(ip + "." + fp)
    ensures NumeralValue(ip + "." + fp) == DigitsValue(ip) as real + DigitsValue(fp) as real / Pow10(|fp|) as real
  {
    DecimalRunScan(ip, fp, []);
    var s := ip + "." + fp;
    assert s + [] == s;
    var d := |ip|;
    assert DigitRun(s) == d && d + 1 < |s| && s[d] == '.';
    assert s[..d] == ip && s[d + 1..] == fp && |s| - d - 1 == |fp|;
  }

  /** How `UnsignedTokens` scans such a run: the digit runs before and after
      the point, and the pieces the token and the rest are cut at. */
  lemma DecimalRunScan(ip: string, fp: string, rest: string)
    requires |ip| > 0 && AllDigits(ip) && |fp| > 0 && AllDigits(fp)
    requires rest == [] || !IsDigit(rest[0])
    ensures var s := ip + "." + fp + rest;
      && |s| > |ip| + 1 && IsDigit(s[0]) && DigitRun(s) == |ip| && s[|ip|] == '.' && IsDigit(s[|ip| + 1])
      && DigitRun(s[|ip| + 1..]) == |fp|
      && s[..|ip| + 1 + |fp|] == ip + "." + fp && s[|ip| + 1 + |fp|..] == rest
  {
    var s := ip + "." + fp + rest;
    DecimalRunPieces(ip, fp, rest);
    DigitRunOfDigits(ip, "." + fp + rest);
    DigitRunOfDigits(fp, rest);
  }

  lemma DecimalRunPieces(ip: string, fp: string, rest: string)
    requires |ip| > 0 && |fp| > 0
    ensures var s := ip + "." + fp + rest;
      && s == ip + ("." + fp + rest) && s[|ip| + 1..] == fp + rest
      && s[0] == ip[0] && s[|ip|] == '.' && s[|ip| + 1] == fp[0]
      && s[..|ip| + 1 + |fp|] == ip + "." + fp && s[|ip| + 1 + |fp|..] == rest
  {
    var s := ip + "." + fp + rest;
    var h := ip + ".";
    assert s == h + (fp + rest);
    assert s[|h|..] == fp + rest;
  }

  /** A decimal numeral followed by neither a digit nor a point is one token. */
  lemma UnsignedTokensNumeral(n: nat, rest: string)
    requires rest == [] || (!IsDigit(rest[0]) && rest[0] != '.')
    ensures UnsignedTokens(NatToDecimal(n) + rest) == [NatToDecimal(n)] + UnsignedTokens(rest)
  {
    var dn := NatToDecimal(n);
    var s := dn + rest;
    DigitRunOfDigits(dn, rest);
    assert s[..|dn|] == dn && s[|dn|..] == rest;
  }

  lemma {:induction false} SignedTokensSkip(p: string, rest: string)
    requires forall i :: 0 <= i < |p| ==> !IsDigit(p[i]) && p[i] != '-'
    ensures SignedTokens(p + rest) == SignedTokens(rest)
    decreases |p|
  {
    if p == [] {
      assert p + rest == rest;
    } else {
      assert (p + rest)[1..] == p[1..] + rest;
      SignedTokensSkip(p[1..], rest);
    }
  }

  /** A digit run followed by a non-digit is one signed token. */
  lemma SignedTokensRun(dn: string, rest: string)
    requires |dn| > 0 && AllDigits(dn)
    requires rest == [] || !IsDigit(rest[0])
    ensures SignedTokens(dn + rest) == [dn] + SignedTokens(rest)
  {
    var s := dn + rest;
    DigitRunOfDigits(dn, rest);
    assert s[0] == dn[0];
    assert s[..|dn|] == dn && s[|dn|..] == rest;
  }

  /** So is a minus sign followed by such a run. */
  lemma SignedTokensMinusRun(dn: string, rest: string)
    requires |dn| > 0 && AllDigits(dn)
    requires rest == [] || !IsDigit(rest[0])
    ensures SignedTokens("-" + dn + rest) == ["-" + dn] + SignedTokens(rest)
  {
    var s := "-" + dn + rest;
    assert s[1..] == dn + rest;
    DigitRunOfDigits(dn, rest);
    assert s[..1 + |dn|] == "-" + dn && s[1 + |dn|..] == rest;
  }

  /** `str(z)` followed by a non-digit is one signed token. */
  lemma SignedTokensNumeral(z: int, rest: string)
    requires rest == [] || !IsDigit(rest[0])
    ensures SignedTokens(IntToDecimal(z) + rest) == [IntToDecimal(z)] + SignedTokens(rest)
  {
    if z < 0 {
      SignedTokensMinusRun(NatToDecimal(-z), rest);
    } else {
      SignedTokensRun(NatToDecimal(z), rest);
    }
  }

  // ---------------------------------------------------------------------
  // re.search for `<open>(.*?)<close>`
  // ---------------------------------------------------------------------

  predicate Occurs(s: string, pat: string, i: nat)
  {
    i + |pat| <= |s| && s[i..i + |pat|] == pat
  }

  /** No line break among s[a..b] (the regex `.` does not match '\n'). */
  predicate LineFree(s: string, a: int, b: int)
  {
    forall t :: a <= t < b && 0 <= t < |s| ==> s[t] != '\n'
  }

  /** `<open>(.*?)<close>` matches with `open` at a and `close` at b. */
  predicate MatchAt(s: string, open: string, close: string, a: nat, b: nat)
  {
    Occurs(s, open, a) && a + |open| <= b && Occurs(s, close, b) && LineFree(s, a + |open|, b)
  }

  /** The lazy group: the first `close` at or after k with no line break before it. */
  function FindClose(s: string, close: string, k: nat): (r: Option<nat>)
    requires |close| > 0
    ensures r.Some? ==> k <= r.value && Occurs(s, close, r.value) && LineFree(s, k, r.value)
    ensures r.Some? ==> forall j :: k <= j < r.value ==> !Occurs(s, close, j)
    ensures r.None? ==> forall j :: k <= j && Occurs(s, close, j) ==> !LineFree(s, k, j)
    decreases |s| - k
  {
    if k + |close| > |s| then None
    else if Occurs(s, close, k) then Some(k)
    else if s[k] == '\n' then None
    else FindClose(s, close, k + 1)
  }

  /** The leftmost match starting at or after i, with its lazy end. */
  function SearchFrom(s: string, open: string, close: string, i: nat): (r: Option<(nat, nat)>)
    requires |open| > 0 && |close| > 0
    ensures r.Some? ==> i <= r.value.0 && MatchAt(s, open, close, r.value.0, r.value.1)
    ensures r.Some? ==> forall a, b :: i <= a < r.value.0 ==> !MatchAt(s, open, close, a, b)
    ensures r.Some? ==> forall b: nat :: b < r.value.1 ==> !MatchAt(s, open, close, r.value.0, b)
    ensures r.None? ==> forall a, b :: i <= a ==> !MatchAt(s, open, close, a, b)
    decreases |s| - i
  {
    if i + |open| > |s| then None
    else if Occurs(s, open, i) && FindClose(s, close, i + |open|).Some? then
      Some((i, FindClose(s, close, i + |open|).value))
    else SearchFrom(s, open, close, i + 1)
  }

  /** `m = re.search(open + "(.*?)" + close, s)`; the result is `m.group(1)`
      when there is a match. */
  function Search(s: string, open: string, close: string): Option<string>
    requires |open| > 0 && |close| > 0
  {
    match SearchFrom(s, open, close, 0)
    case None => None
    case Some((a, b)) => Some(s[a + |open|..b])
  }

  /** There is a group exactly when the pattern matches somewhere, and the
      group is the text between the markers of a match. */
  lemma SearchSpec(s: string, open: string, close: string)
    requires |open| > 0 && |close| > 0
    ensures Search(s, open, close).None? <==> forall a, b :: !MatchAt(s, open, close, a, b)
    ensures Search(s, open, close).Some? ==> exists a: nat, b: nat ::
      MatchAt(s, open, close, a, b) && Search(s, open, close).value == s[a + |open|..b]
  {
    match SearchFrom(s, open, close, 0)
    case None =>
    case Some((a, b)) =>
      assert MatchAt(s, open, close, a, b);
  }

  lemma {:induction false} FindCloseAfter(s: string, close: string, k: nat, e: nat)
    requires |close| > 0 && k <= e && Occurs(s, close, e)
    requires forall t :: k <= t < e ==> s[t] != close[0] && s[t] != '\n'
    ensures FindClose(s, close, k) == Some(e)
    decreases e - k
  {
    if k < e {
      assert !Occurs(s, close, k) by { assert s[k..k + |close|][0] == s[k]; }
      FindCloseAfter(s, close, k + 1, e);
    }
  }

  /** A string without `open`'s first character has no match. */
  lemma SearchAbsent(s: string, open: string, close: string)
    requires |open| > 0 && |close| > 0 && open[0] !in s
    ensures Search(s, open, close) == None
  {
    forall a: nat, b: nat ensures !MatchAt(s, open, close, a, b) {
    }
    SearchSpec(s, open, close);
  }

  /** Positions where `open` does not occur are passed over. */
  lemma {:induction false} SearchFromSkip(s: string, open: string, close: string, i: nat, j: nat)
    requires |open| > 0 && |close| > 0 && i <= j
    requires forall t :: i <= t < j ==> !Occurs(s, open, t)
    requires j + |open| <= |s|
    ensures SearchFrom(s, open, close, i) == SearchFrom(s, open, close, j)
    decreases j - i
  {
    if i < j {
      SearchFromSkip(s, open, close, i + 1, j);
    }
  }

  /** The match that starts right after such a prefix ends at the first
      `close` after the inner text. */
  lemma WrappedAt(p: string, open: string, close: string, inner: string, rest: string)
    requires |open| > 0 && |close| > 0
    requires close[0] !in inner && '\n' !in inner
    ensures SearchFrom(p + open + inner + close + rest, open, close, |p|)
      == Some((|p|, |p| + |open| + |inner|))
  {
    var s := p + open + inner + close + rest;
    var o := |p| + |open|;
    var e := o + |inner|;
    assert s[|p|..o] == open;
    assert s[e..e + |close|] == close;
    forall t | o <= t < e ensures s[t] != close[0] && s[t] != '\n' {
      assert s[t] == inner[t - o];
    }
    FindCloseAfter(s, close, o, e);
    assert Occurs(s, open, |p|);
  }

  /** A string made of a prefix in which `open` never starts, then `open`,
      then text with no line break and no first character of `close`, then
      `close`, yields exactly that text. */
  lemma SearchWrapped(p: string, open: string, close: string, inner: string, rest: string)
    requires |open| > 0 && |close| > 0
    requires forall t :: 0 <= t < |p| ==> !Occurs(p + open + inner + close + rest, open, t)
    requires close[0] !in inner && '\n' !in inner
    ensures Search(p + open + inner + close + rest, open, close) == Some(inner)
  {
    var s := p + open + inner + close + rest;
    var e := |p| + |open| + |inner|;
    WrappedAt(p, open, close, inner, rest);
    SearchFromSkip(s, open, close, 0, |p|);
    assert SearchFrom(s, open, close, 0) == Some((|p|, e));
    assert s == (p + open) + inner + (close + rest);
    assert s[|p + open|..|p + open| + |inner|] == inner;
  }

  /** A match is still found after a prefix with no first character of
      `open` in it. */
  lemma SearchAfterPlain(p: string, open: string, close: string, inner: string, rest: string)
    requires |open| > 0 && |close| > 0 && open[0] !in p
    requires close[0] !in inner && '\n' !in inner
    ensures Search(p + open + inner + close + rest, open, close) == Some(inner)
  {
    var s := p + open + inner + close + rest;
    forall t | 0 <= t < |p| ensures !Occurs(s, open, t) {
      assert s[t] == p[t];
      if t + |open| <= |s| {
        assert s[t..t + |open|][0] == s[t];
      }
    }
    SearchWrapped(p, open, close, inner, rest);
  }

  // ---------------------------------------------------------------------
  // str.strip, str.lower, str.replace(".", ""), int(str), ", ".join
  // ---------------------------------------------------------------------

  /** `str.isspace` for one character (Python's whitespace set). */
  predicate IsSpace(c: char)
  {
    c == ' ' || '\t' <= c <= '\r' || '\U{1c}' <= c <= '\U{1f}' || c == '\U{85}' || c == '\U{a0}'
    || c == '\U{1680}' || '\U{2000}' <= c <= '\U{200a}' || c == '\U{2028}' || c == '\U{2029}'
    || c == '\U{202f}' || c == '\U{205f}' || c == '\U{3000}'
  }

  /** `s.lstrip()`. */
  function StripLeft(s: string): (r: string)
    ensures |r| <= |s|
  {
    if s != [] && IsSpace(s[0]) then StripLeft(s[1..]) else s
  }

  /** `lstrip` removes a prefix made of whitespace only, and what is left
      does not start with whitespace. */
  lemma {:induction false} StripLeftRemoves(s: string)
    ensures s[|s| - |StripLeft(s)|..] == StripLeft(s)
    ensures StripLeft(s) == [] || !IsSpace(StripLeft(s)[0])
    ensures forall i :: 0 <= i < |s| - |StripLeft(s)| ==> IsSpace(s[i])
    decreases |s|
  {
    if s != [] && IsSpace(s[0]) {
      StripLeftRemoves(s[1..]);
    }
  }

  /** `s.rstrip()`. */
  function StripRight(s: string): (r: string)
    ensures |r| <= |s|
  {
    if s != [] && IsSpace(s[|s| - 1]) then StripRight(s[..|s| - 1]) else s
  }

  /** `rstrip` removes a suffix made of whitespace only, and what is left
      does not end with whitespace. */
  lemma {:induction false} StripRightRemoves(s: string)
    ensures s[..|StripRight(s)|] == StripRight(s)
    ensures StripRight(s) == [] || !IsSpace(StripRight(s)[|StripRight(s)| - 1])
    ensures forall i :: |StripRight(s)| <= i < |s| ==> IsSpace(s[i])
    decreases |s|
  {
    if s != [] && IsSpace(s[|s| - 1]) {
      StripRightRemoves(s[..|s| - 1]);
    }
  }

  /** `s.strip()`. */
  function Strip(s: string): string
  {
    StripRight(StripLeft(s))
  }

  lemma {:induction false} StripLeftPadded(w: string, t: string)
    requires forall i :: 0 <= i < |w| ==> IsSpace(w[i])
    requires t == [] || !IsSpace(t[0])
    ensures StripLeft(w + t) == t
    decreases |w|
  {
    if w == [] {
      assert w + t == t;
    } else {
      assert (w + t)[1..] == w[1..] + t;
      StripLeftPadded(w[1..], t);
    }
  }

  lemma {:induction false} StripRightPadded(t: string, w: string)
    requires forall i :: 0 <= i < |w| ==> IsSpace(w[i])
    requires t == [] || !IsSpace(t[|t| - 1])
    ensures StripRight(t + w) == t
    decreases |w|
  {
    if w == [] {
      assert t + w == t;
    } else {
      assert (t + w)[..|t + w| - 1] == t + w[..|w| - 1];
      StripRightPadded(t, w[..|w| - 1]);
    }
  }

  /** Stripping removes exactly the surrounding whitespace. */
  lemma StripPadded(w1: string, t: string, w2: string)
    requires forall i :: 0 <= i < |w1| ==> IsSpace(w1[i])
    requires forall i :: 0 <= i < |w2| ==> IsSpace(w2[i])
    requires t == [] || (!IsSpace(t[0]) && !IsSpace(t[|t| - 1]))
    ensures Strip(w1 + t + w2) == t
  {
    if t == [] {
      assert w1 + t + w2 == w1 + w2;
      StripLeftPadded(w1 + w2, []);
      assert w1 + w2 + [] == w1 + w2;
      StripRightPadded([], []);
    } else {
      assert w1 + t + w2 == w1 + (t + w2);
      StripLeftPadded(w1, t + w2);
      StripRightPadded(t, w2);
    }
  }

  /** `str.lower` on one character (ASCII letters only). */
  function LowerChar(c: char): char
  {
    if 'A' <= c <= 'Z' then (c as int + 32) as char else c
  }

  /** `s.lower()`. */
  function Lower(s: string): (r: string)
    ensures |r| == |s|
  {
    seq(|s|, i requires 0 <= i < |s| => LowerChar(s[i]))
  }

  /** `s.replace(x, "")` for a one-character `x`. */
  function RemoveChar(s: string, x: char): (r: string)
    ensures x !in r && |r| <= |s|
  {
    if s == [] then [] else (if s[0] == x then [] else [s[0]]) + RemoveChar(s[1..], x)
  }

  /** Removing `x` keeps every other character, and only those. */
  lemma {:induction false} RemoveCharKeeps(s: string, x: char, c: char)
    requires c != x
    ensures c in RemoveChar(s, x) <==> c in s
  {
    if s != [] {
      RemoveCharKeeps(s[1..], x, c);
      assert s == [s[0]] + s[1..];
    }
  }

  /** Removing a character that does not occur changes nothing. */
  lemma {:induction false} RemoveCharAbsent(s: string, x: char)
    requires x !in s
    ensures RemoveChar(s, x) == s
  {
    if s != [] {
      RemoveCharAbsent(s[1..], x);
      assert s == [s[0]] + s[1..];
    }
  }

  /** Removal works piece by piece. */
  lemma {:induction false} RemoveCharConcat(s: string, t: string, x: char)
    ensures RemoveChar(s + t, x) == RemoveChar(s, x) + RemoveChar(t, x)
  {
    if s == [] {
      assert s + t == t;
    } else {
      var h: string := if s[0] == x then [] else [s[0]];
      assert (s + t)[0] == s[0];
      assert (s + t)[1..] == s[1..] + t;
      assert RemoveChar(s + t, x) == h + RemoveChar(s[1..] + t, x);
      RemoveCharConcat(s[1..], t, x);
      assert RemoveChar(s, x) == h + RemoveChar(s[1..], x);
      assert h + (RemoveChar(s[1..], x) + RemoveChar(t, x)) == (h + RemoveChar(s[1..], x)) + RemoveChar(t, x);
    }
  }

  /** `int(t)` in base 10 for a t that has already been stripped, as at its
      one call site (`int(reply.strip())`): an optional sign and one or more
      ASCII digits; anything else raises ValueError quoting t. The
      whitespace `int` would strip itself is gone already (StripTwice). */
  function ParseInt(t: string): (r: Result<int>)
    ensures r.Err? ==> r.error == ValueError("invalid literal for int() with base 10: '" + t + "'")
  {
    var body := if |t| > 0 && (t[0] == '-' || t[0] == '+') then t[1..] else t;
    if |body| > 0 && AllDigits(body) then
      Ok(if |t| > 0 && t[0] == '-' then -(DigitsValue(body) as int) else DigitsValue(body))
    else Err(ValueError("invalid literal for int() with base 10: '" + t + "'"))
  }

  /** Stripping a stripped string changes nothing. */
  lemma StripTwice(s: string)
    ensures Strip(Strip(s)) == Strip(s)
  {
    var u := StripLeft(s);
    var r := StripRight(u);
    StripLeftRemoves(s);
    StripRightRemoves(u);
    assert r == [] || r[0] == u[0];
    assert StripLeft(r) == r;
  }

  /** `str(z)` starts and ends with a character that is not whitespace. */
  lemma DecimalEnds(z: int)
    ensures |IntToDecimal(z)| > 0
    ensures !IsSpace(IntToDecimal(z)[0]) && !IsSpace(IntToDecimal(z)[|IntToDecimal(z)| - 1])
  {
    var d := IntToDecimal(z);
    var n := NatToDecimal(if z < 0 then -z else z);
    assert d[|d| - 1] == n[|n| - 1];
  }

  /** `int(str(z)) == z`. */
  lemma ParseIntOfDecimal(z: int)
    ensures ParseInt(IntToDecimal(z)) == Ok(z)
  {
    var d := IntToDecimal(z);
    var n := NatToDecimal(if z < 0 then -z else z);
    NatToDecimalValue(if z < 0 then -z else z);
    if z < 0 {
      assert d[1..] == n;
    } else {
      assert d[0] != '-' && d[0] != '+';
    }
  }

  /** `sep.join(xs)`. */
  function Join(xs: seq<string>, sep: string): string
  {
    if xs == [] then "" else if |xs| == 1 then xs[0] else xs[0] + sep + Join(xs[1..], sep)
  }
}
