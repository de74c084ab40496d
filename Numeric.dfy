/** Python's numeric conversions on exact values: `round` (half to even),
    floor division and `int()` of a float (truncation toward zero). */
module Numeric {

  /** `a // b` on Python ints for a positive divisor: the floor of a / b.
      Dafny's `/` is Euclidean, which agrees with floor division when b > 0. */
  function FloorDiv(a: int, b: int): (q: int)
    requires b > 0
    ensures q * b <= a < q * b + b
  {
    a / b
  }

  /** `math.floor` of an exact real. */
  function Floor(x: real): (f: int)
    ensures f as real <= x < f as real + 1.0
  {
    x.Floor
  }

  /** `int(x)` of a float: truncation toward zero. */
  function Trunc(x: real): (t: int)
    ensures x >= 0.0 ==> t == Floor(x)
    ensures -1.0 < x - t as real < 1.0
    ensures x >= 0.0 ==> 0 <= t
  {
    if x >= 0.0 then Floor(x) else -Floor(-x)
  }

  /** Python's built-in `round(x)` with no digits argument: the nearest
      integer, and on an exact tie the even one. */
  function Round(x: real): (r: int)
    ensures r as real - 0.5 <= x <= r as real + 0.5
    ensures x == r as real - 0.5 || x == r as real + 0.5 ==> r % 2 == 0
  {
    var f := x.Floor;
    var d := x - f as real;
    if d < 0.5 then f
    else if d > 0.5 then f + 1
    else if f % 2 == 0 then f
    else f + 1
  }

  /** r is what `round` makes of x: within 1/2 of it, and even on a tie.
      At most one integer qualifies (RoundsToUnique). */
  predicate RoundsTo(x: real, r: int)
  {
    && r as real - 0.5 <= x <= r as real + 0.5
    && (x == r as real - 0.5 || x == r as real + 0.5 ==> r % 2 == 0)
  }

  /** f is the floor of x. */
  predicate FloorOf(x: real, f: int)
  {
    f as real <= x < f as real + 1.0
  }

  /** Only one integer rounds from x, so `RoundsTo` pins the result down. */
  lemma RoundsToUnique(x: real, r: int, s: int)
    requires RoundsTo(x, r) && RoundsTo(x, s)
    ensures r == s
  {
  }

  /** Rounding an integral value gives that integer back. */
  lemma RoundIntegral(n: int)
    ensures Round(n as real) == n
  {
  }

  /** Rounding never reverses the order of two values. */
  lemma RoundMonotone(x: real, y: real)
    requires x <= y
    ensures Round(x) <= Round(y)
  {
  }

  /** Halving an integer as a float and flooring it agrees with integer
      floor division by 2. */
  lemma FloorHalf(n: int)
    ensures Floor(n as real / 2.0) == FloorDiv(n, 2)
  {
    var q := FloorDiv(n, 2);
    assert q as real <= n as real / 2.0 < q as real + 1.0;
  }
}
