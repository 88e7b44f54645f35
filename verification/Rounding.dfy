/** Python's round(): to the nearest integer, ties to even, on exact fractions. */
module Rounding {

  function RoundHalfEven(num: int, den: int): (r: int)
    requires den > 0
    ensures -den <= 2 * (r * den - num) <= den
    ensures 2 * (r * den - num) == den || 2 * (r * den - num) == -den ==> r % 2 == 0
  {
    var q, rem := num / den, num % den;
    assert q * den + rem == num;
    assert (q + 1) * den == q * den + den;
    if 2 * rem < den then q
    else if 2 * rem > den then q + 1
    else if q % 2 == 0 then q else q + 1
  }

  lemma Scale(d: int, den: int)
    requires den > 0
    ensures d >= 2 ==> d * den >= 2 * den
    ensures d <= -2 ==> d * den <= -2 * den
    ensures d == 1 ==> d * den == den
    ensures d == -1 ==> d * den == -den
  {
  }

  /** The nearest integer is unique, up to the even one of a tie. */
  lemma RoundUnique(num: int, den: int, r: int)
    requires den > 0
    requires -den <= 2 * (r * den - num) <= den
    requires 2 * (r * den - num) == den || 2 * (r * den - num) == -den ==> r % 2 == 0
    ensures RoundHalfEven(num, den) == r
  {
    hide RoundHalfEven;
    var s := RoundHalfEven(num, den);
    NearestUnique(r * den, s * den, r, s, num, den);
  }

  lemma NearestUnique(rd: int, sd: int, r: int, s: int, num: int, den: int)
    requires den > 0 && rd == r * den && sd == s * den
    requires -den <= 2 * (rd - num) <= den && -den <= 2 * (sd - num) <= den
    requires 2 * (rd - num) == den || 2 * (rd - num) == -den ==> r % 2 == 0
    requires 2 * (sd - num) == den || 2 * (sd - num) == -den ==> s % 2 == 0
    ensures r == s
  {
    assert (r - s) * den == rd - sd;
    Scale(r - s, den);
  }

  /** Exactly when a fraction rounds to r. */
  lemma RoundIff(num: int, den: int, r: int)
    requires den > 0
    ensures var twice := 2 * (r * den - num);
            RoundHalfEven(num, den) == r <==> -den < twice < den || ((twice == den || twice == -den) && r % 2 == 0)
  {
    if var twice := 2 * (r * den - num); -den < twice < den || ((twice == den || twice == -den) && r % 2 == 0) {
      RoundUnique(num, den, r);
    }
  }
}
