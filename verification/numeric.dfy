/** Integer stand-ins for the floating-point arithmetic of the backend. */
module Numeric {

  function Min(a: int, b: int): (r: int)
    ensures r <= a && r <= b
    ensures r == a || r == b
  {
    if a <= b then a else b
  }

  /** `Math.round((part / whole) * 100)` computed on exact rationals:
      the nearest integer to the percentage, half-way cases rounded up. */
  function RoundedPercent(part: int, whole: int): (r: int)
    requires whole > 0
    ensures -whole < 2 * (r * whole - 100 * part) <= whole
  {
    var num, den := 200 * part + whole, 2 * whole;
    var q := num / den;
    assert num == q * den + num % den;
    q
  }

  /** A non-zero multiple of a positive number is at least that number away from zero. */
  lemma MultipleBound(d: int, den: int)
    requires den > 0
    ensures d >= 1 ==> d * den >= den
    ensures d <= -1 ==> d * den <= -den
  {
  }

  /** Integer division is determined by the bracket its quotient falls in. */
  lemma DivIsUnique(num: int, den: int, q: int)
    requires den > 0
    requires q * den <= num < q * den + den
    ensures num / den == q
  {
    var q', m := num / den, num % den;
    assert num == q' * den + m && 0 <= m < den;
    var d := q' - q;
    assert d * den == q' * den - q * den;
    MultipleBound(d, den);
  }

  lemma DivMonotone(a: int, b: int, den: int)
    requires den > 0 && a <= b
    ensures a / den <= b / den
  {
    var qa, ma, qb, mb := a / den, a % den, b / den, b % den;
    assert a == qa * den + ma && 0 <= ma < den;
    assert b == qb * den + mb && 0 <= mb < den;
    var d := qa - qb;
    assert d * den == qa * den - qb * den;
    MultipleBound(d, den);
  }

  /** The rounded percentage of a part between zero and the whole lies in [0, 100],
      and the extremes are reached exactly at the extremes. */
  lemma RoundedPercentBounds(part: int, whole: int)
    requires whole > 0 && 0 <= part <= whole
    ensures 0 <= RoundedPercent(part, whole) <= 100
    ensures part == 0 ==> RoundedPercent(part, whole) == 0
    ensures part == whole ==> RoundedPercent(part, whole) == 100
  {
    var den := 2 * whole;
    DivIsUnique(whole, den, 0);
    DivIsUnique(201 * whole, den, 100);
    DivMonotone(whole, 200 * part + whole, den);
    DivMonotone(200 * part + whole, 201 * whole, den);
  }
}
