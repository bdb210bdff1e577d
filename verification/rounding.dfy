/**
 * `Math.round(num / den)` for a positive denominator, in integer arithmetic.
 * JavaScript rounds half-way values up (towards +infinity), so the result r is
 * the unique integer with r - 1/2 <= num/den < r + 1/2.
 */
module Rounding {

  /** Scaled by 2 * den, the half-up bracket of Math.round. */
  predicate RoundsTo(num: int, den: int, r: int)
    requires den > 0
  {
    2 * den * r - den <= 2 * num < 2 * den * r + den
  }

  function RoundDiv(num: int, den: int): (r: int)
    requires den > 0
    ensures RoundsTo(num, den, r)
  {
    var q := (2 * num + den) / (2 * den);
    assert 2 * num + den == 2 * den * q + (2 * num + den) % (2 * den);
    q
  }

  lemma MulStrictCancel(n: int, a: int, b: int)
    requires n > 0 && n * a < n * b
    ensures a < b
  {
  }

  /** The bracket determines the result: no other integer rounds the same quotient. */
  lemma RoundDivUnique(num: int, den: int, r: int)
    requires den > 0 && RoundsTo(num, den, r)
    ensures r == RoundDiv(num, den)
  {
    var q := RoundDiv(num, den);
    // From the two brackets: 2*den*(r - q) < 2*den and 2*den*(q - r) < 2*den.
    assert 2 * den * (r - q) < 2 * den * 1;
    MulStrictCancel(2 * den, r - q, 1);
    assert 2 * den * (q - r) < 2 * den * 1;
    MulStrictCancel(2 * den, q - r, 1);
  }

  /** A quotient that lies between two integers rounds to a value between them. */
  lemma RoundDivWithin(num: int, den: int, lo: int, hi: int)
    requires den > 0 && den * lo <= num <= den * hi
    ensures lo <= RoundDiv(num, den) <= hi
  {
    var r := RoundDiv(num, den);
    var dhi, dlo := den * hi, den * lo;
    assert 2 * den * r - den <= 2 * num;
    assert 2 * den * (hi + 1) == 2 * dhi + 2 * den;
    MulStrictCancel(2 * den, r, hi + 1);
    assert 2 * num < 2 * den * r + den;
    assert 2 * den * (lo - 1) == 2 * dlo - 2 * den;
    MulStrictCancel(2 * den, lo - 1, r);
  }

  /** The rounded percentage of a part of a whole stays within 0..100 and hits both ends. */
  lemma RoundedPercentBounds(correct: int, total: int)
    requires 0 <= correct <= total && total > 0
    ensures 0 <= RoundDiv(100 * correct, total) <= 100
    ensures correct == 0 ==> RoundDiv(100 * correct, total) == 0
    ensures correct == total ==> RoundDiv(100 * correct, total) == 100
  {
    var p := RoundDiv(100 * correct, total);
    assert 2 * total * p < 2 * total * 101 by {
      assert 2 * total * p - total <= 200 * correct <= 200 * total;
    }
    MulStrictCancel(2 * total, p, 101);
    assert 2 * total * (-1) < 2 * total * p by {
      assert 0 <= 200 * correct < 2 * total * p + total;
    }
    MulStrictCancel(2 * total, -1, p);
    if correct == 0 {
      RoundDivUnique(0, total, 0);
    }
    if correct == total {
      assert RoundsTo(100 * total, total, 100);
      RoundDivUnique(100 * total, total, 100);
    }
  }

  /** `Math.round((correct / total) * 100)`: a percentage between 0 and 100. */
  function Percent(correct: int, total: int): (p: int)
    requires 0 <= correct <= total && total > 0
    ensures 0 <= p <= 100
    ensures correct == 0 ==> p == 0
    ensures correct == total ==> p == 100
  {
    RoundedPercentBounds(correct, total);
    RoundDiv(100 * correct, total)
  }

  /** More correct answers never give a lower percentage. */
  lemma PercentMonotonic(c1: int, c2: int, total: int)
    requires 0 <= c1 <= c2 <= total && total > 0
    ensures Percent(c1, total) <= Percent(c2, total)
  {
    var p1, p2 := Percent(c1, total), Percent(c2, total);
    assert 2 * total * p1 - total <= 200 * c1 <= 200 * c2 < 2 * total * p2 + total;
    assert 2 * total * p1 < 2 * total * (p2 + 1);
    MulStrictCancel(2 * total, p1, p2 + 1);
  }

  /** Worked values: 3 of 4 is 75, 2 of 3 is 67, and the half-way 1 of 8 rounds up to 13. */
  lemma PercentExamples()
    ensures Percent(3, 4) == 75 && Percent(2, 3) == 67 && Percent(1, 8) == 13
  {
    RoundDivUnique(300, 4, 75);
    RoundDivUnique(200, 3, 67);
    RoundDivUnique(100, 8, 13);
  }
}
