/**
 * Aggregates over a list of percentage scores, shared by the student's
 * dashboard and profile (average, highest, passed count) and by the
 * administrator's students page (per-student average), and the 70% pass mark
 * used for every pass/fail styling decision.
 */
module Scores {
  import Rounding

  /** A score at or above this mark is shown as passed. */
  const PassMark: int := 70

  predicate Passes(score: int) {
    score >= PassMark
  }

  /** `scores.reduce((acc, s) => acc + s, 0)`, folded from the left. */
  function Sum(xs: seq<int>): int {
    if xs == [] then 0 else Sum(xs[..|xs| - 1]) + xs[|xs| - 1]
  }

  /** `Math.max(...scores)` when there is a score, and 0 (the dashboard's fallback) otherwise. */
  function Highest(xs: seq<int>): (r: int)
    ensures xs == [] ==> r == 0
    ensures xs != [] ==> r in xs && forall i :: 0 <= i < |xs| ==> xs[i] <= r
  {
    if |xs| == 0 then 0
    else if |xs| == 1 then xs[0]
    else
      var h := Highest(xs[..|xs| - 1]);
      assert forall i :: 0 <= i < |xs| - 1 ==> xs[i] == xs[..|xs| - 1][i];
      if xs[|xs| - 1] > h then xs[|xs| - 1] else h
  }

  /** The smallest score; only used to state where an average lies. */
  ghost function Lowest(xs: seq<int>): (r: int)
    requires xs != []
    ensures r in xs && forall i :: 0 <= i < |xs| ==> r <= xs[i]
  {
    if |xs| == 1 then xs[0]
    else
      var l := Lowest(xs[..|xs| - 1]);
      assert forall i :: 0 <= i < |xs| - 1 ==> xs[i] == xs[..|xs| - 1][i];
      if xs[|xs| - 1] < l then xs[|xs| - 1] else l
  }

  /** `Math.round(sum / count)` when there is a score, and 0 otherwise. */
  function Average(xs: seq<int>): (a: int)
    ensures xs == [] ==> a == 0
    ensures xs != [] ==> Rounding.RoundsTo(Sum(xs), |xs|, a)
  {
    if |xs| > 0 then Rounding.RoundDiv(Sum(xs), |xs|) else 0
  }

  /** `scores.filter(s => s >= 70).length`. */
  function CountPassing(xs: seq<int>): (n: nat)
    ensures n <= |xs|
  {
    if xs == [] then 0
    else CountPassing(xs[..|xs| - 1]) + (if Passes(xs[|xs| - 1]) then 1 else 0)
  }

  ghost function PassingPositions(xs: seq<int>): set<int> {
    set i | 0 <= i < |xs| && Passes(xs[i])
  }

  /** The passed count is the number of positions holding a passing score. */
  lemma {:induction false} CountPassingCountsPositions(xs: seq<int>)
    ensures CountPassing(xs) == |PassingPositions(xs)|
  {
    if xs != [] {
      var n := |xs| - 1;
      var init := xs[..n];
      CountPassingCountsPositions(init);
      assert forall i :: 0 <= i < n ==> init[i] == xs[i];
      if Passes(xs[n]) {
        assert PassingPositions(xs) == PassingPositions(init) + {n};
      } else {
        assert PassingPositions(xs) == PassingPositions(init);
      }
    }
  }

  lemma MulLe(k: int, a: int, b: int)
    requires k >= 0 && a <= b
    ensures k * a <= k * b
  {
  }

  /** count * lowest <= sum <= count * highest. */
  lemma {:induction false} SumBetween(xs: seq<int>)
    requires xs != []
    ensures |xs| * Lowest(xs) <= Sum(xs) <= |xs| * Highest(xs)
  {
    var n := |xs| - 1;
    if n > 0 {
      var init := xs[..n];
      SumBetween(init);
      assert forall i :: 0 <= i < n ==> init[i] == xs[i];
      var lo, hi := Lowest(xs), Highest(xs);
      assert lo <= Lowest(init) && Highest(init) <= hi;
      MulLe(n, lo, Lowest(init));
      MulLe(n, Highest(init), hi);
      assert Sum(xs) == Sum(init) + xs[n];
      assert (n + 1) * lo == n * lo + lo;
      assert (n + 1) * hi == n * hi + hi;
    }
  }

  /** A rounded average never leaves the range of the scores it averages. */
  lemma AverageWithinRange(xs: seq<int>)
    requires xs != []
    ensures Lowest(xs) <= Average(xs) <= Highest(xs)
  {
    SumBetween(xs);
    Rounding.RoundDivWithin(Sum(xs), |xs|, Lowest(xs), Highest(xs));
  }

  /** When every score is the same, the average is that score. */
  lemma AverageOfEqualScores(xs: seq<int>, s: int)
    requires xs != [] && forall i :: 0 <= i < |xs| ==> xs[i] == s
    ensures Average(xs) == s
  {
    AverageWithinRange(xs);
  }
}
