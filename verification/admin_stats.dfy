/**
 * What the administrator's dashboard derives from the lists it loaded: the
 * students page (students, their results, test count and rounded average), the
 * pass styling, which chapter and mock cards show a question count, the
 * display name of a cloud file, and the 0 shown for a missing statistic.
 */
module AdminStats {
  import opened Wrappers
  import opened Records
  import Decimal
  import Scores
  import Rounding

  predicate IsStudent(u: User) {
    u.role == "student"
  }

  /** `users.filter(u => u.role === 'student')`. */
  function Students(users: seq<User>): (students: seq<User>)
    ensures |students| <= |users|
    ensures forall u :: multiset(students)[u] == if IsStudent(u) then multiset(users)[u] else 0
  {
    if users == [] then []
    else
      var init := users[..|users| - 1];
      var last := users[|users| - 1];
      assert users == init + [last];
      Students(init) + (if IsStudent(last) then [last] else [])
  }

  /** The students page lists a user exactly when the user has the student role. */
  lemma StudentsListsExactlyStudents(users: seq<User>, u: User)
    ensures u in Students(users) <==> u in users && IsStudent(u)
  {
    assert u in Students(users) <==> multiset(Students(users))[u] > 0;
    assert u in users <==> multiset(users)[u] > 0;
  }

  /** The filter condition of the students page: `r.userId === student.id`. */
  predicate BelongsTo(r: StoredResult, studentId: string) {
    r.userId == studentId
  }

  /** `allResults.filter(r => r.userId === student.id)`. */
  function ResultsOf(results: seq<StoredResult>, studentId: string): (mine: seq<StoredResult>)
    ensures |mine| <= |results|
    ensures forall r :: multiset(mine)[r] == if BelongsTo(r, studentId) then multiset(results)[r] else 0
  {
    if results == [] then []
    else
      var init := results[..|results| - 1];
      var last := results[|results| - 1];
      assert results == init + [last];
      ResultsOf(init, studentId) + (if BelongsTo(last, studentId) then [last] else [])
  }

  /** "Tests Taken": the number of results recorded for the student. */
  function TestsTaken(results: seq<StoredResult>, studentId: string): (n: nat)
    ensures n <= |results|
  {
    |ResultsOf(results, studentId)|
  }

  ghost function OwnPositions(results: seq<StoredResult>, studentId: string): set<int> {
    set i | 0 <= i < |results| && BelongsTo(results[i], studentId)
  }

  lemma ResultsOfLast(results: seq<StoredResult>, studentId: string)
    requires results != []
    ensures TestsTaken(results, studentId)
            == TestsTaken(results[..|results| - 1], studentId) + (if BelongsTo(results[|results| - 1], studentId) then 1 else 0)
  {
  }

  lemma OwnPositionsLast(results: seq<StoredResult>, studentId: string)
    requires results != []
    ensures var n := |results| - 1;
      |OwnPositions(results, studentId)|
      == |OwnPositions(results[..n], studentId)| + (if BelongsTo(results[n], studentId) then 1 else 0)
  {
    var n := |results| - 1;
    var init := results[..n];
    var before := OwnPositions(init, studentId);
    var after := OwnPositions(results, studentId);
    var added := if BelongsTo(results[n], studentId) then {n} else {};
    forall i | 0 <= i <= n
      ensures i in after <==> i in before + added
    {
      if i < n {
        assert init[i] == results[i];
      }
    }
    assert after == before + added;
    assert n !in before;
  }

  /** Every result of a student counts towards the student's "Tests Taken", and no other. */
  lemma {:induction false} TestsTakenCountsOwnResults(results: seq<StoredResult>, studentId: string)
    ensures TestsTaken(results, studentId) == |OwnPositions(results, studentId)|
  {
    if results == [] {
      assert OwnPositions(results, studentId) == {};
    } else {
      TestsTakenCountsOwnResults(results[..|results| - 1], studentId);
      ResultsOfLast(results, studentId);
      OwnPositionsLast(results, studentId);
    }
  }

  /** The student's "Avg Score": the rounded mean of the student's scores, or 0 without results. */
  function StudentAverage(results: seq<StoredResult>, studentId: string): (a: int)
    ensures ResultsOf(results, studentId) == [] ==> a == 0
    ensures ResultsOf(results, studentId) != [] ==>
              Rounding.RoundsTo(Scores.Sum(ScoresOf(ResultsOf(results, studentId))), |ResultsOf(results, studentId)|, a)
  {
    Scores.Average(ScoresOf(ResultsOf(results, studentId)))
  }

  /** A student's average lies between that student's lowest and highest score; 0 without results. */
  lemma StudentAverageWithinOwnScores(results: seq<StoredResult>, studentId: string)
    ensures ResultsOf(results, studentId) == [] ==> StudentAverage(results, studentId) == 0
    ensures ResultsOf(results, studentId) != [] ==>
              (exists r :: r in results && BelongsTo(r, studentId) && r.score <= StudentAverage(results, studentId))
              && (exists r :: r in results && BelongsTo(r, studentId) && StudentAverage(results, studentId) <= r.score)
  {
    var mine := ResultsOf(results, studentId);
    if mine != [] {
      var scores := ScoresOf(mine);
      Scores.AverageWithinRange(scores);
      var i :| 0 <= i < |scores| && scores[i] == Scores.Lowest(scores);
      var j :| 0 <= j < |scores| && scores[j] == Scores.Highest(scores);
      assert multiset(mine)[mine[i]] > 0 && multiset(mine)[mine[j]] > 0;
      assert mine[i] in results && BelongsTo(mine[i], studentId);
      assert mine[j] in results && BelongsTo(mine[j], studentId);
    }
  }

  /**
   * The green "pass" styling (`score >= 70`) marks each result's score and each
   * student's average. When every result of a student is styled as a pass, so
   * is the average; when none is, the average is not either.
   */
  lemma AveragePassStyle(results: seq<StoredResult>, studentId: string)
    ensures ResultsOf(results, studentId) != [] &&
            (forall r :: r in results && BelongsTo(r, studentId) ==> Scores.Passes(r.score)) ==>
              Scores.Passes(StudentAverage(results, studentId))
    ensures (forall r :: r in results && BelongsTo(r, studentId) ==> !Scores.Passes(r.score)) ==>
              !Scores.Passes(StudentAverage(results, studentId))
  {
    StudentAverageWithinOwnScores(results, studentId);
  }

  /** An entry of the available-tests list. */
  datatype AvailableTest = AvailableTest(testType: string, testId: string, questionCount: int)

  /** `t.testType === testType && t.testId === id.toString()`. */
  predicate Matches(t: AvailableTest, testType: string, id: nat) {
    t.testType == testType && t.testId == Decimal.NatToString(id)
  }

  /** The position `availableTests.find(...)` stops at: the first match. */
  function FirstMatch(tests: seq<AvailableTest>, testType: string, id: nat): (r: Option<nat>)
    ensures r.None? <==> forall i :: 0 <= i < |tests| ==> !Matches(tests[i], testType, id)
    ensures r.Some? ==> r.value < |tests| && Matches(tests[r.value], testType, id)
    ensures r.Some? ==> forall i :: 0 <= i < r.value ==> !Matches(tests[i], testType, id)
  {
    if tests == [] then None
    else if Matches(tests[0], testType, id) then Some(0)
    else
      var rest := FirstMatch(tests[1..], testType, id);
      assert forall i :: 1 <= i < |tests| ==> tests[i] == tests[1..][i - 1];
      if rest.Some? then Some(rest.value + 1) else None
  }

  /** `availableTests.find(t => t.testType === testType && t.testId === id.toString())`. */
  function FindAvailable(tests: seq<AvailableTest>, testType: string, id: nat): (found: Option<AvailableTest>)
    ensures found.Some? ==> found.value in tests && Matches(found.value, testType, id)
    ensures found.None? <==> forall t :: t in tests ==> !Matches(t, testType, id)
    ensures found.Some? ==> exists i :: 0 <= i < |tests| && found.value == tests[i]
                                        && forall j :: 0 <= j < i ==> !Matches(tests[j], testType, id)
  {
    var i := FirstMatch(tests, testType, id);
    if i.Some? then Some(tests[i.value]) else None
  }

  /** The card of chapter `id` (or of mock exam `id`) shows a question count exactly when a test matches. */
  function ShowsQuestionCount(tests: seq<AvailableTest>, testType: string, id: nat): (shown: bool)
    ensures shown <==> exists t :: t in tests && Matches(t, testType, id)
  {
    FindAvailable(tests, testType, id).Some?
  }

  /** A test id only matches when it is the canonical decimal text of the card's number. */
  lemma MatchedIdReadsBack(t: AvailableTest, testType: string, id: nat)
    requires Matches(t, testType, id)
    ensures Decimal.AllDigits(t.testId) && Decimal.DigitsValue(t.testId) == id
    ensures |t.testId| > 1 ==> t.testId[0] != '0'
  {
    Decimal.NatToStringRoundTrip(id);
  }

  /** An available test matches at most one card of its type: its id names a single number. */
  lemma MatchesAtMostOneCard(t: AvailableTest, testType: string, a: nat, b: nat)
    ensures Matches(t, testType, a) && Matches(t, testType, b) ==> a == b
  {
    Decimal.NatToStringInjective(a, b);
  }

  const ExportsPrefix: string := "exports/"

  /** Whether `pattern` occurs in `s` at position `i`. */
  predicate OccursAt(s: string, pattern: string, i: nat) {
    i + |pattern| <= |s| && s[i..i + |pattern|] == pattern
  }

  /** The position of the first occurrence of `pattern` in `s`, if any. */
  function FirstOccurrence(s: string, pattern: string, from: nat): (r: Option<nat>)
    requires from <= |s|
    ensures r.Some? ==> from <= r.value && OccursAt(s, pattern, r.value)
    ensures r.Some? ==> forall i :: from <= i < r.value ==> !OccursAt(s, pattern, i)
    ensures r.None? ==> forall i :: from <= i <= |s| ==> !OccursAt(s, pattern, i)
    decreases |s| - from
  {
    if OccursAt(s, pattern, from) then Some(from)
    else if from == |s| then None
    else FirstOccurrence(s, pattern, from + 1)
  }

  /** `name.replace('exports/', '')`: the first "exports/" is removed, or the name is kept. */
  function DisplayName(name: string): (shown: string)
    ensures var occ := FirstOccurrence(name, ExportsPrefix, 0);
      && (occ.None? ==> shown == name)
      && (occ.Some? ==> shown == name[..occ.value] + name[occ.value + |ExportsPrefix|..])
  {
    var occ := FirstOccurrence(name, ExportsPrefix, 0);
    if occ.Some? then name[..occ.value] + name[occ.value + |ExportsPrefix|..] else name
  }

  /** A file stored under the exports folder is shown by the rest of its path. */
  lemma DisplayNameOfExport(rest: string)
    ensures DisplayName(ExportsPrefix + rest) == rest
  {
    var name := ExportsPrefix + rest;
    assert OccursAt(name, ExportsPrefix, 0);
    assert name[|ExportsPrefix|..] == rest;
  }

  /** A name without "exports/" in it is shown as it is, and a shown name is never longer. */
  lemma DisplayNameKeepsOthers(name: string)
    ensures (forall i :: 0 <= i <= |name| ==> !OccursAt(name, ExportsPrefix, i)) ==> DisplayName(name) == name
    ensures |DisplayName(name)| <= |name|
  {
  }

  /** `stats.x || 0`: a missing (or zero) statistic is shown as 0. */
  function OrZero(stat: Option<int>): (shown: int)
    ensures stat.None? ==> shown == 0
    ensures stat.Some? ==> shown == stat.value
  {
    if stat.Some? then stat.value else 0
  }

  /** The statistics object as loaded; a field the server left out is None. */
  datatype AdminStatistics = AdminStatistics(
    totalStudents: Option<int>,
    totalTests: Option<int>,
    averageScore: Option<int>,
    passRate: Option<int>)

  /** The four numbers of the dashboard's statistic cards. */
  function DisplayedStatistics(stats: AdminStatistics): (shown: (int, int, int, int))
    ensures shown.0 == OrZero(stats.totalStudents) && shown.1 == OrZero(stats.totalTests)
    ensures shown.2 == OrZero(stats.averageScore) && shown.3 == OrZero(stats.passRate)
  {
    (OrZero(stats.totalStudents), OrZero(stats.totalTests), OrZero(stats.averageScore), OrZero(stats.passRate))
  }

  /** Before the statistics load (`useState({})`) every card shows 0. */
  lemma EmptyStatisticsShowZero()
    ensures DisplayedStatistics(AdminStatistics(None, None, None, None)) == (0, 0, 0, 0)
  {
  }
}
