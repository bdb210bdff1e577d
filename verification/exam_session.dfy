/**
 * The timed test session of the student dashboard: starting a chapter test or a
 * mock exam, recording answers, moving between questions, the one-second
 * countdown that submits when time runs out, and scoring, which builds the
 * result record and reloads the student's history. The session is the
 * dashboard's state, updated field by field, so it is a class; scoring, time
 * rendering and the history aggregates are functions over values.
 *
 * Network requests are not made here: each operation that fetches takes the
 * outcome of the request as a parameter, and the date string that
 * `toLocaleDateString()` would produce is passed in as well.
 */
module ExamSession {
  import opened Wrappers
  import opened Records
  import Rounding
  import Scores
  import TimeFormat

  datatype TestKind = Chapter | Mock

  /** `type === 'mock' ? 7200 : 3600`: the length of the countdown, in seconds. */
  function Duration(kind: TestKind): (d: nat)
    ensures 3600 <= d <= 7200
    ensures d == 7200 <==> kind == Mock
    ensures kind == Chapter ==> d == 3600
  {
    if kind == Mock then 7200 else 3600
  }

  /** An entry of the dashboard's chapter list or mock-exam list. */
  datatype TestEntry = TestEntry(id: int, name: string)

  /** `{ ...test, type }`: the test whose questions were installed last. */
  datatype CurrentTest = CurrentTest(id: int, name: string, kind: TestKind)

  /**
   * A question as the question endpoint returns it. `answers` is a JavaScript
   * object, whose keys are strings, so the question's identifier is kept as the
   * string it becomes when used as a key.
   */
  datatype Question = Question(id: string, text: string, options: seq<string>, correctAnswer: int)

  /** What the question request produced: a response with `success` and its questions, or a failure. */
  datatype LoadOutcome = Loaded(questions: seq<Question>) | LoadFailed

  /**
   * What posting the result produced: the POST threw (nothing else happens), or
   * it returned and the reload of the history gave these results (None when the
   * reload failed or did not report success).
   */
  datatype PostOutcome = PostThrew | PostReturned(reloaded: Option<seq<StoredResult>>)

  /** A percentage, or the NaN that `Math.round(0 / 0 * 100)` gives for a test without questions. */
  datatype Score = Percent(value: int) | NotANumber

  datatype Page = Home | TestPage | PerformancePage | ProfilePage

  /** The object posted to the result endpoint. */
  datatype ResultRecord = ResultRecord(
    testName: string,
    testType: TestKind,
    score: Score,
    date: string,
    timeTaken: string,
    totalQuestions: nat,
    correctAnswers: nat,
    userId: string,
    userName: string,
    userEmail: string)

  /**
   * `answers[q.id] === q.correctAnswer`. Every question carries a numeric
   * correct answer, so an unanswered question is never correct.
   */
  predicate IsCorrect(q: Question, answers: map<string, int>) {
    q.id in answers && answers[q.id] == q.correctAnswer
  }

  /** The number of questions answered correctly, counted front to back. */
  function CorrectCount(questions: seq<Question>, answers: map<string, int>): (n: nat)
    ensures n <= |questions|
  {
    if questions == [] then 0
    else
      CorrectCount(questions[..|questions| - 1], answers)
        + (if IsCorrect(questions[|questions| - 1], answers) then 1 else 0)
  }

  ghost function CorrectPositions(questions: seq<Question>, answers: map<string, int>): set<int> {
    set i | 0 <= i < |questions| && IsCorrect(questions[i], answers)
  }

  /** The count is exactly the number of positions whose question is answered correctly. */
  lemma {:induction false} CorrectCountCountsPositions(questions: seq<Question>, answers: map<string, int>)
    ensures CorrectCount(questions, answers) == |CorrectPositions(questions, answers)|
  {
    if questions != [] {
      var n := |questions| - 1;
      var init := questions[..n];
      CorrectCountCountsPositions(init, answers);
      assert forall i :: 0 <= i < n ==> init[i] == questions[i];
      if IsCorrect(questions[n], answers) {
        assert CorrectPositions(questions, answers) == CorrectPositions(init, answers) + {n};
      } else {
        assert CorrectPositions(questions, answers) == CorrectPositions(init, answers);
      }
    }
  }

  /** With no answers recorded nothing is correct. */
  lemma {:induction false} NoAnswersNoneCorrect(questions: seq<Question>)
    ensures CorrectCount(questions, map[]) == 0
  {
    if questions != [] {
      NoAnswersNoneCorrect(questions[..|questions| - 1]);
    }
  }

  /** When every question carries its correct answer, every question counts. */
  lemma {:induction false} AllAnsweredCorrectly(questions: seq<Question>, answers: map<string, int>)
    requires forall i :: 0 <= i < |questions| ==> IsCorrect(questions[i], answers)
    ensures CorrectCount(questions, answers) == |questions|
  {
    if questions != [] {
      var init := questions[..|questions| - 1];
      assert forall i :: 0 <= i < |init| ==> init[i] == questions[i];
      AllAnsweredCorrectly(init, answers);
    }
  }

  /** The `questions.forEach` loop of `submitTest` that counts correct answers. */
  method CountCorrect(questions: seq<Question>, answers: map<string, int>) returns (count: nat)
    ensures count == CorrectCount(questions, answers)
    ensures count <= |questions|
  {
    count := 0;
    for i := 0 to |questions|
      invariant count == CorrectCount(questions[..i], answers)
    {
      assert questions[..i + 1][..i] == questions[..i];
      if IsCorrect(questions[i], answers) {
        count := count + 1;
      }
    }
    assert questions[..|questions|] == questions;
  }

  /** `Math.round((correct / total) * 100)`: NaN for an empty test, else a rounded percentage. */
  function FinalScore(correct: nat, total: nat): (s: Score)
    requires correct <= total
    ensures s.NotANumber? <==> total == 0
    ensures s.Percent? ==> 0 <= s.value <= 100 && Rounding.RoundsTo(100 * correct, total, s.value)
  {
    if total == 0 then NotANumber else Percent(Rounding.Percent(correct, total))
  }

  /** `score >= 70` on the results page; NaN compares false, so it shows as not passed. */
  function ShowsPass(s: Score): (pass: bool)
    ensures pass <==> s.Percent? && s.value >= Scores.PassMark
  {
    s.Percent? && Scores.Passes(s.value)
  }

  /**
   * `formatTime(duration - timeRemaining)`: the time taken, as the result
   * record stores it and the results page shows it. Within the test's duration
   * it reads back as the duration minus the time left.
   */
  function TimeTaken(kind: TestKind, remaining: int): (taken: string)
    ensures 0 <= remaining <= Duration(kind) ==> TimeFormat.ParseTime(taken) == Some(Duration(kind) - remaining)
  {
    var spent := Duration(kind) - remaining;
    if spent >= 0 then
      TimeFormat.FormatTimeRoundTrip(spent);
      TimeFormat.FormatTime(spent)
    else
      TimeFormat.FormatTime(spent)
  }

  /** The result object that `submitTest` posts. */
  function BuildResult(test: CurrentTest, questions: seq<Question>, answers: map<string, int>,
                       remaining: int, date: string, user: User): (r: ResultRecord)
    ensures r.totalQuestions == |questions|
    ensures r.correctAnswers == CorrectCount(questions, answers) <= r.totalQuestions
    ensures r.score == FinalScore(r.correctAnswers, r.totalQuestions)
    ensures r.testName == test.name && r.testType == test.kind && r.date == date
    ensures r.timeTaken == TimeTaken(test.kind, remaining)
    ensures r.userId == user.id && r.userName == user.name && r.userEmail == user.email
  {
    var correct := CorrectCount(questions, answers);
    ResultRecord(test.name, test.kind, FinalScore(correct, |questions|), date,
                 TimeTaken(test.kind, remaining),
                 |questions|, correct, user.id, user.name, user.email)
  }

  /** The worked example: four questions, three answered correctly, score 75. */
  lemma ScoringExample()
    ensures var qs := [Question("q1", "", [], 0), Question("q2", "", [], 1),
                       Question("q3", "", [], 2), Question("q4", "", [], 3)];
            var answers := map["q1" := 0, "q2" := 1, "q3" := 3, "q4" := 3];
            CorrectCount(qs, answers) == 3 && FinalScore(3, 4) == Percent(75)
  {
    var q1, q2, q3, q4 := Question("q1", "", [], 0), Question("q2", "", [], 1),
                          Question("q3", "", [], 2), Question("q4", "", [], 3);
    var answers := map["q1" := 0, "q2" := 1, "q3" := 3, "q4" := 3];
    var qs := [q1, q2, q3, q4];
    assert qs[..3] == [q1, q2, q3] && [q1, q2, q3][..2] == [q1, q2];
    assert [q1, q2][..1] == [q1] && [q1][..0] == [];
    assert CorrectCount([q1], answers) == 1;
    assert CorrectCount([q1, q2], answers) == 2;
    assert !IsCorrect(q3, answers);
    assert CorrectCount([q1, q2, q3], answers) == 2;
    Rounding.PercentExamples();
  }

  /** The history shown after a post: the reloaded results when the reload succeeded. */
  function AfterPost(history: seq<StoredResult>, post: PostOutcome): (h: seq<StoredResult>)
    ensures post.PostReturned? && post.reloaded.Some? ==> h == post.reloaded.value
    ensures !(post.PostReturned? && post.reloaded.Some?) ==> h == history
  {
    if post.PostReturned? && post.reloaded.Some? then post.reloaded.value else history
  }

  /** The dashboard's "Avg Score" and the profile's "Average Score". */
  function AverageScore(results: seq<StoredResult>): (a: int)
    ensures results == [] ==> a == 0
    ensures results != [] ==> Rounding.RoundsTo(Scores.Sum(ScoresOf(results)), |results|, a)
  {
    Scores.Average(ScoresOf(results))
  }

  /** The average is 0 without results, and otherwise lies between the lowest and the highest score it averages. */
  lemma AverageScoreWithinResults(results: seq<StoredResult>)
    ensures results == [] ==> AverageScore(results) == 0
    ensures results != [] ==> exists i :: 0 <= i < |results| && results[i].score <= AverageScore(results)
    ensures results != [] ==> exists j :: 0 <= j < |results| && AverageScore(results) <= results[j].score
  {
    if results == [] {
      return;
    }
    var scores := ScoresOf(results);
    Scores.AverageWithinRange(scores);
    var lo, hi := Scores.Lowest(scores), Scores.Highest(scores);
    var i :| 0 <= i < |scores| && scores[i] == lo;
    var j :| 0 <= j < |scores| && scores[j] == hi;
    assert results[i].score <= AverageScore(results);
    assert AverageScore(results) <= results[j].score;
  }

  /** The dashboard's "Last Score": the score of the last result, or 0. */
  function LastScore(results: seq<StoredResult>): (s: int)
    ensures results == [] ==> s == 0
    ensures results != [] ==> s == results[|results| - 1].score
  {
    if |results| > 0 then results[|results| - 1].score else 0
  }

  /** A result appended to the history becomes the last score shown. */
  lemma LastScoreOfAppended(results: seq<StoredResult>, r: StoredResult)
    ensures LastScore(results + [r]) == r.score
  {
  }

  /** The profile's "Highest Score": the largest score, or 0. */
  function HighestScore(results: seq<StoredResult>): (h: int)
    ensures results == [] ==> h == 0
    ensures results != [] ==> (exists i :: 0 <= i < |results| && results[i].score == h)
    ensures forall i :: 0 <= i < |results| ==> results[i].score <= h
  {
    var scores := ScoresOf(results);
    var h := Scores.Highest(scores);
    assert results != [] ==> exists i :: 0 <= i < |scores| && scores[i] == h;
    h
  }

  /** The profile's "Tests Passed (70%+)". */
  function TestsPassed(results: seq<StoredResult>): (n: nat)
    ensures n <= |results|
  {
    Scores.CountPassing(ScoresOf(results))
  }

  /** The passed count is the number of results scoring at least 70. */
  lemma TestsPassedCountsPasses(results: seq<StoredResult>)
    ensures TestsPassed(results) == |set i | 0 <= i < |results| && Scores.Passes(results[i].score)|
  {
    var scores := ScoresOf(results);
    Scores.CountPassingCountsPositions(scores);
    assert Scores.PassingPositions(scores) == set i | 0 <= i < |results| && Scores.Passes(results[i].score);
  }

  /** The state of the student dashboard that a test session reads and writes. */
  class Session {
    const user: User
    var currentPage: Page
    var currentTest: Option<CurrentTest>
    var questions: seq<Question>
    var currentQuestion: int
    var answers: map<string, int>
    var timeRemaining: int
    var testStarted: bool
    var testResults: seq<StoredResult>
    var showResults: bool
    var score: Score

    /** The clock is never negative, the shown question exists, and a percentage lies in 0..100. */
    ghost predicate Valid()
      reads this
    {
      && 0 <= timeRemaining <= Duration(Mock)
      && 0 <= currentQuestion
      && (questions == [] ==> currentQuestion == 0)
      && (questions != [] ==> currentQuestion < |questions|)
      && (score.Percent? ==> 0 <= score.value <= 100)
    }

    /** The countdown effect keeps an interval only while this holds. */
    predicate TimerArmed()
      reads this
    {
      testStarted && timeRemaining > 0
    }

    /** "Previous" is disabled on the first question. */
    predicate PreviousEnabled()
      reads this
    {
      currentQuestion != 0
    }

    /** With a question on screen, "Submit Test" replaces "Next" on the last question. */
    predicate SubmitOffered()
      reads this
    {
      0 <= currentQuestion < |questions| && currentQuestion == |questions| - 1
    }

    predicate NextOffered()
      reads this
    {
      0 <= currentQuestion < |questions| && currentQuestion != |questions| - 1
    }

    /** The initial state of the dashboard's hooks. */
    constructor (user: User)
      ensures Valid() && this.user == user
      ensures currentPage == Home && currentTest == None && questions == [] && currentQuestion == 0
      ensures answers == map[] && timeRemaining == 7200 && !testStarted
      ensures testResults == [] && !showResults && score == Percent(0)
    {
      this.user := user;
      currentPage := Home;
      currentTest := None;
      questions := [];
      currentQuestion := 0;
      answers := map[];
      timeRemaining := 7200;
      testStarted := false;
      testResults := [];
      showResults := false;
      score := Percent(0);
    }

    /** `loadUserResults`: the history is replaced only when the request reports success. */
    method LoadUserResults(reloaded: Option<seq<StoredResult>>)
      modifies this`testResults
      ensures reloaded.Some? ==> testResults == reloaded.value
      ensures reloaded.None? ==> testResults == old(testResults)
    {
      if reloaded.Some? {
        testResults := reloaded.value;
      }
    }

    /** The header's page buttons (and the results page's two): none of them opens the test page. */
    method ShowPage(page: Page)
      requires page != TestPage
      modifies this`currentPage
      ensures currentPage == page
    {
      currentPage := page;
    }

    /**
     * `startTest`. The session is reset and `testStarted` set before the
     * questions are requested, so a failed or empty load leaves a started
     * session with no questions; only a load with questions installs the test.
     */
    method StartTest(test: TestEntry, kind: TestKind, load: LoadOutcome)
      requires Valid()
      modifies this
      ensures Valid()
      ensures answers == map[] && currentQuestion == 0 && timeRemaining == Duration(kind) && testStarted
      ensures TimerArmed()
      ensures load.Loaded? && |load.questions| > 0 ==>
                && currentTest == Some(CurrentTest(test.id, test.name, kind))
                && questions == load.questions
                && !showResults && currentPage == TestPage
      ensures !(load.Loaded? && |load.questions| > 0) ==>
                && questions == []
                && currentTest == old(currentTest)
                && showResults == old(showResults) && currentPage == old(currentPage)
      ensures testResults == old(testResults) && score == old(score)
    {
      questions := [];
      answers := map[];
      currentQuestion := 0;
      timeRemaining := Duration(kind);
      testStarted := true;
      if load.Loaded? && |load.questions| > 0 {
        currentTest := Some(CurrentTest(test.id, test.name, kind));
        questions := load.questions;
        showResults := false;
        currentPage := TestPage;
      }
    }

    /** `handleAnswer`: the latest answer for a question replaces any earlier one. */
    method HandleAnswer(questionId: string, answerIndex: int)
      modifies this`answers
      ensures answers == old(answers)[questionId := answerIndex]
      ensures questionId in answers && answers[questionId] == answerIndex
      ensures forall k :: k != questionId ==> (k in answers <==> k in old(answers))
      ensures forall k :: k != questionId && k in answers ==> answers[k] == old(answers)[k]
    {
      answers := answers[questionId := answerIndex];
    }

    /** "Previous": `Math.max(0, currentQuestion - 1)`. */
    method Previous()
      requires Valid() && questions != []
      modifies this`currentQuestion
      ensures Valid()
      ensures currentQuestion == if old(currentQuestion) == 0 then 0 else old(currentQuestion) - 1
      ensures !old(PreviousEnabled()) ==> currentQuestion == old(currentQuestion)
    {
      currentQuestion := if currentQuestion - 1 > 0 then currentQuestion - 1 else 0;
    }

    /** "Next": `Math.min(questions.length - 1, currentQuestion + 1)`. */
    method Next()
      requires Valid() && questions != []
      modifies this`currentQuestion
      ensures Valid()
      ensures old(NextOffered()) ==> currentQuestion == old(currentQuestion) + 1
      ensures old(SubmitOffered()) ==> currentQuestion == old(currentQuestion)
    {
      currentQuestion := if |questions| - 1 < currentQuestion + 1 then |questions| - 1 else currentQuestion + 1;
    }

    /** A button of the question navigator. */
    method GoToQuestion(index: int)
      requires Valid() && 0 <= index < |questions|
      modifies this`currentQuestion
      ensures Valid() && currentQuestion == index
    {
      currentQuestion := index;
    }

    /** The results page's "Time Taken", for the current test (a chapter's duration without one). */
    function ShownTimeTaken(): (shown: string)
      reads this
      ensures currentTest.Some? && 0 <= timeRemaining <= Duration(currentTest.value.kind) ==>
                TimeFormat.ParseTime(shown) == Some(Duration(currentTest.value.kind) - timeRemaining)
    {
      TimeTaken(if currentTest.Some? then currentTest.value.kind else Chapter, timeRemaining)
    }

    /**
     * What one run of `submitTest` does to the session, given the date and the
     * outcome of the post. The score is always set. Without a current test the
     * result object cannot be built (reading `currentTest.name` throws), so
     * nothing else happens; otherwise the record is built from the questions,
     * answers and remaining time, and the session ends whether or not saving
     * worked. No flag is checked: a second run scores and posts again.
     */
    twostate predicate Submitted(date: string, post: PostOutcome, new record: Option<ResultRecord>)
      reads this
    {
      && score == FinalScore(CorrectCount(old(questions), old(answers)), |old(questions)|)
      && questions == old(questions) && answers == old(answers)
      && currentQuestion == old(currentQuestion) && currentTest == old(currentTest)
      && currentPage == old(currentPage)
      && (old(currentTest).None? ==>
            && record.None?
            && testStarted == old(testStarted) && showResults == old(showResults)
            && testResults == old(testResults))
      && (old(currentTest).Some? ==>
            && record == Some(BuildResult(old(currentTest).value, old(questions), old(answers),
                                          old(timeRemaining), date, user))
            && !testStarted && showResults
            && testResults == AfterPost(old(testResults), post))
    }

    /** `submitTest`. */
    method SubmitTest(date: string, post: PostOutcome) returns (record: Option<ResultRecord>)
      requires Valid()
      modifies this
      ensures Valid()
      ensures Submitted(date, post, record)
      ensures timeRemaining == old(timeRemaining)
    {
      var correctCount := CountCorrect(questions, answers);
      score := FinalScore(correctCount, |questions|);
      if currentTest.None? {
        record := None;
        return;
      }
      record := Some(BuildResult(currentTest.value, questions, answers, timeRemaining, date, user));
      testResults := AfterPost(testResults, post);
      testStarted := false;
      showResults := true;
    }

    /**
     * One second of the countdown. Nothing happens unless the interval is
     * armed. Otherwise the clock drops by one, except that from 1 (or less)
     * `submitTest` runs first and the clock is then set to 0. The interval's
     * `submitTest` belongs to the render in which the clock last changed, so
     * it sees the old remaining time.
     */
    method Tick(date: string, post: PostOutcome) returns (submitted: bool, record: Option<ResultRecord>)
      requires Valid()
      modifies this
      ensures Valid()
      ensures submitted <==> old(TimerArmed()) && old(timeRemaining) <= 1
      ensures 0 <= timeRemaining <= old(timeRemaining)
      ensures !old(TimerArmed()) ==> unchanged(this) && record.None?
      ensures old(TimerArmed()) && old(timeRemaining) > 1 ==>
                && timeRemaining == old(timeRemaining) - 1 && record.None?
                && questions == old(questions) && answers == old(answers)
                && currentQuestion == old(currentQuestion) && currentTest == old(currentTest)
                && testStarted && showResults == old(showResults) && score == old(score)
                && testResults == old(testResults) && currentPage == old(currentPage)
      ensures submitted ==> timeRemaining == 0 && Submitted(date, post, record)
    {
      submitted := false;
      record := None;
      if testStarted && timeRemaining > 0 {
        if timeRemaining <= 1 {
          submitted := true;
          record := SubmitTest(date, post);
          timeRemaining := 0;
        } else {
          timeRemaining := timeRemaining - 1;
        }
      }
    }
  }

  /**
   * A chapter test left to run out. Ticks are delivered from the start until
   * the countdown submits: that happens on tick 3600 and only then, the record
   * posted says "59:59" (the submission still sees one second left), and the
   * results page afterwards says "60:00".
   */
  method ChapterTimesOut(user: User, test: TestEntry, qs: seq<Question>, date: string, post: PostOutcome)
    returns (ticks: nat, record: Option<ResultRecord>, shown: string)
    requires qs != []
    ensures ticks == 3600
    ensures record.Some? && record.value.timeTaken == "59:59"
    ensures shown == "60:00"
  {
    var s := new Session(user);
    s.StartTest(test, Chapter, Loaded(qs));
    ticks := 0;
    record := None;
    var submitted := false;
    var left := s.timeRemaining;
    while !submitted
      invariant s.Valid() && ticks <= 3600
      invariant !submitted ==> s.testStarted && s.timeRemaining == 3600 - ticks >= 1
      invariant s.currentTest == Some(CurrentTest(test.id, test.name, Chapter))
      invariant submitted ==> ticks == 3600 && s.timeRemaining == 0 && left == 1
      invariant submitted ==> record.Some? && record.value.timeTaken == TimeTaken(Chapter, left)
      decreases s.timeRemaining + (if submitted then 0 else 1)
    {
      left := s.timeRemaining;
      submitted, record := s.Tick(date, post);
      ticks := ticks + 1;
    }
    shown := s.ShownTimeTaken();
    ChapterLastSecondTaken();
    ChapterFullTimeTaken();
  }

  /** The time-taken text is the rendering of the seconds spent. */
  lemma TimeTakenRendersSpent(kind: TestKind, remaining: int)
    ensures TimeTaken(kind, remaining) == TimeFormat.FormatTime(Duration(kind) - remaining)
  {
  }

  /** A chapter test submitted with one second left records "59:59". */
  lemma ChapterLastSecondTaken()
    ensures TimeTaken(Chapter, 1) == "59:59"
  {
    TimeTakenRendersSpent(Chapter, 1);
    TimeFormat.LastSecondText();
  }

  /** A chapter test whose clock has run out shows "60:00" taken. */
  lemma ChapterFullTimeTaken()
    ensures TimeTaken(Chapter, 0) == "60:00"
  {
    TimeTakenRendersSpent(Chapter, 0);
    TimeFormat.ChapterDurationText();
  }

  /**
   * Nothing stops a second submission of the same session: it scores the same
   * answers again and posts a second record, equal to the first.
   */
  method SubmitTwice(s: Session, date: string, post: PostOutcome)
    returns (first: Option<ResultRecord>, second: Option<ResultRecord>)
    requires s.Valid() && s.currentTest.Some?
    modifies s
    ensures first.Some? && second == first
    ensures !s.testStarted && s.showResults
  {
    first := s.SubmitTest(date, post);
    second := s.SubmitTest(date, post);
  }
}
