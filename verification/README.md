# CBDA exam simulator: the front end's session logic, in Dafny

This project models the core of the CBDA exam simulator's React front end and
proves properties of that model. The core has four parts:

- **The student dashboard's test session** (`exam_session.dfy`). A chapter test
  (3600 s) or a mock exam (7200 s) starts, and answers are recorded. The student
  moves between questions with Previous, Next and the navigator. A one-second
  countdown submits when time runs out. Submitting counts the correct answers,
  computes the rounded percentage, builds the result record and reloads the
  student's history. The session is the dashboard's hook state, so it is a
  class (`Session`) whose methods update its fields. The loop that counts
  correct answers is a method, proved against a counting function. The
  supporting helpers are pure:
  - `decimal.dfy`: number-to-text conversion and `padStart`;
  - `rounding.dfy`: `Math.round` of a quotient;
  - `scores.dfy`: sum, average, maximum and the 70 % pass mark;
  - `time_format.dfy`: `formatTime` and the timer thresholds.
- **The e-mail verification codes** (`verification_codes.dfy`). A six-digit
  code is kept in browser storage under `"verification_" + email`, with an
  expiry 15 minutes after it was stored.
  - `Store` and `Verify` give the storage transitions as functions.
  - The class `EmailService` performs the same transitions in place.
- **The application shell** (`app_shell.dfy`).
  - It restores the signed-in user from storage when it mounts.
  - It stores the user on login and removes it on logout.
  - It chooses the screen: spinner, login, administrator or student.
- **The administrator's derived figures** (`admin_stats.dfy`). These are pure
  functions:
  - the students page (student filter, each student's results, test count and
    rounded average);
  - the pass styling;
  - the question-count badge of the test cards;
  - the display name of a cloud file;
  - the `|| 0` fallback of the statistic cards.

`records.dfy` holds the records received from the server, and `wrappers.dfy`
holds `Option`.

Arithmetic is exact. `Math.round(a / b)` with `b > 0` is the integer
`(2a + b) div 2b`. Its contract is the half-up bracket
`2br - b <= 2a < 2br + b`, and it is proved unique. JavaScript's `%` truncates,
so it is modelled separately as `JsRem`.

The model follows the code in the following places:

- **No double-submit guard.** `submitTest` checks no flag, so a second call
  scores again and posts a second record. `ExamSession.SubmitTwice` shows this.
  A phase-based "scores exactly once" guarantee is therefore not modelled,
  because the code has no such guard.
- **The timer-driven submission records "59:59".** The countdown effect
  re-subscribes whenever `timeRemaining` changes, and its interval calls the
  `submitTest` of the render that subscribed it. When the clock of a chapter
  test is at 1, that render had `timeRemaining` 1, so the submission computes
  the time taken from one second left. The posted record therefore says
  `"59:59"`, while the results page, rendered after the 0 is stored, shows
  `"60:00"`. `ExamSession.ChapterTimesOut` proves both.
- **A failed load still starts the timer.** `startTest` sets `testStarted`
  before the questions are requested. A failed or empty load therefore leaves
  a running countdown with no questions.
  - If that countdown runs out, the score is `Math.round(0 / 0 * 100)`, which is
    NaN. This is `Score.NotANumber`.
  - Without a current test, reading `currentTest.name` throws after the score
    was set. Then no record is built and the flags are unchanged.

## Model

| member | source | states |
|---|---|---|
| ExamSession.Session.constructor | src/components/StudentDashboard1.js:20-30 | The dashboard starts on the home page with no test, no questions, no answers, 7200 s on the clock, not started, no results shown and score 0. |
| ExamSession.Session.LoadUserResults | src/components/StudentDashboard1.js:67-77 | The history is replaced by the loaded results only when the request reports success; otherwise it is kept. |
| ExamSession.Session.ShowPage | src/components/StudentDashboard1.js:169-180 | A header button switches to its page: home, performance or profile. None of these buttons opens the test page, which only starting a test does. |
| ExamSession.Session.StartTest | src/components/StudentDashboard1.js:85-110 | Answers are cleared, the question index is 0, the clock is 7200 s for a mock and 3600 s for a chapter, and the test is started (the timer is armed) whatever the load gives. Only a load with questions installs the test and its questions, hides the results and opens the test page. Otherwise there are no questions and the current test, page and results flag stay as they were. |
| ExamSession.Session.HandleAnswer | src/components/StudentDashboard1.js:112-114 | The answer for the question is set to the chosen option, replacing any earlier one, and every other recorded answer is unchanged. |
| ExamSession.Session.Previous | src/components/StudentDashboard1.js:404-405 | The index moves back one and stays at 0 on the first question, so it stays a valid question index. On the first question the button is disabled (line 405), and the index does not change. |
| ExamSession.Session.Next | src/components/StudentDashboard1.js:412-418 | Next is offered on every question but the last, and it moves forward one. On the last question Submit is offered instead and the clamp keeps the index. The index stays valid. |
| ExamSession.Session.GoToQuestion | src/components/StudentDashboard1.js:428-431 | A navigator button shows the question at its position. |
| ExamSession.Session.SubmitTest | src/components/StudentDashboard1.js:116-153 | The score is the rounded percentage of correct answers, or NaN for an empty test. Without a current test nothing else changes and no record is built. Otherwise the record is built from the questions, answers and time left, the history is the reloaded one when the reload succeeded, and the test ends with the results shown whether or not saving worked. |
| ExamSession.Session.Tick | src/components/StudentDashboard1.js:52-65 | A tick changes nothing unless the test is started and time is left. From more than 1 s it takes exactly one second off and changes nothing else. From 1 s or less it submits, seeing the old time, and sets the clock to 0. Time never goes negative or up. |
| ExamSession.ChapterTimesOut | src/components/StudentDashboard1.js:52-61 | A chapter test left alone submits on exactly the 3600th tick. Its record says "59:59" and the results page then says "60:00". |
| ExamSession.ChapterLastSecondTaken | src/components/StudentDashboard1.js:132 | A chapter test submitted with one second left records "59:59" as the time taken. |
| ExamSession.ChapterFullTimeTaken | src/components/StudentDashboard1.js:347 | A chapter test whose clock reached 0 shows "60:00" as the time taken. |
| ExamSession.SubmitTwice | src/components/StudentDashboard1.js:116-153 | A second submission of the same session succeeds again and builds a record equal to the first. |
| ExamSession.CountCorrect | src/components/StudentDashboard1.js:117-122 | The counting loop's result is the number of correctly answered questions, at most the number of questions. |
| ExamSession.CorrectCount | src/components/StudentDashboard1.js:118-121 | The count of correct answers never exceeds the number of questions. |
| ExamSession.CorrectCountCountsPositions | src/components/StudentDashboard1.js:117-122 | The count equals the number of positions whose recorded answer equals the question's correct answer. |
| ExamSession.NoAnswersNoneCorrect | src/components/StudentDashboard1.js:119 | An unanswered question never counts: with no answers the count is 0. |
| ExamSession.AllAnsweredCorrectly | src/components/StudentDashboard1.js:117-122 | When every question carries its correct answer, every question counts. |
| ExamSession.FinalScore | src/components/StudentDashboard1.js:124 | The score is NaN exactly when there are no questions. Otherwise it is the half-up rounding of 100·correct/total and lies in 0..100. |
| ExamSession.ScoringExample | src/components/StudentDashboard1.js:117-124 | Four questions with three answered correctly give count 3 and score 75. |
| ExamSession.ShowsPass | src/components/StudentDashboard1.js:327 | The results page shows a pass exactly for a percentage of at least 70; NaN shows as not passed. |
| ExamSession.BuildResult | src/components/StudentDashboard1.js:127-138 | The record carries the test's name and type, the date, the time taken from the time left, the number of questions, the correct count (at most that number), the score computed from them, and the user's id, name and e-mail. |
| ExamSession.TimeTaken | src/components/StudentDashboard1.js:132 | The time taken, as recorded and as the results page shows it (line 347), reads back as the test's duration minus the time left whenever that is within the duration. |
| ExamSession.Session.ShownTimeTaken | src/components/StudentDashboard1.js:347 | The results page's time taken reads back as the current test's duration minus the time left, whenever that is within the duration. |
| ExamSession.AfterPost | src/components/StudentDashboard1.js:140-149 | After the post the history is the reloaded results when the reload succeeded, and is unchanged when the post threw or the reload failed. |
| ExamSession.Duration | src/components/StudentDashboard1.js:89-90 | The countdown is 7200 s exactly for a mock exam and 3600 s for a chapter test, so always between 3600 s and 7200 s. |
| ExamSession.AverageScore | src/components/StudentDashboard1.js:237 | The displayed average is 0 for no results. Otherwise it is the half-up rounding of the sum of the scores divided by their number. |
| ExamSession.AverageScoreWithinResults | src/components/StudentDashboard1.js:237 | The displayed average is 0 for no results. Otherwise it lies between some result's score and some result's score: between the lowest and the highest. |
| ExamSession.LastScore | src/components/StudentDashboard1.js:251 | The last score is 0 for no results, and otherwise the score of the last result. |
| ExamSession.LastScoreOfAppended | src/components/StudentDashboard1.js:251 | After a result is appended, the last score is that result's score. |
| ExamSession.HighestScore | src/components/StudentDashboard1.js:529 | The highest score is 0 for no results; otherwise it is some result's score and no result's score is larger. |
| ExamSession.TestsPassed | src/components/StudentDashboard1.js:533 | The passed count never exceeds the number of results. |
| ExamSession.TestsPassedCountsPasses | src/components/StudentDashboard1.js:533 | The passed count is the number of results scoring at least 70. |
| Scores.Average | src/components/StudentDashboard1.js:525 | The average of no scores is 0. Otherwise it is the half-up rounding of their sum divided by their number. |
| Scores.SumBetween | src/components/StudentDashboard1.js:237 | The sum of the scores lies between their number times the lowest score and their number times the highest. |
| Scores.Highest | src/components/StudentDashboard1.js:529 | The maximum of no scores is 0; otherwise it is one of the scores and bounds all of them. |
| Scores.AverageWithinRange | src/components/StudentDashboard1.js:525 | The rounded mean of a non-empty list lies between its lowest and highest element. |
| Scores.AverageOfEqualScores | src/components/StudentDashboard1.js:525 | The average of equal scores is that score. |
| Scores.CountPassing | src/components/StudentDashboard1.js:533 | The number of passing scores is at most the number of scores. |
| Scores.CountPassingCountsPositions | src/components/StudentDashboard1.js:533 | The passing count is the number of positions holding a score of at least 70. |
| Records.ScoresOf | src/components/StudentDashboard1.js:529 | The scores list has one entry per result, equal to that result's score. |
| Rounding.RoundDiv | src/components/StudentDashboard1.js:237 | The quotient is rounded half up: the result r satisfies 2·den·r − den ≤ 2·num < 2·den·r + den. |
| Rounding.RoundDivUnique | src/components/StudentDashboard1.js:237 | Exactly one integer satisfies the half-up bracket, so the rounding is determined. |
| Rounding.RoundDivWithin | src/components/StudentDashboard1.js:237 | Rounding a quotient that lies between two integers stays between them. |
| Rounding.Percent | src/components/StudentDashboard1.js:124 | A rounded percentage lies in 0..100, is 0 for no correct answers and 100 for all correct. |
| Rounding.PercentMonotonic | src/components/StudentDashboard1.js:124 | More correct answers never give a lower percentage. |
| Rounding.PercentExamples | src/components/StudentDashboard1.js:124 | 3 of 4 gives 75, 2 of 3 gives 67 and 1 of 8 gives 13. |
| TimeFormat.JsRem | src/components/StudentDashboard1.js:81 | The remainder of a non-negative number is the usual one in 0..59; a negative dividend gives a remainder in −59..0. |
| TimeFormat.FormatTimeRoundTrip | src/components/StudentDashboard1.js:79-83 | A non-negative duration is rendered as minutes, a colon and exactly two second digits, and reads back as the same duration. |
| TimeFormat.FormatTimeInjective | src/components/StudentDashboard1.js:79-83 | Two different non-negative durations never render alike. |
| TimeFormat.ChapterDurationText | src/components/StudentDashboard1.js:79-83 | 3600 s renders as "60:00". |
| TimeFormat.LastSecondText | src/components/StudentDashboard1.js:79-83 | 3599 s renders as "59:59". |
| TimeFormat.MockDurationText | src/components/StudentDashboard1.js:79-83 | 7200 s renders as "120:00". |
| TimeFormat.PaddedSecondsText | src/components/StudentDashboard1.js:79-83 | Seconds below ten are zero-padded: 65 s renders as "1:05". |
| TimeFormat.IsLowTime | src/components/StudentDashboard1.js:315 | The timer is drawn as running low exactly below 600 s. |
| TimeFormat.IsCriticalTime | src/components/StudentDashboard1.js:315-316 | The timer is drawn as critical exactly below 300 s, and critical time is always also low time (below 600 s). |
| Decimal.IntToString | src/components/StudentDashboard1.js:82 | An integer's text is never empty. A non-negative number's text is its decimal digits; a negative one's is "-" followed by the digits of its magnitude. |
| Decimal.PadStart2 | src/components/StudentDashboard1.js:82 | A text of two or more characters is unchanged. A shorter one becomes exactly two characters: zeros followed by the text. |
| Decimal.NatToString | src/components/StudentDashboard1.js:82 | A number's text is a non-empty string of digits that starts with 0 only for 0. |
| Decimal.NatToStringRoundTrip | src/components/StudentDashboard1.js:82 | A number's decimal text reads back as the number. |
| Decimal.PadStart2Value | src/components/StudentDashboard1.js:82 | The seconds field of a value below 100 is exactly two digits that read back as the value. |
| VerificationCodes.GenerateVerificationCode | src/utils/emailService1.js:7-9 | The code is six digits without a leading zero, with value 100000 plus the draw, so between 100000 and 999999. |
| VerificationCodes.StorageKey | src/utils/emailService1.js:32 | The storage key is "verification_" followed by the address. |
| VerificationCodes.StorageKeyInjective | src/utils/emailService1.js:32 | Different addresses never share a storage key. |
| VerificationCodes.Store | src/utils/emailService1.js:30-33 | The address's key holds the code with an expiry 900000 ms after now, replacing any earlier entry, and every other entry is unchanged. |
| VerificationCodes.Verify | src/utils/emailService1.js:35-52 | With no entry the check fails and changes nothing. An expired entry fails and is deleted even when the code matches. An unexpired match succeeds and deletes the entry. An unexpired mismatch fails and keeps it. |
| VerificationCodes.VerifyAcceptsExactly | src/utils/emailService1.js:35-52 | A code is accepted exactly when an entry exists for the address, has not expired (the expiry moment itself still counts) and holds that code. |
| VerificationCodes.VerifyLeavesOthers | src/utils/emailService1.js:35-52 | Checking a code never adds, removes or changes another address's entry. |
| VerificationCodes.SingleUse | src/utils/emailService1.js:46-49 | After a code is accepted, the same check fails at any later time. |
| VerificationCodes.FreshCodeLifetime | src/utils/emailService1.js:31-44 | A freshly stored code is accepted exactly up to 900000 ms after it was stored. |
| VerificationCodes.RetryAfterMismatch | src/utils/emailService1.js:46-51 | A wrong guess changes nothing, so the right code is still accepted later within the lifetime. |
| VerificationCodes.NewCodeReplacesOld | src/utils/emailService1.js:30-33 | Once a new code is stored for an address, the old code is refused. |
| VerificationCodes.EmailService.constructor | src/utils/emailService1.js:3-5 | The service starts over the storage as it is. |
| VerificationCodes.EmailService.StoreVerificationCode | src/utils/emailService1.js:30-33 | The storage afterwards is the old storage with the code stored for the address. |
| VerificationCodes.EmailService.VerifyCode | src/utils/emailService1.js:35-52 | The answer and the storage afterwards are exactly the check's outcome on the old storage. |
| VerificationCodes.EmailService.SendVerificationEmail | src/utils/emailService1.js:11-28 | The call succeeds exactly when the storage accepts the write, and then the storage holds exactly that code for that address. When the write throws, the call reports failure and the storage is unchanged. |
| AppShell.Parse | src/App.js:17-19 | A stored user parses back to the same user; other stored text does not parse. |
| AppShell.Route | src/App.js:35-54 | The spinner shows exactly while loading. Otherwise the login screen shows exactly when there is no user, the administrator's dashboard exactly for the role "admin", and the student's dashboard for any other role. |
| AppShell.OnlyAdminsSeeAdminScreen | src/App.js:50-51 | Only a user with the role "admin" reaches the administrator's dashboard. |
| AppShell.App.View | src/App.js:35-54 | The shell shows the spinner exactly while loading, and the login screen exactly when loading is over and there is no user. The administrator's dashboard is shown only to a user with the role "admin". |
| AppShell.App.constructor | src/App.js:9-10 | The shell starts loading, with no user, over the storage as it is. |
| AppShell.App.Mount | src/App.js:12-23 | Loading always ends. A stored user becomes the user. Stored text that does not parse is removed and the user stays. A missing or empty entry changes nothing. |
| AppShell.App.HandleLogin | src/App.js:25-28 | The user is set and stored under "cbda_user"; the rest of the storage and the loading flag are unchanged. |
| AppShell.App.HandleLogout | src/App.js:30-33 | The user is cleared and "cbda_user" removed; the rest of the storage is unchanged. |
| AppShell.LoginSurvivesReload | src/App.js:12-28 | After a login, a new shell mounted over the same storage restores the same user. |
| AppShell.LogoutSurvivesReload | src/App.js:12-33 | After a login and a logout, a new shell mounted over the same storage shows the login screen. |
| AdminStats.Students | src/components/AdminDashboard1.js:574 | Every student occurs in the list as often as in the users, and no other user occurs. |
| AdminStats.StudentsListsExactlyStudents | src/components/AdminDashboard1.js:574 | A user is listed exactly when the user is among the users and has the role "student". |
| AdminStats.ResultsOf | src/components/AdminDashboard1.js:575 | A student's results are exactly the results with that student's id, each as often as in the full list. |
| AdminStats.TestsTaken | src/components/AdminDashboard1.js:594 | A student's test count never exceeds the number of results. |
| AdminStats.TestsTakenCountsOwnResults | src/components/AdminDashboard1.js:594 | The test count is the number of results whose user id is the student's. |
| AdminStats.StudentAverage | src/components/AdminDashboard1.js:576-578 | A student's average is 0 without results. Otherwise it is the half-up rounding of the sum of that student's scores divided by their number. |
| AdminStats.StudentAverageWithinOwnScores | src/components/AdminDashboard1.js:576-578 | A student's average is 0 without results. Otherwise it lies between the scores of two of that student's own results. |
| AdminStats.AveragePassStyle | src/components/AdminDashboard1.js:576-598 | The pass styling (a score of at least 70, the same rule as for each result's score at line 531) marks a student's average whenever it marks every one of that student's results, and never marks the average when it marks none of them. |
| AdminStats.FirstMatch | src/components/AdminDashboard1.js:359 | The search stops at the first test whose type matches and whose id equals the card number's decimal text. It finds nothing exactly when no test matches. |
| AdminStats.FindAvailable | src/components/AdminDashboard1.js:389 | The found test is the first available test that matches: no test before it matches. Nothing is found exactly when no available test matches. |
| AdminStats.ShowsQuestionCount | src/components/AdminDashboard1.js:364 | A card shows a question count exactly when some available test matches its type and number. |
| AdminStats.MatchesAtMostOneCard | src/components/AdminDashboard1.js:359 | An available test matches at most one card number of its type (here and for the mock cards at line 389), because distinct numbers have distinct decimal texts. |
| AdminStats.MatchedIdReadsBack | src/components/AdminDashboard1.js:359 | A matching test id is the canonical decimal text of the card number: digits, no leading zero, value equal to the number. |
| AdminStats.FirstOccurrence | src/components/AdminDashboard1.js:465 | The position found is the first at which the pattern occurs; none is found exactly when it never occurs. |
| AdminStats.DisplayName | src/components/AdminDashboard1.js:465 | The first "exports/" in the name is removed; a name without one is shown unchanged. |
| AdminStats.DisplayNameOfExport | src/components/AdminDashboard1.js:480 | A file under "exports/" is shown, and deleted, by the rest of its path. |
| AdminStats.DisplayNameKeepsOthers | src/components/AdminDashboard1.js:465 | A name without "exports/" is unchanged, and a display name is never longer than the name. |
| AdminStats.OrZero | src/components/AdminDashboard1.js:254 | A missing statistic is shown as 0; a present one is shown as it is. |
| AdminStats.DisplayedStatistics | src/components/AdminDashboard1.js:254-290 | The four cards show total students, tests completed, average score and pass rate, each with the 0 fallback. |
| AdminStats.EmptyStatisticsShowZero | src/components/AdminDashboard1.js:11 | Before the statistics load, every card shows 0. |

## Left out

- Every `fetch` is left out. Each operation that fetches takes the outcome as a parameter:
  - the question load is `LoadOutcome`;
  - the result post and the history reload are `PostOutcome`;
  - `loadUserResults` takes the reloaded list.
- The administrator's loads, deletions, exports, uploads and cloud listing are network calls and are not modelled. Only the derivations over the loaded lists are.
- The `loading` flag of the student dashboard is not modelled. It only disables buttons while a request is pending.
- `Math.random`, `Date.now` and `toLocaleDateString` are parameters:
  - the draw is `draw` (`Math.floor(Math.random() * 900000)`);
  - the clock in milliseconds is `now`;
  - the formatted date is `date`.
- Floating point is replaced by exact arithmetic. The model uses the mathematically exact rounding, and double rounding errors in `Math.round` of a quotient are not modelled.
- The display-only float values are left out:
  - the progress bar percentage (src/components/StudentDashboard1.js:314, 377);
  - the file size in KB (src/components/AdminDashboard1.js:467).
- The NaN score is kept as `Score.NotANumber`. How `JSON.stringify` writes it (as `null`) is part of the post and is not modelled.
- `JSON.parse` and `JSON.stringify` are abstract. A stored value is a serialised user or text that does not parse. Valid JSON that is not a user object is not distinguished.
- React's effect re-subscription, the interval and asynchronous state batching are not modelled. Ticks and clicks are sequential method calls, and a submission completes within the call that starts it.
- JSX, CSS classes, `alert`, `window.confirm`, `console` and the `setTimeout` reload are left out. The pass styling and the timer thresholds are modelled as the conditions that pick a style.
- Every question is taken to carry a numeric `correctAnswer`. In the code, a question without one would count as correct when unanswered, since `undefined === undefined` (src/components/StudentDashboard1.js:119). The model does not represent such questions.
- ExamSession.Session.Tick: the timer's submission in the code scores the answers of the render in which the clock reached 1 s, so an answer chosen during the last second is not counted. The model scores the answers as they are at the final tick.
- `submitTest` without a current test throws inside an async function. The model stops there, with the score set. The unhandled rejection itself is not modelled.
- TimeFormat.JsRem: for a negative dividend the contract states only that the remainder lies in −59..0. The body gives the exact JavaScript value. A negative time taken exists only as a value of `ExamSession.Session.ShownTimeTaken`, when the clock exceeds the duration the results page uses (src/components/StudentDashboard1.js:347). This happens in two cases. A mock start resets the clock to 7200 s (line 88) even when its load fails, which can leave that clock over a current chapter test. With no current test, which the page counts as a chapter, the clock can also be 7200 s; the page is then never on screen, because only line 101 opens it and only with a current test.
- AdminStats.Students: the contract states the listed users as a multiset. The order, which the filter preserves, is given by the body but not stated.
- AdminStats.ResultsOf: the contract states the results as a multiset. The order, which the filter preserves, is given by the body but not stated.
- `Number.prototype.toString` switches to exponent notation from 1e21. The model always writes plain decimal digits. Minutes and card numbers never come near that.
- backend/config/firebase-storage.js is not part of this model. It wraps the cloud storage SDK and the file system.
- src/components/Login1.js is not part of this model. It is form state around one request.
- The configuration files backend/config/emailConfig.js, src/config/emailConfig.js and backend/config/api.js are not part of this model. They hold constants and templates.
