/**
 * The records the front end receives from its server: signed-in users and the
 * persisted test results that both dashboards read.
 */
module Records {

  /** A user as the login endpoint returns it; `role` is "admin" or "student". */
  datatype User = User(id: string, name: string, email: string, role: string)

  /** A persisted result as the result endpoints return it. */
  datatype StoredResult = StoredResult(
    id: string,
    userId: string,
    userName: string,
    userEmail: string,
    testName: string,
    score: int,
    date: string,
    timeTaken: string,
    correctAnswers: int,
    totalQuestions: int)

  /** `results.map(r => r.score)`. */
  function ScoresOf(results: seq<StoredResult>): (scores: seq<int>)
    ensures |scores| == |results|
    ensures forall i :: 0 <= i < |results| ==> scores[i] == results[i].score
  {
    seq(|results|, i requires 0 <= i < |results| => results[i].score)
  }
}
