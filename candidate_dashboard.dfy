/**
 * The candidate dashboard (app/candidate/dashboard/page.tsx): the available tests with their
 * previews, the candidate's attempts, the history table and the delete button.
 *
 * The React state (`tests`, `attempts`, `error`, `deleting`) is the class `Dashboard`; a state
 * update is an assignment to its field.  The DELETE request is the parameter `reply`, and the
 * confirmation dialog's answer the parameter `confirmed`.
 */
module CandidateDashboard {

  import opened Wrappers
  import opened Strings
  import Seqs
  import opened ListPages
  import AttemptsPage
  import LatexCleanup

  /** An attempt as the dashboard receives it; `submittedAt` is `None` for `null`. */
  datatype Attempt = Attempt(id: string, testId: string, score: int, submittedAt: Option<string>)

  /** A truthy `submitted_at`. */
  predicate Submitted(a: Attempt) {
    a.submittedAt.Some? && a.submittedAt.value != ""
  }

  /** No attempt before position `i` is a submitted attempt at `testId`. */
  predicate NoneBefore(attempts: seq<Attempt>, i: int, testId: string) {
    forall j :: 0 <= j < i && j < |attempts| ==> !(attempts[j].testId == testId && Submitted(attempts[j]))
  }

  function AttemptId(a: Attempt): string {
    a.id
  }

  const DeleteAttemptFailed := "Failed to delete attempt"

  class Dashboard {
    var tests: seq<Test>
    var attempts: seq<Attempt>
    var error: Option<string>
    var deleting: Option<string>

    /** The state once both lists have been fetched. */
    constructor (tests: seq<Test>, attempts: seq<Attempt>)
      ensures this.tests == tests && this.attempts == attempts
      ensures error == None && deleting == None
    {
      this.tests := tests;
      this.attempts := attempts;
      error := None;
      deleting := None;
    }

    /** `handleDeleteAttempt`: a cancelled dialog changes nothing; a successful request drops the
      * attempts with that id; a failed one records the error and keeps the list. */
    method DeleteAttempt(attemptId: string, confirmed: bool, reply: DeleteReply)
      modifies this
      ensures tests == old(tests)
      ensures !confirmed ==> attempts == old(attempts) && error == old(error) && deleting == old(deleting)
      ensures confirmed ==> deleting == None
      ensures confirmed && Succeeded(reply) ==> attempts == WithoutId(AttemptId, old(attempts), attemptId) && error == old(error)
      ensures confirmed && !Succeeded(reply) ==> attempts == old(attempts) && error == Some(FailureMessage(reply, DeleteAttemptFailed))
    {
      if !confirmed {
        return;
      }
      deleting := Some(attemptId);
      if Succeeded(reply) {
        attempts := WithoutId(AttemptId, attempts, attemptId);
      } else {
        error := Some(FailureMessage(reply, DeleteAttemptFailed));
      }
      deleting := None;
    }

    /** `getAttemptForTest`: the first submitted attempt at that test, if any. */
    function AttemptForTest(testId: string): (r: Option<Attempt>)
      reads this
      ensures r.None? <==> forall i :: 0 <= i < |attempts| ==> !(attempts[i].testId == testId && Submitted(attempts[i]))
      ensures r.Some? ==> r.value.testId == testId && Submitted(r.value)
      ensures r.Some? ==> exists i :: 0 <= i < |attempts| && attempts[i] == r.value && NoneBefore(attempts, i, testId)
    {
      Seqs.Find((a: Attempt) => a.testId == testId && Submitted(a), attempts)
    }

    /** The rows of the history table: the submitted attempts, in list order. */
    function History(): (r: seq<Attempt>)
      reads this
      ensures forall a :: a in r <==> a in attempts && Submitted(a)
    {
      Seqs.Filter(Submitted, attempts)
    }

    /** The test column of a history row. */
    function HistoryLabel(a: Attempt): string
      reads this
    {
      DisplayNameForId(tests, a.testId)
    }

    /** The card title: the same-day rank rule; the page's `index` argument plays no part. */
    function CardTitle(test: Test): string
      reads this
    {
      DisplayName(tests, test)
    }
  }

  /** The card preview: the first 100 characters of the cleaned question, then "...". */
  function Preview(test: Test): string {
    Take(LatexCleanup.CleanLaTeX(test.sourceQuestion), 100) + "..."
  }

  /** The badge in the history table: 7 and above is green, 5 and 6 yellow, below 5 red. */
  function ScoreTone(score: int): (t: Tone)
    ensures t == Green <==> score >= 7
    ensures t == Yellow <==> 5 <= score < 7
    ensures t == Red <==> score < 5
  {
    Badge(score, 7, 5)
  }

  // ---------------------------------------------------------------------------
  // Properties

  /** A preview is at most 103 characters: a prefix of the cleaned question and the ellipsis;
    * a short question is shown whole. */
  lemma PreviewShape(test: Test)
    ensures |Preview(test)| <= 103
    ensures Preview(test)[|Preview(test)| - 3..] == "..."
    ensures Preview(test)[..|Preview(test)| - 3] <= LatexCleanup.CleanLaTeX(test.sourceQuestion)
    ensures |LatexCleanup.CleanLaTeX(test.sourceQuestion)| <= 100 ==> Preview(test) == LatexCleanup.CleanLaTeX(test.sourceQuestion) + "..."
  {
    var c := LatexCleanup.CleanLaTeX(test.sourceQuestion);
    var t := Take(c, 100);
    assert Preview(test)[..|t|] == t;
  }

  /** The candidate badge and the admin colour disagree only at a score of 7. */
  lemma BadgesDisagreeAtSeven(score: int)
    ensures ScoreTone(score) != AttemptsPage.ScoreColor(score) <==> score == 7
  {
  }

  /** Deleting removes exactly the attempts with that id, and the history loses exactly theirs. */
  lemma DeletedAttemptsGone(attempts: seq<Attempt>, attemptId: string)
    ensures forall a :: a in WithoutId(AttemptId, attempts, attemptId) <==> a in attempts && a.id != attemptId
    ensures forall a :: a in Seqs.Filter(Submitted, WithoutId(AttemptId, attempts, attemptId)) <==>
      a in Seqs.Filter(Submitted, attempts) && a.id != attemptId
  {
  }
}
