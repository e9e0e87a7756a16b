/**
 * The admin test list (app/admin/tests/page.tsx): each card shows the cleaned question, the
 * correct answer when there is a real one, and a delete button.
 *
 * `tests`, `error` and `deleting` are the fields of `TestList`; the DELETE request is the
 * parameter `reply` and the confirmation dialog's answer the parameter `confirmed`.
 */
module TestsPage {

  import opened Wrappers
  import opened Strings
  import Seqs
  import opened ListPages
  import GenerateRoute

  function TestId(t: Test): string {
    t.id
  }

  const DeleteTestFailed := "Failed to delete test"

  class TestList {
    var tests: seq<Test>
    var error: Option<string>
    var deleting: Option<string>

    /** The state once the list has been fetched. */
    constructor (tests: seq<Test>)
      ensures this.tests == tests && error == None && deleting == None
    {
      this.tests := tests;
      error := None;
      deleting := None;
    }

    /** `handleDelete`: the list loses the test only when the request succeeds. */
    method Delete(testId: string, confirmed: bool, reply: DeleteReply)
      modifies this
      ensures !confirmed ==> tests == old(tests) && error == old(error) && deleting == old(deleting)
      ensures confirmed ==> deleting == None
      ensures confirmed && Succeeded(reply) ==> tests == WithoutId(TestId, old(tests), testId) && error == old(error)
      ensures confirmed && !Succeeded(reply) ==> tests == old(tests) && error == Some(FailureMessage(reply, DeleteTestFailed))
    {
      if !confirmed {
        return;
      }
      deleting := Some(testId);
      if Succeeded(reply) {
        tests := WithoutId(TestId, tests, testId);
      } else {
        error := Some(FailureMessage(reply, DeleteTestFailed));
      }
      deleting := None;
    }

    /** The card title: the same-day rank rule; the page's `index` argument plays no part. */
    function CardTitle(test: Test): string
      reads this
    {
      DisplayName(tests, test)
    }
  }

  /** The correct-answer panel is shown for a non-empty answer other than the placeholder. */
  predicate ShowsAnswer(test: Test) {
    test.sourceAnswer != "" && test.sourceAnswer != GenerateRoute.SeeQuestionText
  }

  /** A test stored by the generation route shows its answer exactly when the route found a real one. */
  lemma StoredAnswerShown(test: Test, question: string, supplied: Option<string>)
    requires test.sourceAnswer == GenerateRoute.FinalAnswer(question, supplied)
    ensures ShowsAnswer(test) <==> GenerateRoute.FinalAnswer(question, supplied) != GenerateRoute.SeeQuestionText
  {
    GenerateRoute.AnswerNonBlank(question, supplied);
  }

  /** A successful delete leaves the other tests, in order, and no test with that id. */
  lemma DeleteKeepsOthers(xs: seq<Test>, test: Test, ys: seq<Test>)
    requires UniqueIds(xs + [test] + ys)
    ensures WithoutId(TestId, xs + [test] + ys, test.id) == xs + ys
  {
    OthersHaveOtherIds(xs, test, ys);
    WithoutSoleHolder(TestId, xs, test, ys, test.id);
  }

  lemma OthersHaveOtherIds(xs: seq<Test>, test: Test, ys: seq<Test>)
    requires UniqueIds(xs + [test] + ys)
    ensures forall i :: 0 <= i < |xs| ==> xs[i].id != test.id
    ensures forall i :: 0 <= i < |ys| ==> ys[i].id != test.id
  {
    var all := xs + [test] + ys;
    assert all[|xs|] == test;
    forall i | 0 <= i < |xs| ensures xs[i].id != test.id {
      assert all[i] == xs[i];
    }
    forall i | 0 <= i < |ys| ensures ys[i].id != test.id {
      assert all[|xs| + 1 + i] == ys[i];
    }
  }
}
