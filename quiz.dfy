/**
 * The navigation logic of the quiz page (src/pages/Quiz.tsx): the index of
 * the question on screen and the growing answer map, changed by the three
 * event handlers. The questions dataset is fixed for the page's life, so the
 * session holds its question ids. Saving to `localStorage` and navigating to
 * the results page become the `saved` field.
 */
module Quiz {
  import opened Wrappers
  import opened QuizTypes
  import Scoring

  class QuizSession {
    /** `questionsData.map(q => q.id)`, in dataset order. */
    const questionIds: seq<string>
    /** `currentQuestion`. */
    var current: nat
    /** `answers`. */
    var answers: AnswerMap
    /** What `handleNext` stored under "quizAnswers" when the quiz finished; `None` before. */
    var saved: Option<AnswerMap>

    /** The index always points at a question. */
    ghost predicate Valid()
      reads this
    {
      |questionIds| > 0 && current < |questionIds|
    }

    /** Every question before the current one has an answer. */
    ghost predicate AnsweredBehind()
      reads this
    {
      forall i :: 0 <= i < current && i < |questionIds| ==> questionIds[i] in answers
    }

    /** `useState(0)` and `useState<AnswerMap>({})`; the page reads question 0 at once, so the dataset is not empty. */
    constructor (ids: seq<string>)
      requires |ids| > 0
      ensures Valid() && AnsweredBehind()
      ensures questionIds == ids && current == 0 && answers == map[] && saved == None
    {
      questionIds := ids;
      current := 0;
      answers := map[];
      saved := None;
    }

    /** `questionsData[currentQuestion].id`. */
    function QuestionId(): string
      reads this
      requires Valid()
    {
      questionIds[current]
    }

    /** `isLastQuestion`. */
    predicate IsLastQuestion()
      reads this
      requires Valid()
    {
      current == |questionIds| - 1
    }

    /** `canGoNext`: the question on screen has an answer (any string, even ""). */
    predicate CanGoNext()
      reads this
      requires Valid()
    {
      QuestionId() in answers
    }

    /** `canGoBack`. */
    predicate CanGoBack()
      reads this
    {
      current > 0
    }

    /** `handleAnswer(choiceId)`: records the choice for the question on screen only. */
    method HandleAnswer(choiceId: string)
      requires Valid()
      modifies this`answers
      ensures Valid() && current == old(current)
      ensures old(AnsweredBehind()) ==> AnsweredBehind()
      ensures answers == old(answers)[old(QuestionId()) := choiceId]
      ensures answers.Keys == old(answers).Keys + {QuestionId()}
      ensures forall k :: k in old(answers) && k != QuestionId() ==> k in answers && answers[k] == old(answers)[k]
      ensures CanGoNext()
    {
      answers := answers[questionIds[current] := choiceId];
    }

    /**
     * `handleNext`: on the last question it saves the answers as they are and
     * finishes, staying on that question; otherwise it moves one question on.
     * The page disables the button unless `CanGoNext()`, but the handler
     * itself does not check it.
     */
    method HandleNext()
      requires Valid()
      modifies this`current, this`saved
      ensures Valid()
      ensures old(IsLastQuestion()) ==> current == old(current) && saved == Some(answers)
      ensures !old(IsLastQuestion()) ==> current == old(current) + 1 && saved == old(saved)
      ensures answers == old(answers)
      ensures old(AnsweredBehind()) && old(CanGoNext()) ==> AnsweredBehind()
      ensures old(AnsweredBehind()) && old(CanGoNext()) && old(IsLastQuestion()) ==>
                forall i :: 0 <= i < |questionIds| ==> questionIds[i] in saved.value
    {
      if current == |questionIds| - 1 {
        saved := Some(answers);
      } else {
        current := current + 1;
      }
    }

    /** `handleBack`: one question back unless already at the first. */
    method HandleBack()
      requires Valid()
      modifies this`current
      ensures Valid()
      ensures old(CanGoBack()) ==> current == old(current) - 1
      ensures !old(CanGoBack()) ==> current == old(current)
      ensures old(AnsweredBehind()) ==> AnsweredBehind()
    {
      if current > 0 {
        current := current - 1;
      }
    }
  }

  /**
   * A user who answers every question in turn, pressing Next after each
   * answer (so Next is only ever pressed when enabled): the session finishes
   * and saves exactly those answers, and when no chosen id is the empty
   * string they pass `validateAnswers`.
   */
  method AnswerInTurn(questions: seq<Question>, picks: seq<string>) returns (saved: AnswerMap)
    requires |questions| > 0 && |picks| == |questions|
    requires forall i, j :: 0 <= i < j < |questions| ==> questions[i].id != questions[j].id
    ensures forall i :: 0 <= i < |questions| ==> questions[i].id in saved && saved[questions[i].id] == picks[i]
    ensures forall k :: k in saved ==> exists i :: 0 <= i < |questions| && questions[i].id == k
    ensures (forall i :: 0 <= i < |picks| ==> picks[i] != "") ==> Scoring.ValidateAnswers(questions, saved)
  {
    var ids := QuestionIds(questions);
    var session := new QuizSession(ids);
    for i := 0 to |ids|
      invariant session.questionIds == ids && session.Valid()
      invariant i < |ids| ==> session.current == i && session.saved == None
      invariant i == |ids| ==> session.saved == Some(session.answers)
      invariant forall j :: 0 <= j < i ==> ids[j] in session.answers && session.answers[ids[j]] == picks[j]
      invariant forall k :: k in session.answers ==> exists j :: 0 <= j < i && ids[j] == k
    {
      session.HandleAnswer(picks[i]);
      session.HandleNext();
    }
    saved := session.saved.value;
  }
}
