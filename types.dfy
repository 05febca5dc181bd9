/**
 * Record shapes of the quiz (src/lib/types.ts) and of the two datasets
 * (questions and states) that the scoring engine and the quiz page read.
 */
module QuizTypes {

  /** One entry of a choice's `weights` object: points the choice gives a state. */
  datatype Weight = Weight(state: string, points: int)

  /** `QuizChoice` (its `label` is `caption` here): its `weights` are the object's entries in insertion order. */
  datatype Choice = Choice(id: string, caption: string, weights: seq<Weight>)

  /** `QuizQuestion`. */
  datatype Question = Question(id: string, prompt: string, choices: seq<Choice>)

  /** The part of a states-dataset record that the core reads. */
  datatype StateInfo = StateInfo(code: string, name: string, topCities: seq<string>)

  /** `StateScore`: a ranking entry. */
  datatype StateScore = StateScore(state: string, city: string, score: int)

  /** `AnswerMap`: question id to chosen choice id. */
  type AnswerMap = map<string, string>

  /** The question ids of a questions dataset, in dataset order. */
  function QuestionIds(questions: seq<Question>): (ids: seq<string>)
    ensures |ids| == |questions|
    ensures forall i :: 0 <= i < |questions| ==> ids[i] == questions[i].id
  {
    seq(|questions|, i requires 0 <= i < |questions| => questions[i].id)
  }
}
