/** What the do-it and show-it steps share: judging an answer against the
    current problem or question, and choosing the feedback text. */
module Scoring {
  import opened JsValues

  /** An answer recorded: whether it was correct, and the step afterwards. */
  datatype Answered<T> = Answered(correct: bool, state: T)

  /** `items[index]`: the sub-unit under a cursor, undefined past the end. */
  function Current(items: seq<Value>, index: nat): Value {
    if index < |items| then items[index] else Undefined
  }

  /** `answer === problem.correctAnswer` */
  predicate IsCorrect(problem: Value, answer: Value) {
    StrictEq(answer, Get(problem, "correctAnswer"))
  }

  /** The text a problem gives for a verdict: the matching entry of its
      feedback record when it has one, and the step kind's generic text
      otherwise. */
  function VerdictText(problem: Value, correct: bool, whenCorrect: string, whenIncorrect: string): Value {
    var feedback := Get(problem, "feedback");
    if Truthy(feedback) then Get(feedback, if correct then "correct" else "incorrect")
    else Str(if correct then whenCorrect else whenIncorrect)
  }

  /** The two verdicts read differently, so the text tells them apart. */
  predicate Distinguishes(problem: Value, whenCorrect: string, whenIncorrect: string) {
    VerdictText(problem, true, whenCorrect, whenIncorrect) != VerdictText(problem, false, whenCorrect, whenIncorrect)
  }
}
