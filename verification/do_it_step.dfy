/** The do-it (practice) step: a list of problems with a cursor, a running
    score and one recorded answer per problem. */
module DoItStep {
  import opened JsValues
  import opened Errors
  import opened LessonStep
  import Paging
  import Scoring

  datatype DoIt = DoIt(
    base: StepBase,
    format: Value,
    problems: seq<Value>,
    variety: Value,
    instructions: Value,
    completion: Value,
    currentProblemIndex: nat,
    score: nat,
    answers: seq<Value>)

  const Tag := "do-it"

  predicate Valid(d: DoIt) {
    && Paging.InRange(d.currentProblemIndex, |d.problems|)
    && |d.answers| == |d.problems|
  }

  /** `new DoItStep(config)`: cursor 0, score 0, every answer slot null. */
  function New(config: Value): (r: Result<DoIt>)
    requires !Nullish(config)
    ensures NewBase(config).Err? ==> r == Err(NewBase(config).error)
    ensures r.Ok? <==> NewBase(config).Ok? && ListField(config, "problems").Ok?
    ensures r.Ok? ==>
              && Valid(r.value)
              && r.value.base == NewBase(config).value
              && r.value.problems == ListField(config, "problems").value
              && r.value.currentProblemIndex == 0
              && r.value.score == 0
              && |r.value.answers| == |r.value.problems|
              && (forall i :: 0 <= i < |r.value.answers| ==> r.value.answers[i] == Null)
              && r.value.format == Get(config, "format")
              && r.value.variety == Get(config, "variety")
              && r.value.instructions == Get(config, "instructions")
              && r.value.completion == Get(config, "completion")
  {
    var base :- NewBase(config);
    var problems :- ListField(config, "problems");
    Ok(DoIt(base, Get(config, "format"), problems, Get(config, "variety"),
            Get(config, "instructions"), Get(config, "completion"),
            0, 0, seq(|problems|, _ => Null)))
  }

  /** `nextProblem()` */
  function NextProblem(d: DoIt): (r: Paging.Moved<DoIt>)
    requires Valid(d)
    ensures Valid(r.state)
    ensures r.moved <==> d.currentProblemIndex < |d.problems| - 1
    ensures r.state == d.(currentProblemIndex := if r.moved then d.currentProblemIndex + 1 else d.currentProblemIndex)
  {
    var m := Paging.Next(d.currentProblemIndex, |d.problems|);
    Paging.Moved(m.moved, d.(currentProblemIndex := m.state))
  }

  /** `previousProblem()` */
  function PreviousProblem(d: DoIt): (r: Paging.Moved<DoIt>)
    requires Valid(d)
    ensures Valid(r.state)
    ensures r.moved <==> d.currentProblemIndex > 0
    ensures r.moved ==> r.state == d.(currentProblemIndex := d.currentProblemIndex - 1)
    ensures !r.moved ==> r.state == d
  {
    var m := Paging.Previous(d.currentProblemIndex, |d.problems|);
    Paging.Moved(m.moved, d.(currentProblemIndex := m.state))
  }

  predicate IsFirstProblem(d: DoIt) {
    d.currentProblemIndex == 0
  }

  predicate IsLastProblem(d: DoIt) {
    d.currentProblemIndex == |d.problems| - 1
  }

  /** `getCurrentProblem()`: undefined when there are no problems. */
  function GetCurrentProblem(d: DoIt): (r: Value)
    requires Valid(d)
    ensures |d.problems| > 0 ==> r == d.problems[d.currentProblemIndex]
    ensures |d.problems| == 0 ==> r == Undefined
  {
    Scoring.Current(d.problems, d.currentProblemIndex)
  }

  /** `getCurrentProblemId()` */
  function GetCurrentProblemId(d: DoIt): (r: Result<Value>)
    requires Valid(d)
    ensures r.Ok? <==> |d.problems| > 0 && !Nullish(d.problems[d.currentProblemIndex])
    ensures r.Ok? ==> r.value == Get(d.problems[d.currentProblemIndex], "id")
    ensures r.Err? ==> r.error == TypeError
  {
    var problem := GetCurrentProblem(d);
    if Nullish(problem) then Err(TypeError) else Ok(Get(problem, "id"))
  }

  /** `recordAnswer(answer)`: judges the answer against the current problem,
      stores it in that problem's slot and adds one to the score when it is
      correct, on every call, so re-recording a correct answer counts again.
      Throws when there is no current problem object. */
  function RecordAnswer(d: DoIt, answer: Value): (r: Result<Scoring.Answered<DoIt>>)
    requires Valid(d)
    ensures r.Ok? <==> |d.problems| > 0 && !Nullish(d.problems[d.currentProblemIndex])
    ensures r.Err? ==> r.error == TypeError
    ensures r.Ok? ==>
              var i := d.currentProblemIndex;
              && r.value.correct == Scoring.IsCorrect(d.problems[i], answer)
              && Valid(r.value.state)
              && r.value.state.answers == d.answers[i := answer]
              && r.value.state.score == d.score + (if r.value.correct then 1 else 0)
              && r.value.state == d.(answers := r.value.state.answers, score := r.value.state.score)
  {
    var problem := GetCurrentProblem(d);
    if Nullish(problem) then Err(TypeError)
    else
      var correct := Scoring.IsCorrect(problem, answer);
      var i := d.currentProblemIndex;
      Ok(Scoring.Answered(correct, d.(answers := d.answers[i := answer], score := if correct then d.score + 1 else d.score)))
  }

  /** `getFeedback(answer)`: the current problem's feedback text for the
      verdict, or "Correct!" / "Try again!" without a feedback record. */
  function GetFeedback(d: DoIt, answer: Value): (r: Result<Value>)
    requires Valid(d)
    ensures r.Ok? <==> |d.problems| > 0 && !Nullish(d.problems[d.currentProblemIndex])
    ensures r.Ok? ==>
              var problem := d.problems[d.currentProblemIndex];
              r.value == Scoring.VerdictText(problem, Scoring.IsCorrect(problem, answer), "Correct!", "Try again!")
    ensures r.Err? ==> r.error == TypeError
  {
    var problem := GetCurrentProblem(d);
    if Nullish(problem) then Err(TypeError)
    else Ok(Scoring.VerdictText(problem, Scoring.IsCorrect(problem, answer), "Correct!", "Try again!"))
  }

  /** `validate()`: at least one problem. */
  function Validate(d: DoIt): (r: Result<bool>)
    ensures r.Ok? ==> r.value
    ensures r.Ok? <==> |d.problems| > 0
    ensures r.Err? ==> r.error == NoProblems
  {
    if |d.problems| == 0 then Err(NoProblems) else Ok(true)
  }

  /** Feedback and recording agree: `getFeedback(answer)` fails exactly when
      `recordAnswer(answer)` does, and otherwise gives the problem's text for
      the verdict `recordAnswer` returns, with or without a feedback record.
      So the "correct" text comes back exactly for a correct answer whenever
      the two texts differ, as the generic "Correct!" and "Try again!" do. */
  lemma FeedbackAgreesWithRecord(d: DoIt, answer: Value)
    requires Valid(d)
    ensures GetFeedback(d, answer).Ok? <==> RecordAnswer(d, answer).Ok?
    ensures RecordAnswer(d, answer).Ok? ==>
              var problem := d.problems[d.currentProblemIndex];
              var correct := RecordAnswer(d, answer).value.correct;
              && GetFeedback(d, answer).value == Scoring.VerdictText(problem, correct, "Correct!", "Try again!")
              && (Scoring.Distinguishes(problem, "Correct!", "Try again!") ==>
                    (GetFeedback(d, answer).value == Scoring.VerdictText(problem, true, "Correct!", "Try again!") <==> correct))
    ensures RecordAnswer(d, answer).Ok? && !Truthy(Get(d.problems[d.currentProblemIndex], "feedback")) ==>
              (GetFeedback(d, answer) == Ok(Str("Correct!")) <==> RecordAnswer(d, answer).value.correct)
  {
  }

  /** Recording the same correct answer twice raises the score by two. */
  lemma {:induction false} CorrectTwiceScoresTwice(d: DoIt, answer: Value)
    requires Valid(d)
    requires RecordAnswer(d, answer).Ok? && RecordAnswer(d, answer).value.correct
    ensures var once := RecordAnswer(d, answer).value.state;
            && RecordAnswer(once, answer).Ok?
            && RecordAnswer(once, answer).value.correct
            && RecordAnswer(once, answer).value.state.score == d.score + 2
            && RecordAnswer(once, answer).value.state.answers == once.answers
  {
  }

  /** The cursor moves back after a successful forward move, and vice versa. */
  lemma NextThenPrevious(d: DoIt)
    requires Valid(d)
    ensures NextProblem(d).moved ==> PreviousProblem(NextProblem(d).state) == Paging.Moved(true, d)
    ensures PreviousProblem(d).moved ==> NextProblem(PreviousProblem(d).state) == Paging.Moved(true, d)
  {
  }

  /** The boundary queries say when the cursor cannot move, except that an
      empty list is at its first problem but never at its last. */
  lemma BoundariesStopMoves(d: DoIt)
    requires Valid(d)
    ensures IsFirstProblem(d) <==> !PreviousProblem(d).moved
    ensures |d.problems| > 0 ==> (IsLastProblem(d) <==> !NextProblem(d).moved)
    ensures |d.problems| == 0 ==> !IsLastProblem(d) && !NextProblem(d).moved
  {
  }
}
