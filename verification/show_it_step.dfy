/** The show-it (assessment) step: a list of questions with a cursor, a
    running score and one recorded answer per question. Its cursor operations
    are also reachable under the do-it names `nextProblem`/`previousProblem`,
    but it has no `problems` list and no `currentProblemIndex`. */
module ShowItStep {
  import opened JsValues
  import opened Errors
  import opened LessonStep
  import Paging
  import Scoring

  datatype ShowIt = ShowIt(
    base: StepBase,
    format: Value,
    questions: seq<Value>,
    feedback: Value,
    remediation: Value,
    introduction: Value,
    currentQuestionIndex: nat,
    answers: seq<Value>,
    score: nat)

  const Tag := "show-it"

  /** The fixed pass mark: remediation is offered below three correct answers. */
  const PassMark := 3

  predicate Valid(s: ShowIt) {
    && Paging.InRange(s.currentQuestionIndex, |s.questions|)
    && |s.answers| == |s.questions|
  }

  /** `new ShowItStep(config)`: cursor 0, every answer slot null, score 0. */
  function New(config: Value): (r: Result<ShowIt>)
    requires !Nullish(config)
    ensures NewBase(config).Err? ==> r == Err(NewBase(config).error)
    ensures r.Ok? <==> NewBase(config).Ok? && ListField(config, "questions").Ok?
    ensures r.Ok? ==>
              && Valid(r.value)
              && r.value.base == NewBase(config).value
              && r.value.questions == ListField(config, "questions").value
              && r.value.currentQuestionIndex == 0
              && r.value.score == 0
              && |r.value.answers| == |r.value.questions|
              && (forall i :: 0 <= i < |r.value.answers| ==> r.value.answers[i] == Null)
              && r.value.format == Get(config, "format")
              && r.value.feedback == Get(config, "feedback")
              && r.value.remediation == Get(config, "remediation")
              && r.value.introduction == Get(config, "introduction")
  {
    var base :- NewBase(config);
    var questions :- ListField(config, "questions");
    Ok(ShowIt(base, Get(config, "format"), questions, Get(config, "feedback"),
              Get(config, "remediation"), Get(config, "introduction"),
              0, seq(|questions|, _ => Null), 0))
  }

  /** `nextQuestion()` */
  function NextQuestion(s: ShowIt): (r: Paging.Moved<ShowIt>)
    requires Valid(s)
    ensures Valid(r.state)
    ensures r.moved <==> s.currentQuestionIndex < |s.questions| - 1
    ensures r.state == s.(currentQuestionIndex := if r.moved then s.currentQuestionIndex + 1 else s.currentQuestionIndex)
  {
    var m := Paging.Next(s.currentQuestionIndex, |s.questions|);
    Paging.Moved(m.moved, s.(currentQuestionIndex := m.state))
  }

  /** `nextProblem()`: an alias of `nextQuestion()`. */
  function NextProblem(s: ShowIt): (r: Paging.Moved<ShowIt>)
    requires Valid(s)
    ensures r == NextQuestion(s)
  {
    NextQuestion(s)
  }

  /** `previousQuestion()` */
  function PreviousQuestion(s: ShowIt): (r: Paging.Moved<ShowIt>)
    requires Valid(s)
    ensures Valid(r.state)
    ensures r.moved <==> s.currentQuestionIndex > 0
    ensures r.moved ==> r.state == s.(currentQuestionIndex := s.currentQuestionIndex - 1)
    ensures !r.moved ==> r.state == s
  {
    var m := Paging.Previous(s.currentQuestionIndex, |s.questions|);
    Paging.Moved(m.moved, s.(currentQuestionIndex := m.state))
  }

  /** `previousProblem()`: an alias of `previousQuestion()`. */
  function PreviousProblem(s: ShowIt): (r: Paging.Moved<ShowIt>)
    requires Valid(s)
    ensures r == PreviousQuestion(s)
  {
    PreviousQuestion(s)
  }

  predicate IsFirstQuestion(s: ShowIt) {
    s.currentQuestionIndex == 0
  }

  predicate IsLastQuestion(s: ShowIt) {
    s.currentQuestionIndex == |s.questions| - 1
  }

  /** `getCurrentQuestion()`: undefined when there are no questions. */
  function GetCurrentQuestion(s: ShowIt): (r: Value)
    requires Valid(s)
    ensures |s.questions| > 0 ==> r == s.questions[s.currentQuestionIndex]
    ensures |s.questions| == 0 ==> r == Undefined
  {
    Scoring.Current(s.questions, s.currentQuestionIndex)
  }

  /** `getCurrentQuestionId()` */
  function GetCurrentQuestionId(s: ShowIt): (r: Result<Value>)
    requires Valid(s)
    ensures r.Ok? <==> |s.questions| > 0 && !Nullish(s.questions[s.currentQuestionIndex])
    ensures r.Ok? ==> r.value == Get(s.questions[s.currentQuestionIndex], "id")
    ensures r.Err? ==> r.error == TypeError
  {
    var question := GetCurrentQuestion(s);
    if Nullish(question) then Err(TypeError) else Ok(Get(question, "id"))
  }

  /** `recordAnswer(answer)`: stores the answer in the current question's slot
      and adds one to the score when it is correct, on every call. */
  function RecordAnswer(s: ShowIt, answer: Value): (r: Result<Scoring.Answered<ShowIt>>)
    requires Valid(s)
    ensures r.Ok? <==> |s.questions| > 0 && !Nullish(s.questions[s.currentQuestionIndex])
    ensures r.Err? ==> r.error == TypeError
    ensures r.Ok? ==>
              var i := s.currentQuestionIndex;
              && r.value.correct == Scoring.IsCorrect(s.questions[i], answer)
              && Valid(r.value.state)
              && r.value.state.answers == s.answers[i := answer]
              && r.value.state.score == s.score + (if r.value.correct then 1 else 0)
              && r.value.state == s.(answers := r.value.state.answers, score := r.value.state.score)
  {
    var question := GetCurrentQuestion(s);
    if Nullish(question) then Err(TypeError)
    else
      var correct := Scoring.IsCorrect(question, answer);
      var i := s.currentQuestionIndex;
      Ok(Scoring.Answered(correct, s.(answers := s.answers[i := answer], score := if correct then s.score + 1 else s.score)))
  }

  /** `getFeedback(answer)`: the question's feedback text for the verdict, or
      "Correct" / "Incorrect" (not the do-it step's texts). */
  function GetFeedback(s: ShowIt, answer: Value): (r: Result<Value>)
    requires Valid(s)
    ensures r.Ok? <==> |s.questions| > 0 && !Nullish(s.questions[s.currentQuestionIndex])
    ensures r.Ok? ==>
              var question := s.questions[s.currentQuestionIndex];
              r.value == Scoring.VerdictText(question, Scoring.IsCorrect(question, answer), "Correct", "Incorrect")
    ensures r.Err? ==> r.error == TypeError
  {
    var question := GetCurrentQuestion(s);
    if Nullish(question) then Err(TypeError)
    else Ok(Scoring.VerdictText(question, Scoring.IsCorrect(question, answer), "Correct", "Incorrect"))
  }

  /** Feedback and recording agree: `getFeedback(answer)` fails exactly when
      `recordAnswer(answer)` does, and otherwise gives the question's text
      for the verdict `recordAnswer` returns, with or without a feedback
      record. So the "correct" text comes back exactly for a correct answer
      whenever the two texts differ, as the generic "Correct" and
      "Incorrect" do. */
  lemma FeedbackAgreesWithRecord(s: ShowIt, answer: Value)
    requires Valid(s)
    ensures GetFeedback(s, answer).Ok? <==> RecordAnswer(s, answer).Ok?
    ensures RecordAnswer(s, answer).Ok? ==>
              var question := s.questions[s.currentQuestionIndex];
              var correct := RecordAnswer(s, answer).value.correct;
              && GetFeedback(s, answer).value == Scoring.VerdictText(question, correct, "Correct", "Incorrect")
              && (Scoring.Distinguishes(question, "Correct", "Incorrect") ==>
                    (GetFeedback(s, answer).value == Scoring.VerdictText(question, true, "Correct", "Incorrect") <==> correct))
    ensures RecordAnswer(s, answer).Ok? && !Truthy(Get(s.questions[s.currentQuestionIndex], "feedback")) ==>
              (GetFeedback(s, answer) == Ok(Str("Correct")) <==> RecordAnswer(s, answer).value.correct)
  {
  }

  /** `needsRemediation()`: fewer than three correct answers, however many
      questions there are. */
  predicate NeedsRemediation(s: ShowIt) {
    s.score < PassMark
  }

  /** `validate()`: at least one question. */
  function Validate(s: ShowIt): (r: Result<bool>)
    ensures r.Ok? ==> r.value
    ensures r.Ok? <==> |s.questions| > 0
    ensures r.Err? ==> r.error == NoQuestions
  {
    if |s.questions| == 0 then Err(NoQuestions) else Ok(true)
  }

  /** `k` correct answers recorded in a row, each through `recordAnswer`. */
  function RecordCorrect(s: ShowIt, k: nat): (r: ShowIt)
    requires Valid(s)
    requires |s.questions| > 0 && !Nullish(s.questions[s.currentQuestionIndex])
    ensures Valid(r) && r.questions == s.questions && r.currentQuestionIndex == s.currentQuestionIndex
    decreases k
  {
    if k == 0 then s
    else
      var q := s.questions[s.currentQuestionIndex];
      RecordCorrect(RecordAnswer(s, Get(q, "correctAnswer")).value.state, k - 1)
  }

  /** Remediation does not depend on the number of questions: recording the
      current question's primitive correct answer three times from a fresh
      score clears it, even while every other slot is unanswered. */
  lemma {:induction false} ThreeCorrectClearRemediation(s: ShowIt, k: nat)
    requires Valid(s) && s.score == 0
    requires |s.questions| > 0 && !Nullish(s.questions[s.currentQuestionIndex])
    requires IsPrimitive(Get(s.questions[s.currentQuestionIndex], "correctAnswer"))
    ensures RecordCorrect(s, k).score == k
    ensures NeedsRemediation(RecordCorrect(s, k)) <==> k < 3
  {
    RecordCorrectCounts(s, k);
  }

  lemma {:induction false} RecordCorrectCounts(s: ShowIt, k: nat)
    requires Valid(s)
    requires |s.questions| > 0 && !Nullish(s.questions[s.currentQuestionIndex])
    requires IsPrimitive(Get(s.questions[s.currentQuestionIndex], "correctAnswer"))
    ensures RecordCorrect(s, k).score == s.score + k
    decreases k
  {
    if k > 0 {
      var q := s.questions[s.currentQuestionIndex];
      var next := RecordAnswer(s, Get(q, "correctAnswer")).value.state;
      assert next.score == s.score + 1;
      RecordCorrectCounts(next, k - 1);
    }
  }

  lemma NextThenPrevious(s: ShowIt)
    requires Valid(s)
    ensures NextQuestion(s).moved ==> PreviousQuestion(NextQuestion(s).state) == Paging.Moved(true, s)
    ensures PreviousQuestion(s).moved ==> NextQuestion(PreviousQuestion(s).state) == Paging.Moved(true, s)
  {
  }

  /** The boundary queries say when the cursor cannot move, except that an
      empty list is at its first question but never at its last. */
  lemma BoundariesStopMoves(s: ShowIt)
    requires Valid(s)
    ensures IsFirstQuestion(s) <==> !PreviousQuestion(s).moved
    ensures |s.questions| > 0 ==> (IsLastQuestion(s) <==> !NextQuestion(s).moved)
    ensures |s.questions| == 0 ==> !IsLastQuestion(s) && !NextQuestion(s).moved
  {
  }
}
