/** The lesson manager: builds the steps of a lesson from their records and
    moves a learner through them, sub-unit by sub-unit inside multi-part steps
    and step by step between them.

    The manager's callbacks are modelled as a log of the events they would
    receive: a step change carries the step shown after it, and the end of the
    lesson is reported when `nextStep()` finds nothing further.
 */
module LessonManager {
  import opened JsValues
  import opened Errors
  import Paging
  import Steps
  import StepFactory
  import LearnItStep
  import TryItStep
  import DoItStep
  import ShowItStep

  datatype Event = StepChanged(step: Steps.Step) | LessonCompleted

  datatype Manager = Manager(
    stepConfigs: seq<Value>,
    steps: seq<Steps.Step>,
    currentStepIndex: nat,
    initialized: bool,
    events: seq<Event>)

  /** What a call returned, and the manager after it. */
  datatype Outcome = Outcome(result: bool, manager: Manager)

  predicate Valid(m: Manager) {
    && (|m.steps| == 0 ==> m.currentStepIndex == 0)
    && (|m.steps| > 0 ==> m.currentStepIndex < |m.steps|)
    && (!m.initialized ==> m.steps == [])
    && forall i :: 0 <= i < |m.steps| ==> Steps.Valid(m.steps[i])
  }

  /** The states navigation reaches: every step behind the current one stands
      on its last sub-unit and every step ahead on its first. */
  predicate Reachable(m: Manager) {
    && Valid(m)
    && (forall j :: 0 <= j < m.currentStepIndex && j < |m.steps| ==> Steps.AtLast(m.steps[j]))
    && (forall j :: m.currentStepIndex < j < |m.steps| ==> Steps.AtFirst(m.steps[j]))
  }

  /** `new LessonManager(stepConfigs)` */
  function New(stepConfigs: seq<Value>): (r: Manager)
    ensures Reachable(r) && !r.initialized && r.stepConfigs == stepConfigs && r.events == []
  {
    Manager(stepConfigs, [], 0, false, [])
  }

  /** Results gathered in order: all the values, or the first error. */
  function Collect<T>(results: seq<Result<T>>): (r: Result<seq<T>>)
    ensures r.Ok? <==> forall i :: 0 <= i < |results| ==> results[i].Ok?
    ensures r.Ok? ==> |r.value| == |results|
                      && forall i :: 0 <= i < |results| ==> results[i] == Ok(r.value[i])
    decreases |results|
  {
    if |results| == 0 then Ok([])
    else
      var first :- results[0];
      var rest :- Collect(results[1..]);
      assert forall i :: 1 <= i < |results| ==> results[1..][i - 1] == results[i];
      Ok([first] + rest)
  }

  /** A failed collection reports the error of its first failing result. */
  lemma {:induction false} CollectFirstFailure<T>(results: seq<Result<T>>)
    requires Collect(results).Err?
    ensures exists i :: 0 <= i < |results| && results[i] == Err(Collect(results).error)
                        && forall j :: 0 <= j < i ==> results[j].Ok?
    decreases |results|
  {
    if results[0].Ok? {
      var tail := results[1..];
      assert Collect(tail).Err? && Collect(tail).error == Collect(results).error;
      CollectFirstFailure(tail);
      var i :| 0 <= i < |tail| && tail[i] == Err(Collect(tail).error)
                && forall j :: 0 <= j < i ==> tail[j].Ok?;
      assert results[i + 1] == tail[i];
      forall j | 0 <= j < i + 1
        ensures results[j].Ok?
      {
        if j > 0 {
          assert results[j] == tail[j - 1];
        }
      }
    }
  }

  /** `stepConfigs.map(createStep)` before any throw: each record's outcome. */
  function BuildEach(configs: seq<Value>): (r: seq<Result<Steps.Step>>)
    ensures |r| == |configs|
    ensures forall i :: 0 <= i < |configs| ==> r[i] == StepFactory.CreateStep(configs[i])
  {
    seq(|configs|, i requires 0 <= i < |configs| => StepFactory.CreateStep(configs[i]))
  }

  /** `stepConfigs.map(createStep)`: every step built, or the first failure. */
  function CreateSteps(configs: seq<Value>): (r: Result<seq<Steps.Step>>)
    ensures r.Ok? <==> forall i :: 0 <= i < |configs| ==> StepFactory.CreateStep(configs[i]).Ok?
    ensures r.Ok? ==> |r.value| == |configs|
                      && forall i :: 0 <= i < |configs| ==> StepFactory.CreateStep(configs[i]) == Ok(r.value[i])
  {
    Collect(BuildEach(configs))
  }

  /** A failing lesson reports the error of its first failing record. */
  lemma CreateStepsFirstFailure(configs: seq<Value>)
    requires CreateSteps(configs).Err?
    ensures exists i :: 0 <= i < |configs| && StepFactory.CreateStep(configs[i]) == Err(CreateSteps(configs).error)
                        && forall j :: 0 <= j < i ==> StepFactory.CreateStep(configs[j]).Ok?
  {
    CollectFirstFailure(BuildEach(configs));
  }

  /** `notifyStepChange()`: the step-change callback sees the current step. */
  function Notify(m: Manager): (r: Manager)
    requires m.currentStepIndex < |m.steps|
    ensures r.events == m.events + [StepChanged(m.steps[m.currentStepIndex])]
    ensures r == m.(events := r.events)
  {
    m.(events := m.events + [StepChanged(m.steps[m.currentStepIndex])])
  }

  /** `initialize()`: build every step, then start on the first and announce
      it. A failing record leaves the manager as it was. With no records the
      manager is initialized but the announcement throws, so the call
      returns false. */
  function Initialize(m: Manager): (r: Outcome)
    requires Valid(m)
    ensures CreateSteps(m.stepConfigs).Err? ==> r == Outcome(false, m)
    ensures CreateSteps(m.stepConfigs).Ok? ==>
              && r.manager.steps == CreateSteps(m.stepConfigs).value
              && r.manager.currentStepIndex == 0
              && r.manager.initialized
              && r.manager.stepConfigs == m.stepConfigs
              && Reachable(r.manager)
    ensures Reachable(m) ==> Reachable(r.manager)
    ensures r.result <==> CreateSteps(m.stepConfigs).Ok? && |m.stepConfigs| > 0
    ensures r.result ==> r.manager.events == m.events + [StepChanged(r.manager.steps[0])]
    ensures !r.result ==> r.manager.events == m.events
  {
    match CreateSteps(m.stepConfigs)
    case Err(_) => Outcome(false, m)
    case Ok(steps) =>
      var started := m.(steps := steps, currentStepIndex := 0, initialized := true);
      if |steps| == 0 then Outcome(false, started)
      else Outcome(true, Notify(started))
  }

  /** `getCurrentStep()` */
  function GetCurrentStep(m: Manager): (r: Result<Steps.Step>)
    requires Valid(m)
    ensures r.Ok? <==> m.initialized && |m.steps| > 0
    ensures r.Ok? ==> r.value == m.steps[m.currentStepIndex]
    ensures r.Err? ==> r.error == NotInitialized
  {
    if !m.initialized || |m.steps| == 0 then Err(NotInitialized)
    else Ok(m.steps[m.currentStepIndex])
  }

  /** The step's own forward move, tried first by `nextStep()`: the next chunk,
      screen, problem or question. The single-screen kinds have none. */
  function AdvanceCursor(s: Steps.Step): (r: Paging.Moved<Steps.Step>)
    requires Steps.Valid(s)
    ensures Steps.Valid(r.state) && Steps.GetType(r.state) == Steps.GetType(s)
    ensures Steps.Count(r.state) == Steps.Count(s)
    ensures r.moved <==> !Steps.AtLast(s)
    ensures r.moved ==> Steps.Cursor(r.state) == Steps.Cursor(s) + 1
    ensures !r.moved ==> r.state == s
  {
    match s
    case LearnIt(l) => var n := LearnItStep.NextChunk(l); Paging.Moved(n.moved, Steps.LearnIt(n.state))
    case TryIt(t) => var n := TryItStep.NextScreen(t); Paging.Moved(n.moved, Steps.TryIt(n.state))
    case DoIt(d) => var n := DoItStep.NextProblem(d); Paging.Moved(n.moved, Steps.DoIt(n.state))
    case ShowIt(q) => var n := ShowItStep.NextProblem(q); Paging.Moved(n.moved, Steps.ShowIt(n.state))
    case _ => Paging.Moved(false, s)
  }

  /** The step's own backward move, tried first by `previousStep()`. */
  function RetreatCursor(s: Steps.Step): (r: Paging.Moved<Steps.Step>)
    requires Steps.Valid(s)
    ensures Steps.Valid(r.state) && Steps.GetType(r.state) == Steps.GetType(s)
    ensures Steps.Count(r.state) == Steps.Count(s)
    ensures r.moved <==> !Steps.AtFirst(s)
    ensures r.moved ==> Steps.Cursor(r.state) + 1 == Steps.Cursor(s)
    ensures !r.moved ==> r.state == s
  {
    match s
    case LearnIt(l) => var p := LearnItStep.PreviousChunk(l); Paging.Moved(p.moved, Steps.LearnIt(p.state))
    case TryIt(t) => var p := TryItStep.PreviousScreen(t); Paging.Moved(p.moved, Steps.TryIt(p.state))
    case DoIt(d) => var p := DoItStep.PreviousProblem(d); Paging.Moved(p.moved, Steps.DoIt(p.state))
    case ShowIt(q) => var p := ShowItStep.PreviousProblem(q); Paging.Moved(p.moved, Steps.ShowIt(p.state))
    case _ => Paging.Moved(false, s)
  }

  /** What `previousStep()` does to the step it steps back into: learn-it,
      try-it and do-it move to their last sub-unit. The show-it step is
      checked through `problems`, a field it does not have, so it is left
      where it stands. */
  function ResetToLast(s: Steps.Step): (r: Steps.Step)
    requires Steps.Valid(s)
    ensures Steps.Valid(r) && Steps.GetType(r) == Steps.GetType(s)
    ensures Steps.Count(r) == Steps.Count(s)
    ensures s.ShowIt? ==> r == s
    ensures !s.ShowIt? ==> Steps.AtLast(r)
  {
    match s
    case LearnIt(l) => Steps.LearnIt(LearnItStep.ShowLastChunk(l))
    case TryIt(t) =>
      if |t.screens| > 0 then Steps.TryIt(t.(currentScreenIndex := |t.screens| - 1)) else s
    case DoIt(d) =>
      if |d.problems| > 0 then Steps.DoIt(d.(currentProblemIndex := |d.problems| - 1)) else s
    case _ => s
  }

  /** `nextStep()`: the current step's next sub-unit if it has one, else the
      next step, else the end of the lesson. Before `initialize()` it does
      nothing; initialized with no steps it throws. */
  function NextStep(m: Manager): (r: Result<Outcome>)
    requires Valid(m)
    ensures r.Err? <==> m.initialized && |m.steps| == 0
    ensures r.Err? ==> r.error == NotInitialized
    ensures !m.initialized ==> r == Ok(Outcome(false, m))
    ensures r.Ok? ==>
              var n := r.value.manager;
              && Valid(n)
              && n.stepConfigs == m.stepConfigs && n.initialized == m.initialized && |n.steps| == |m.steps|
    ensures m.initialized && |m.steps| > 0 ==>
              var i := m.currentStepIndex;
              var n := r.value.manager;
              && (r.value.result <==> !Steps.AtLast(m.steps[i]) || i < |m.steps| - 1)
              // a step's own sub-unit comes first
              && (!Steps.AtLast(m.steps[i]) ==>
                    && n.currentStepIndex == i
                    && n.steps == m.steps[i := AdvanceCursor(m.steps[i]).state]
                    && Steps.Cursor(n.steps[i]) == Steps.Cursor(m.steps[i]) + 1)
              // then the next step, as it stands
              && (Steps.AtLast(m.steps[i]) && i < |m.steps| - 1 ==>
                    n.currentStepIndex == i + 1 && n.steps == m.steps)
              && (r.value.result ==> n.events == m.events + [StepChanged(n.steps[n.currentStepIndex])])
              // at the very end the lesson is complete and nothing moves
              && (!r.value.result ==> n == m.(events := m.events + [LessonCompleted]))
  {
    if !m.initialized then Ok(Outcome(false, m))
    else if |m.steps| == 0 then Err(NotInitialized)
    else
      var i := m.currentStepIndex;
      var advanced := AdvanceCursor(m.steps[i]);
      if advanced.moved then Ok(Outcome(true, Notify(m.(steps := m.steps[i := advanced.state]))))
      else if i < |m.steps| - 1 then Ok(Outcome(true, Notify(m.(currentStepIndex := i + 1))))
      else Ok(Outcome(false, m.(events := m.events + [LessonCompleted])))
  }

  /** `previousStep()`: the current step's previous sub-unit if it has one,
      else the previous step moved to its last sub-unit, else nothing. */
  function PreviousStep(m: Manager): (r: Result<Outcome>)
    requires Valid(m)
    ensures r.Err? <==> m.initialized && |m.steps| == 0
    ensures r.Err? ==> r.error == NotInitialized
    ensures !m.initialized ==> r == Ok(Outcome(false, m))
    ensures r.Ok? ==>
              var n := r.value.manager;
              && Valid(n)
              && n.stepConfigs == m.stepConfigs && n.initialized == m.initialized && |n.steps| == |m.steps|
    ensures m.initialized && |m.steps| > 0 ==>
              var i := m.currentStepIndex;
              var n := r.value.manager;
              && (r.value.result <==> !Steps.AtFirst(m.steps[i]) || i > 0)
              && (!Steps.AtFirst(m.steps[i]) ==>
                    && n.currentStepIndex == i
                    && n.steps == m.steps[i := RetreatCursor(m.steps[i]).state]
                    && Steps.Cursor(n.steps[i]) + 1 == Steps.Cursor(m.steps[i]))
              && (Steps.AtFirst(m.steps[i]) && i > 0 ==>
                    n.currentStepIndex == i - 1 && n.steps == m.steps[i - 1 := ResetToLast(m.steps[i - 1])])
              && (r.value.result ==> n.events == m.events + [StepChanged(n.steps[n.currentStepIndex])])
              // at the very beginning nothing happens at all
              && (!r.value.result ==> n == m)
  {
    if !m.initialized then Ok(Outcome(false, m))
    else if |m.steps| == 0 then Err(NotInitialized)
    else
      var i := m.currentStepIndex;
      var retreated := RetreatCursor(m.steps[i]);
      if retreated.moved then Ok(Outcome(true, Notify(m.(steps := m.steps[i := retreated.state]))))
      else if i > 0 then
        Ok(Outcome(true, Notify(m.(currentStepIndex := i - 1, steps := m.steps[i - 1 := ResetToLast(m.steps[i - 1])]))))
      else Ok(Outcome(false, m))
  }

  /** `isFirstStep()`. The show-it step's cursor is read through
      `currentProblemIndex`, which it does not have, so a show-it step counts
      as being at its start wherever its cursor stands. */
  function IsFirstStep(m: Manager): (r: Result<bool>)
    requires Valid(m)
    ensures !m.initialized ==> r == Ok(true)
    ensures m.initialized && |m.steps| == 0 ==> r == Err(NotInitialized)
    ensures m.initialized && |m.steps| > 0 ==>
              var s := m.steps[m.currentStepIndex];
              r == Ok(m.currentStepIndex == 0 && (s.ShowIt? || Steps.AtFirst(s)))
  {
    if !m.initialized then Ok(true)
    else if |m.steps| == 0 then Err(NotInitialized)
    else if m.currentStepIndex == 0 then
      var s := m.steps[0];
      if s.LearnIt? && !LearnItStep.IsFirstChunk(s.learnIt) then Ok(false)
      else if s.TryIt? && s.tryIt.currentScreenIndex > 0 then Ok(false)
      else if s.DoIt? && s.doIt.currentProblemIndex > 0 then Ok(false)
      else Ok(true)
    else Ok(false)
  }

  /** `isLastStep()`. On a show-it step in last place the check reads
      `problems.length` of a field the step does not have, which throws. */
  function IsLastStep(m: Manager): (r: Result<bool>)
    requires Valid(m)
    ensures !m.initialized ==> r == Ok(false)
    ensures m.initialized && |m.steps| == 0 ==> r == Err(NotInitialized)
    ensures m.initialized && |m.steps| > 0 ==>
              var s := m.steps[m.currentStepIndex];
              var last := m.currentStepIndex == |m.steps| - 1;
              r == if last && s.ShowIt? then Err(TypeError) else Ok(last && Steps.AtLast(s))
  {
    if !m.initialized then Ok(false)
    else if |m.steps| == 0 then Err(NotInitialized)
    else if m.currentStepIndex == |m.steps| - 1 then
      match m.steps[m.currentStepIndex]
      case LearnIt(l) => Ok(LearnItStep.IsLastChunk(l))
      case TryIt(t) => Ok(!(t.currentScreenIndex < |t.screens| - 1))
      case DoIt(d) => Ok(!(d.currentProblemIndex < |d.problems| - 1))
      case ShowIt(_) => Err(TypeError)
      case _ => Ok(true)
    else Ok(false)
  }

  // ---------------------------------------------------------------------
  // Positions: how far a learner is from either end of the lesson

  /** The positions a step offers: one per sub-unit, and one for a step
      without sub-units. */
  function Span(s: Steps.Step): nat {
    1 + Paging.LastIndex(Steps.Count(s))
  }

  function Positions(steps: seq<Steps.Step>): nat
    decreases |steps|
  {
    if |steps| == 0 then 0 else Span(steps[0]) + Positions(steps[1..])
  }

  lemma {:induction false} PositionsAppend(a: seq<Steps.Step>, b: seq<Steps.Step>)
    ensures Positions(a + b) == Positions(a) + Positions(b)
    decreases |a|
  {
    if |a| == 0 {
      assert a + b == b;
    } else {
      assert (a + b)[1..] == a[1..] + b;
      PositionsAppend(a[1..], b);
    }
  }

  /** The successful `nextStep()` calls left before the lesson completes. */
  function Remaining(m: Manager): nat
    requires Valid(m) && |m.steps| > 0
  {
    var s := m.steps[m.currentStepIndex];
    Steps.ValidCursorInRange(s);
    (Paging.LastIndex(Steps.Count(s)) - Steps.Cursor(s)) + Positions(m.steps[m.currentStepIndex + 1..])
  }

  /** The successful `previousStep()` calls left before the beginning. */
  function Behind(m: Manager): nat
    requires Valid(m) && |m.steps| > 0
  {
    Steps.Cursor(m.steps[m.currentStepIndex]) + Positions(m.steps[..m.currentStepIndex])
  }

  /** Every position of the lesson is behind the learner, under them, or
      ahead of them. */
  lemma {:induction false} PositionsAccount(m: Manager)
    requires Valid(m) && |m.steps| > 0
    ensures Behind(m) + 1 + Remaining(m) == Positions(m.steps)
  {
    var i := m.currentStepIndex;
    assert m.steps == m.steps[..i] + ([m.steps[i]] + m.steps[i + 1..]);
    PositionsAppend(m.steps[..i], [m.steps[i]] + m.steps[i + 1..]);
    PositionsAppend([m.steps[i]], m.steps[i + 1..]);
    assert Positions([m.steps[i]]) == Span(m.steps[i]) by {
      assert [m.steps[i]][1..] == [];
    }
    Steps.ValidCursorInRange(m.steps[i]);
  }

  /** A freshly initialized lesson stands on its first position. */
  lemma {:induction false} InitializeStartsAtBeginning(m: Manager)
    requires Valid(m) && Initialize(m).result
    ensures var n := Initialize(m).manager;
            |n.steps| > 0 && Behind(n) == 0 && Remaining(n) + 1 == Positions(n.steps)
  {
    var n := Initialize(m).manager;
    assert Steps.AtFirst(n.steps[0]);
    assert n.steps[..0] == [];
    PositionsAccount(n);
  }

  // ---------------------------------------------------------------------
  // Navigation

  /** Stepping back into a step that already stands on its last sub-unit
      changes nothing. */
  lemma ResetToLastIsIdentityAtLast(s: Steps.Step)
    requires Steps.Valid(s) && Steps.AtLast(s)
    ensures ResetToLast(s) == s
  {
    if s.LearnIt? {
      LearnItStep.DeterminedByCursor(ResetToLast(s).learnIt, s.learnIt);
    }
  }

  /** A step's own moves undo each other. */
  lemma CursorRoundTrip(s: Steps.Step)
    requires Steps.Valid(s)
    ensures AdvanceCursor(s).moved ==> RetreatCursor(AdvanceCursor(s).state) == Paging.Moved(true, s)
    ensures RetreatCursor(s).moved ==> AdvanceCursor(RetreatCursor(s).state) == Paging.Moved(true, s)
  {
    match s
    case LearnIt(l) => LearnItStep.NextThenPrevious(l);
    case TryIt(t) => TryItStep.NextThenPrevious(t);
    case DoIt(d) => DoItStep.NextThenPrevious(d);
    case ShowIt(q) => ShowItStep.NextThenPrevious(q);
    case _ =>
  }

  /** `nextStep()` succeeds exactly while positions remain ahead, uses up one
      of them, and keeps the lesson in a reachable state. */
  lemma {:induction false} NextStepProgress(m: Manager)
    requires Reachable(m) && m.initialized && |m.steps| > 0
    ensures NextStep(m).Ok?
    ensures var n := NextStep(m).value;
            && Reachable(n.manager)
            && (n.result <==> Remaining(m) > 0)
            && (n.result ==> Remaining(n.manager) + 1 == Remaining(m))
            && (!n.result ==> Remaining(n.manager) == 0)
  {
    var i := m.currentStepIndex;
    var s := m.steps[i];
    var n := NextStep(m).value.manager;
    Steps.ValidCursorInRange(s);
    if !Steps.AtLast(s) {
      assert n.steps[i + 1..] == m.steps[i + 1..];
    } else if i < |m.steps| - 1 {
      assert m.steps[i + 1..][1..] == m.steps[i + 2..];
      assert Steps.AtFirst(m.steps[i + 1]);
    } else {
      assert m.steps[i + 1..] == [];
    }
  }

  /** `previousStep()` succeeds exactly while positions remain behind, gives
      back one of them, and keeps the lesson in a reachable state. */
  lemma {:induction false} PreviousStepProgress(m: Manager)
    requires Reachable(m) && m.initialized && |m.steps| > 0
    ensures PreviousStep(m).Ok?
    ensures var n := PreviousStep(m).value;
            && Reachable(n.manager)
            && (n.result <==> Behind(m) > 0)
            && (n.result ==> Behind(n.manager) + 1 == Behind(m))
            && (!n.result ==> Behind(n.manager) == 0)
  {
    var i := m.currentStepIndex;
    var s := m.steps[i];
    var n := PreviousStep(m).value.manager;
    if !Steps.AtFirst(s) {
      assert n.steps[..i] == m.steps[..i];
    } else if i > 0 {
      ResetToLastIsIdentityAtLast(m.steps[i - 1]);
      assert n.steps == m.steps;
      assert m.steps[..i] == m.steps[..i - 1] + [m.steps[i - 1]];
      PositionsAppend(m.steps[..i - 1], [m.steps[i - 1]]);
      assert Positions([m.steps[i - 1]]) == Span(m.steps[i - 1]) by {
        assert [m.steps[i - 1]][1..] == [];
      }
    } else {
      assert m.steps[..i] == [];
    }
  }

  /** In a reachable state, stepping back never needs its reset: every step
      behind the learner already stands on its last sub-unit. */
  lemma {:induction false} PreviousStepKeepsSteps(m: Manager)
    requires Reachable(m) && m.initialized && |m.steps| > 0
    ensures PreviousStep(m).Ok?
    ensures var i := m.currentStepIndex;
            Steps.AtFirst(m.steps[i]) ==> PreviousStep(m).value.manager.steps == m.steps
  {
    var i := m.currentStepIndex;
    if Steps.AtFirst(m.steps[i]) && i > 0 {
      ResetToLastIsIdentityAtLast(m.steps[i - 1]);
    }
  }

  /** A successful `nextStep()` is undone by `previousStep()`: the steps and
      the step index are as before, and both moves were announced. */
  lemma {:induction false} NextThenPrevious(m: Manager)
    requires Reachable(m) && m.initialized && |m.steps| > 0
    requires NextStep(m).value.result
    ensures var n := NextStep(m).value.manager;
            && PreviousStep(n).Ok?
            && PreviousStep(n).value.result
            && PreviousStep(n).value.manager.steps == m.steps
            && PreviousStep(n).value.manager.currentStepIndex == m.currentStepIndex
            && PreviousStep(n).value.manager.events
               == m.events + [StepChanged(n.steps[n.currentStepIndex]), StepChanged(m.steps[m.currentStepIndex])]
  {
    var i := m.currentStepIndex;
    var s := m.steps[i];
    var n := NextStep(m).value.manager;
    NextStepProgress(m);
    CursorRoundTrip(s);
    if !Steps.AtLast(s) {
      assert !Steps.AtFirst(n.steps[i]);
      assert n.steps[i := s] == m.steps;
    } else {
      assert Steps.AtFirst(n.steps[i + 1]);
      ResetToLastIsIdentityAtLast(s);
      assert n.steps[i := ResetToLast(s)] == m.steps;
    }
  }

  /** A successful `previousStep()` is undone by `nextStep()`. */
  lemma {:induction false} PreviousThenNext(m: Manager)
    requires Reachable(m) && m.initialized && |m.steps| > 0
    requires PreviousStep(m).value.result
    ensures var n := PreviousStep(m).value.manager;
            && NextStep(n).Ok?
            && NextStep(n).value.result
            && NextStep(n).value.manager.steps == m.steps
            && NextStep(n).value.manager.currentStepIndex == m.currentStepIndex
            && NextStep(n).value.manager.events
               == m.events + [StepChanged(n.steps[n.currentStepIndex]), StepChanged(m.steps[m.currentStepIndex])]
  {
    var i := m.currentStepIndex;
    var s := m.steps[i];
    var n := PreviousStep(m).value.manager;
    CursorRoundTrip(s);
    if !Steps.AtFirst(s) {
      assert !Steps.AtLast(n.steps[i]);
      assert n.steps[i := s] == m.steps;
    } else {
      ResetToLastIsIdentityAtLast(m.steps[i - 1]);
      assert n.steps == m.steps;
      assert Steps.AtLast(n.steps[i - 1]);
    }
  }

  /** `isFirstStep()` is true exactly when `previousStep()` would fail, except
      on a show-it step in first place. */
  lemma IsFirstStepIffNoPrevious(m: Manager)
    requires Valid(m) && m.initialized && |m.steps| > 0
    requires !(m.currentStepIndex == 0 && m.steps[0].ShowIt?)
    ensures IsFirstStep(m) == Ok(!PreviousStep(m).value.result)
  {
  }

  /** `isLastStep()` is true exactly when `nextStep()` would fail, except on a
      show-it step in last place. */
  lemma IsLastStepIffNoNext(m: Manager)
    requires Valid(m) && m.initialized && |m.steps| > 0
    requires !(m.currentStepIndex == |m.steps| - 1 && m.steps[m.currentStepIndex].ShowIt?)
    ensures IsLastStep(m) == Ok(!NextStep(m).value.result)
  {
  }

  /** The show-it exceptions: in first place `isFirstStep()` holds even when
      `previousStep()` still moves back a question; in last place
      `isLastStep()` throws. */
  lemma ShowItBoundaryQuirks(m: Manager)
    requires Valid(m) && m.initialized && |m.steps| > 0
    requires m.steps[m.currentStepIndex].ShowIt?
    ensures m.currentStepIndex == 0 ==> IsFirstStep(m) == Ok(true)
    ensures m.currentStepIndex == 0 && m.steps[0].showIt.currentQuestionIndex > 0
            ==> PreviousStep(m).value.result
    ensures m.currentStepIndex == |m.steps| - 1 ==> IsLastStep(m) == Err(TypeError)
  {
  }

  // ---------------------------------------------------------------------
  // Running a lesson to its end

  /** The calls of a run and the manager after them. */
  datatype Run = Run(results: seq<bool>, manager: Manager)

  /** `k` calls of `nextStep()` in a row. */
  function Drive(m: Manager, k: nat): (r: Result<Run>)
    requires Valid(m)
    ensures r.Ok? ==>
              && |r.value.results| == k && Valid(r.value.manager)
              && |r.value.manager.steps| == |m.steps| && r.value.manager.initialized == m.initialized
    decreases k
  {
    if k == 0 then Ok(Run([], m))
    else
      var first :- NextStep(m);
      var rest :- Drive(first.manager, k - 1);
      Ok(Run([first.result] + rest.results, rest.manager))
  }

  lemma {:induction false} PositionsZero(steps: seq<Steps.Step>)
    ensures Positions(steps) == 0 <==> |steps| == 0
  {
  }

  /** One call, then the rest of the run. */
  lemma DriveStep(m: Manager, k: nat)
    requires Valid(m) && k > 0 && NextStep(m).Ok?
    requires Drive(NextStep(m).value.manager, k - 1).Ok?
    ensures Drive(m, k)
            == Ok(Run([NextStep(m).value.result] + Drive(NextStep(m).value.manager, k - 1).value.results,
                      Drive(NextStep(m).value.manager, k - 1).value.manager))
  {
  }

  /** Navigation never changes what kind of step stands in each place. */
  lemma {:induction false} DriveKeepsKinds(m: Manager, k: nat)
    requires Valid(m) && Drive(m, k).Ok?
    ensures forall i :: 0 <= i < |m.steps| ==> Steps.GetType(Drive(m, k).value.manager.steps[i]) == Steps.GetType(m.steps[i])
    decreases k
  {
    if k > 0 {
      var n := NextStep(m).value.manager;
      DriveKeepsKinds(n, k - 1);
    }
  }

  /** A run of calls that moved on `moves` times and was then refused. */
  predicate MovesThenStops(results: seq<bool>, moves: nat) {
    && |results| == moves + 1
    && (forall j :: 0 <= j < moves ==> results[j])
    && !results[moves]
  }

  /** One more successful call in front of such a run. */
  lemma MovesThenStopsCons(results: seq<bool>, moves: nat)
    requires MovesThenStops(results, moves)
    ensures MovesThenStops([true] + results, moves + 1)
  {
  }

  /** The manager after one `nextStep()` from a reachable position. */
  function Advanced(m: Manager): (n: Manager)
    requires Reachable(m) && m.initialized && |m.steps| > 0
    ensures Reachable(n) && n.initialized && |n.steps| == |m.steps|
  {
    NextStepProgress(m);
    NextStep(m).value.manager
  }

  /** `k + 1` calls from `m` that move on `k` times and are then refused. */
  predicate RunsFor(m: Manager, k: nat)
    requires Valid(m)
  {
    && Drive(m, k + 1).Ok?
    && MovesThenStops(Drive(m, k + 1).value.results, k)
  }

  /** A run from `m` that moves on at every position ahead and is then refused. */
  predicate RunsToEnd(m: Manager)
    requires Reachable(m) && m.initialized && |m.steps| > 0
  {
    RunsFor(m, Remaining(m))
  }

  /** After `k + 1` calls from `m` the lesson stands on the last sub-unit of
      its last step, with one announcement per call and the completion last. */
  predicate EndsAfter(m: Manager, k: nat)
    requires Valid(m) && |m.steps| > 0
  {
    && Drive(m, k + 1).Ok?
    && var e := Drive(m, k + 1).value.manager;
       && |e.events| == |m.events| + k + 1
       && e.events[|m.events| + k] == LessonCompleted
       && e.currentStepIndex == |m.steps| - 1
       && Steps.AtLast(e.steps[|m.steps| - 1])
  }

  /** The run from `m` through every position ahead ends the lesson. */
  predicate EndsLesson(m: Manager)
    requires Reachable(m) && m.initialized && |m.steps| > 0
  {
    EndsAfter(m, Remaining(m))
  }

  /** From any reachable position, `nextStep()` succeeds exactly as often as
      there are positions ahead, and the call after that fails. */
  lemma {:induction false} DriveToEnd(m: Manager)
    requires Reachable(m) && m.initialized && |m.steps| > 0
    ensures RunsToEnd(m)
    decreases Remaining(m)
  {
    if Remaining(m) == 0 {
      DriveToEndBase(m);
    } else {
      NextStepProgress(m);
      var n := Advanced(m);
      DriveToEnd(n);
      DriveToEndStep(m, n, Remaining(n));
    }
  }

  /** At the last position the single call is refused. */
  lemma {:induction false} DriveToEndBase(m: Manager)
    requires Reachable(m) && m.initialized && |m.steps| > 0 && Remaining(m) == 0
    ensures RunsToEnd(m)
  {
    NextStepProgress(m);
    AtEndOfLesson(m);
    var n := NextStep(m).value.manager;
    assert Drive(n, 0) == Ok(Run([], n));
    DriveStep(m, 1);
  }

  /** A successful call in front of a run to the end is a run to the end. */
  lemma {:induction false} DriveToEndStep(m: Manager, n: Manager, k: nat)
    requires Valid(m) && NextStep(m) == Ok(Outcome(true, n))
    requires RunsFor(n, k)
    ensures RunsFor(m, k + 1)
  {
    DriveStep(m, k + 2);
    MovesThenStopsCons(Drive(n, k + 1).value.results, k);
  }

  /** Where such a run ends: on the last sub-unit of the last step, with one
      announcement per successful call and the completion last. */
  lemma {:induction false} DriveEndState(m: Manager)
    requires Reachable(m) && m.initialized && |m.steps| > 0
    ensures EndsLesson(m)
    decreases Remaining(m)
  {
    if Remaining(m) == 0 {
      DriveEndBase(m);
    } else {
      NextStepProgress(m);
      var n := Advanced(m);
      DriveEndState(n);
      DriveEndStep(m, n, Remaining(n));
    }
  }

  /** A successful call in front of a run that ends the lesson ends it too,
      with one more announcement. */
  lemma {:induction false} DriveEndStep(m: Manager, n: Manager, k: nat)
    requires Valid(m) && |m.steps| > 0 && NextStep(m) == Ok(Outcome(true, n))
    requires EndsAfter(n, k)
    ensures EndsAfter(m, k + 1)
  {
    DriveStep(m, k + 2);
    assert Drive(m, k + 2).value.manager == Drive(n, k + 1).value.manager;
    assert |n.events| == |m.events| + 1;
  }

  /** The single call at the end of the lesson. */
  lemma {:induction false} DriveEndBase(m: Manager)
    requires Reachable(m) && m.initialized && |m.steps| > 0 && Remaining(m) == 0
    ensures EndsLesson(m)
  {
    AtEndOfLesson(m);
    var n := NextStep(m).value.manager;
    assert n == m.(events := m.events + [LessonCompleted]);
    assert Drive(n, 0) == Ok(Run([], n));
    DriveStep(m, 1);
  }

  /** No positions remain exactly on the last sub-unit of the last step. */
  lemma {:induction false} AtEndOfLesson(m: Manager)
    requires Valid(m) && |m.steps| > 0
    ensures Remaining(m) == 0 <==> m.currentStepIndex == |m.steps| - 1 && Steps.AtLast(m.steps[m.currentStepIndex])
  {
    var i := m.currentStepIndex;
    Steps.ValidCursorInRange(m.steps[i]);
    PositionsZero(m.steps[i + 1..]);
  }
}
