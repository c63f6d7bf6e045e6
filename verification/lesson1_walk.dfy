/** A lesson shaped like lesson 1 run end to end: the manager builds the six
    steps, and a learner who keeps pressing "next" goes through every screen,
    chunk, problem and question once before the lesson announces its
    completion. The statements are over any six records that build lesson 1's
    step kinds and sizes; `Lesson1Steps` proves that each of lesson 1's own
    records builds its step. */
module Lesson1Walk {
  import opened JsValues
  import opened Errors
  import Steps
  import StepFactory
  import LessonManager

  /** Lesson 1's steps: warm-up, three chunks, four screens, eight problems,
      four questions, extension. */
  predicate LessonShape(steps: seq<Steps.Step>) {
    && |steps| == 6
    && steps[0].WarmUp?
    && steps[1].LearnIt? && |steps[1].learnIt.chunks| == 3
    && steps[2].TryIt? && |steps[2].tryIt.screens| == 4
    && steps[3].DoIt? && |steps[3].doIt.problems| == 8
    && steps[4].ShowIt? && |steps[4].showIt.questions| == 4
    && steps[5].Extension?
  }

  /** The manager as `initialize()` leaves it on a fresh lesson. */
  function Started(configs: seq<Value>): (r: LessonManager.Outcome)
    ensures LessonManager.Reachable(r.manager)
    ensures r.manager.stepConfigs == configs
  {
    LessonManager.Initialize(LessonManager.New(configs))
  }

  /** Six records that each build a step of lesson 1's kind and size, in
      lesson 1's order, build together into a lesson of that shape, each step
      the one its own record builds. `Lesson1Steps` proves these facts of
      each of lesson 1's records (`WarmUpBuilds` to `ExtensionBuilds`). */
  lemma {:induction false} LessonBuilds(cs: seq<Value>)
    requires |cs| == 6
    requires forall i :: 0 <= i < 6 ==> StepFactory.CreateStep(cs[i]).Ok?
    requires StepFactory.CreateStep(cs[0]).value.WarmUp?
    requires StepFactory.CreateStep(cs[1]).value.LearnIt? && |StepFactory.CreateStep(cs[1]).value.learnIt.chunks| == 3
    requires StepFactory.CreateStep(cs[2]).value.TryIt? && |StepFactory.CreateStep(cs[2]).value.tryIt.screens| == 4
    requires StepFactory.CreateStep(cs[3]).value.DoIt? && |StepFactory.CreateStep(cs[3]).value.doIt.problems| == 8
    requires StepFactory.CreateStep(cs[4]).value.ShowIt? && |StepFactory.CreateStep(cs[4]).value.showIt.questions| == 4
    requires StepFactory.CreateStep(cs[5]).value.Extension?
    ensures LessonManager.CreateSteps(cs).Ok?
    ensures LessonShape(LessonManager.CreateSteps(cs).value)
    ensures forall i :: 0 <= i < 6 ==> LessonManager.CreateSteps(cs).value[i] == StepFactory.CreateStep(cs[i]).value
  {
  }

  /** Lesson 1 has 21 positions: 1 + 3 + 4 + 8 + 4 + 1. */
  lemma {:induction false} LessonPositions(steps: seq<Steps.Step>)
    requires LessonShape(steps)
    ensures LessonManager.Positions(steps) == 21
  {
    assert steps[5..][1..] == [];
    assert steps[4..][1..] == steps[5..];
    assert steps[3..][1..] == steps[4..];
    assert steps[2..][1..] == steps[3..];
    assert steps[1..][1..] == steps[2..];
    assert LessonManager.Positions(steps[5..]) == 1;
    assert LessonManager.Positions(steps[4..]) == 5;
    assert LessonManager.Positions(steps[3..]) == 13;
    assert LessonManager.Positions(steps[2..]) == 17;
    assert LessonManager.Positions(steps[1..]) == 20;
  }

  /** Any lesson of that shape starts on its first step with 20 calls of
      `nextStep()` ahead, announcing the first step and nothing else. */
  lemma {:induction false} LessonStarts(configs: seq<Value>)
    requires LessonManager.CreateSteps(configs).Ok?
    requires LessonShape(LessonManager.CreateSteps(configs).value)
    ensures var m := Started(configs).manager;
            && Started(configs).result
            && |m.steps| == 6
            && m.events == [LessonManager.StepChanged(m.steps[0])]
            && LessonManager.Remaining(m) == 20
            && LessonManager.IsFirstStep(m) == Ok(true)
  {
    var m := Started(configs).manager;
    LessonPositions(m.steps);
    LessonManager.InitializeStartsAtBeginning(LessonManager.New(configs));
  }

  /** A learner who presses "next" from the start of any lesson of that
      shape moves on 20 times and is refused the 21st time; by then the
      lesson has made 22 announcements, the completion last, and stands on
      its last step. */
  lemma {:induction false} LessonWalk(configs: seq<Value>)
    requires LessonManager.CreateSteps(configs).Ok?
    requires LessonShape(LessonManager.CreateSteps(configs).value)
    ensures var m := Started(configs).manager;
            && Started(configs).result
            && |m.steps| == 6
            && LessonManager.Remaining(m) == 20
            && var r := LessonManager.Drive(m, LessonManager.Remaining(m) + 1);
               && r.Ok?
               && LessonManager.MovesThenStops(r.value.results, 20)
               && |r.value.manager.events| == 22
               && r.value.manager.events[21] == LessonManager.LessonCompleted
               && r.value.manager.currentStepIndex == 5
               && LessonManager.IsLastStep(r.value.manager) == Ok(true)
  {
    LessonStarts(configs);
    var m := Started(configs).manager;
    LessonManager.DriveToEnd(m);
    LessonManager.DriveEndState(m);
    var e := LessonManager.Drive(m, LessonManager.Remaining(m) + 1).value.manager;
    LessonManager.DriveKeepsKinds(m, LessonManager.Remaining(m) + 1);
    Steps.TagIdentifiesKind(m.steps[5]);
    Steps.TagIdentifiesKind(e.steps[5]);
  }
}
