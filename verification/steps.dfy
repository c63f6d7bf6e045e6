/** A lesson step of any kind, and what the lesson manager asks of every step:
    its type tag, its validity check and, for the multi-part kinds, where its
    cursor stands among how many sub-units. */
module Steps {
  import opened JsValues
  import opened Errors
  import opened LessonStep
  import WarmUpStep
  import LearnItStep
  import TryItStep
  import DoItStep
  import ShowItStep
  import ExtensionStep
  import Paging

  datatype Step =
    | Base(base: StepBase)
    | WarmUp(warmUp: WarmUpStep.WarmUp)
    | LearnIt(learnIt: LearnItStep.LearnIt)
    | TryIt(tryIt: TryItStep.TryIt)
    | DoIt(doIt: DoItStep.DoIt)
    | ShowIt(showIt: ShowItStep.ShowIt)
    | Extension(extension: ExtensionStep.Extension)

  /** `getType()` */
  function GetType(s: Step): string {
    match s
    case Base(_) => BaseTag
    case WarmUp(_) => WarmUpStep.Tag
    case LearnIt(_) => LearnItStep.Tag
    case TryIt(_) => TryItStep.Tag
    case DoIt(_) => DoItStep.Tag
    case ShowIt(_) => ShowItStep.Tag
    case Extension(_) => ExtensionStep.Tag
  }

  /** The fields every step has. */
  function Common(s: Step): StepBase {
    match s
    case Base(b) => b
    case WarmUp(w) => w.base
    case LearnIt(l) => l.base
    case TryIt(t) => t.base
    case DoIt(d) => d.base
    case ShowIt(q) => q.base
    case Extension(e) => e.base
  }

  /** The invariants each kind's constructor establishes and its operations keep. */
  predicate Valid(s: Step) {
    match s
    case LearnIt(l) => LearnItStep.Valid(l)
    case TryIt(t) => TryItStep.Valid(t)
    case DoIt(d) => DoItStep.Valid(d)
    case ShowIt(q) => ShowItStep.Valid(q)
    case _ => true
  }

  /** The sub-unit cursor of a multi-part step; 0 for the single-screen kinds. */
  function Cursor(s: Step): nat {
    match s
    case LearnIt(l) => l.currentChunkIndex
    case TryIt(t) => t.currentScreenIndex
    case DoIt(d) => d.currentProblemIndex
    case ShowIt(q) => q.currentQuestionIndex
    case _ => 0
  }

  /** The number of sub-units of a multi-part step; 0 for the others. */
  function Count(s: Step): nat {
    match s
    case LearnIt(l) => |l.chunks|
    case TryIt(t) => |t.screens|
    case DoIt(d) => |d.problems|
    case ShowIt(q) => |q.questions|
    case _ => 0
  }

  predicate AtFirst(s: Step) {
    Cursor(s) == 0
  }

  predicate AtLast(s: Step) {
    Cursor(s) == Paging.LastIndex(Count(s))
  }

  /** `validate()` of the step's own class. The base class is always valid. */
  function Validate(s: Step): (r: Result<bool>)
    ensures r.Ok? ==> r.value
    ensures s.Base? ==> r == Ok(true)
    ensures s.WarmUp? ==> (r.Ok? <==> Truthy(s.warmUp.screen) && Truthy(s.warmUp.interaction))
    ensures s.LearnIt? && Valid(s) ==> (r.Ok? <==> Truthy(Get(s.learnIt.chunks[0], "screen")))
    ensures s.TryIt? || s.DoIt? || s.ShowIt? ==> (r.Ok? <==> Count(s) > 0)
    ensures s.Extension? ==> (r.Ok? <==> Truthy(s.extension.screen))
  {
    match s
    case Base(_) => Ok(true)
    case WarmUp(w) => WarmUpStep.Validate(w)
    case LearnIt(l) => LearnItStep.Validate(l)
    case TryIt(t) => TryItStep.Validate(t)
    case DoIt(d) => DoItStep.Validate(d)
    case ShowIt(q) => ShowItStep.Validate(q)
    case Extension(e) => ExtensionStep.Validate(e)
  }

  lemma ValidCursorInRange(s: Step)
    requires Valid(s)
    ensures Cursor(s) <= Paging.LastIndex(Count(s))
  {
  }

  /** The type tag names the kind: no two kinds share a tag. */
  lemma TagIdentifiesKind(s: Step)
    ensures GetType(s) == BaseTag <==> s.Base?
    ensures GetType(s) == WarmUpStep.Tag <==> s.WarmUp?
    ensures GetType(s) == LearnItStep.Tag <==> s.LearnIt?
    ensures GetType(s) == TryItStep.Tag <==> s.TryIt?
    ensures GetType(s) == DoItStep.Tag <==> s.DoIt?
    ensures GetType(s) == ShowItStep.Tag <==> s.ShowIt?
    ensures GetType(s) == ExtensionStep.Tag <==> s.Extension?
  {
  }
}
