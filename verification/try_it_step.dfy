/** The try-it step: a list of screens with a cursor. The constructor accepts
    an empty list; only `validate()` rejects it. */
module TryItStep {
  import opened JsValues
  import opened Errors
  import opened LessonStep
  import Paging
  import Scoring

  datatype TryIt = TryIt(base: StepBase, screens: seq<Value>, currentScreenIndex: nat)

  const Tag := "try-it"

  predicate Valid(t: TryIt) {
    Paging.InRange(t.currentScreenIndex, |t.screens|)
  }

  /** `new TryItStep(config)`: screens default to [], the cursor starts at 0. */
  function New(config: Value): (r: Result<TryIt>)
    requires !Nullish(config)
    ensures NewBase(config).Err? ==> r == Err(NewBase(config).error)
    ensures r.Ok? <==> NewBase(config).Ok? && ListField(config, "screens").Ok?
    ensures r.Ok? ==>
              && Valid(r.value)
              && r.value.base == NewBase(config).value
              && r.value.screens == ListField(config, "screens").value
              && r.value.currentScreenIndex == 0
  {
    var base :- NewBase(config);
    var screens :- ListField(config, "screens");
    Ok(TryIt(base, screens, 0))
  }

  /** `nextScreen()` */
  function NextScreen(t: TryIt): (r: Paging.Moved<TryIt>)
    requires Valid(t)
    ensures Valid(r.state)
    ensures r.moved <==> t.currentScreenIndex < |t.screens| - 1
    ensures r.state == t.(currentScreenIndex := if r.moved then t.currentScreenIndex + 1 else t.currentScreenIndex)
  {
    var m := Paging.Next(t.currentScreenIndex, |t.screens|);
    Paging.Moved(m.moved, t.(currentScreenIndex := m.state))
  }

  /** `previousScreen()` */
  function PreviousScreen(t: TryIt): (r: Paging.Moved<TryIt>)
    requires Valid(t)
    ensures Valid(r.state)
    ensures r.moved <==> t.currentScreenIndex > 0
    ensures r.moved ==> r.state == t.(currentScreenIndex := t.currentScreenIndex - 1)
    ensures !r.moved ==> r.state == t
  {
    var m := Paging.Previous(t.currentScreenIndex, |t.screens|);
    Paging.Moved(m.moved, t.(currentScreenIndex := m.state))
  }

  predicate IsFirstScreen(t: TryIt) {
    t.currentScreenIndex == 0
  }

  /** Never true of an empty list, whose cursor 0 is not `length - 1`. */
  predicate IsLastScreen(t: TryIt) {
    t.currentScreenIndex == |t.screens| - 1
  }

  /** `getCurrentScreen()`: undefined when there are no screens. */
  function GetCurrentScreen(t: TryIt): (r: Value)
    requires Valid(t)
    ensures |t.screens| > 0 ==> r == t.screens[t.currentScreenIndex]
    ensures |t.screens| == 0 ==> r == Undefined
  {
    Scoring.Current(t.screens, t.currentScreenIndex)
  }

  /** `getCurrentScreenId()`: throws when there is no current screen object. */
  function GetCurrentScreenId(t: TryIt): (r: Result<Value>)
    requires Valid(t)
    ensures r.Ok? <==> |t.screens| > 0 && !Nullish(t.screens[t.currentScreenIndex])
    ensures r.Ok? ==> r.value == Get(t.screens[t.currentScreenIndex], "id")
    ensures r.Err? ==> r.error == TypeError
  {
    var screen := GetCurrentScreen(t);
    if Nullish(screen) then Err(TypeError) else Ok(Get(screen, "id"))
  }

  /** `getCurrentScreenTitle()` */
  function GetCurrentScreenTitle(t: TryIt): (r: Result<Value>)
    requires Valid(t)
    ensures r.Ok? <==> |t.screens| > 0 && !Nullish(t.screens[t.currentScreenIndex])
    ensures r.Ok? ==> r.value == Get(t.screens[t.currentScreenIndex], "title")
    ensures r.Err? ==> r.error == TypeError
  {
    var screen := GetCurrentScreen(t);
    if Nullish(screen) then Err(TypeError) else Ok(Get(screen, "title"))
  }

  /** `validate()`: at least one screen. */
  function Validate(t: TryIt): (r: Result<bool>)
    ensures r.Ok? ==> r.value
    ensures r.Ok? <==> |t.screens| > 0
    ensures r.Err? ==> r.error == NoScreens
  {
    if |t.screens| == 0 then Err(NoScreens) else Ok(true)
  }

  /** The boundary queries say when the cursor cannot move, except that an
      empty list is at its first screen but never at its last. */
  lemma BoundariesStopMoves(t: TryIt)
    requires Valid(t)
    ensures IsFirstScreen(t) <==> !PreviousScreen(t).moved
    ensures |t.screens| > 0 ==> (IsLastScreen(t) <==> !NextScreen(t).moved)
    ensures |t.screens| == 0 ==> !IsLastScreen(t) && !NextScreen(t).moved
  {
  }

  /** A successful move in one direction is undone by a move in the other. */
  lemma NextThenPrevious(t: TryIt)
    requires Valid(t)
    ensures NextScreen(t).moved ==> PreviousScreen(NextScreen(t).state) == Paging.Moved(true, t)
    ensures PreviousScreen(t).moved ==> NextScreen(PreviousScreen(t).state) == Paging.Moved(true, t)
  {
  }
}
