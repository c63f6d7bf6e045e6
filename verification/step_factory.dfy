/** The step factory: builds a step from a configuration record by its
    `stepType` tag, after routing the nested screen and interaction records
    through the screen and interaction factories.

    An unknown step tag is fatal; an unknown screen or interaction tag is not:
    such a record passes through as it is. The factory does not call the
    step's `validate()`, so only the constructors' own checks can fail it.
 */
module StepFactory {
  import opened JsValues
  import opened Errors
  import Screens
  import Interactions
  import LessonStep
  import WarmUpStep
  import LearnItStep
  import TryItStep
  import DoItStep
  import ShowItStep
  import ExtensionStep
  import Steps

  predicate IsScreenTag(tag: Value) {
    tag in {Str(Screens.ClockFaceTag), Str(Screens.ClockWithHandsTag),
            Str(Screens.AnimatedClockTag), Str(Screens.ImageGalleryTag)}
  }

  predicate IsInteractionTag(tag: Value) {
    tag in {Str(Interactions.TextInputTag), Str(Interactions.ClickTapTag), Str(Interactions.DragDropTag),
            Str(Interactions.BinaryChoiceTag), Str(Interactions.McqTag)}
  }

  predicate IsStepTag(tag: Value) {
    tag in {Str(WarmUpStep.Tag), Str(LearnItStep.Tag), Str(TryItStep.Tag),
            Str(DoItStep.Tag), Str(ShowItStep.Tag), Str(ExtensionStep.Tag)}
  }

  /** The configuration keys the factory rewrites. */
  const NormalisedKeys: set<string> := {"screen", "interaction", "sequence", "screens"}

  /** `createScreen(config)` */
  function CreateScreen(config: Value): (r: Value)
    requires !Nullish(config)
    ensures !IsScreenTag(Get(config, "type")) ==> r == config
    ensures IsScreenTag(Get(config, "type")) ==> Screens.IsScreen(r) && Screens.GetType(r) == Get(config, "type")
    ensures Get(config, "type") == Str(Screens.ClockFaceTag) ==> r.cls == ScreenOf(ClockFaceScreen)
    ensures Get(config, "type") == Str(Screens.ClockWithHandsTag) ==> r.cls == ScreenOf(ClockWithHandsScreen)
    ensures Get(config, "type") == Str(Screens.AnimatedClockTag) ==> r.cls == ScreenOf(AnimatedClockScreen)
    ensures Get(config, "type") == Str(Screens.ImageGalleryTag) ==> r.cls == ScreenOf(ImageGalleryScreen)
  {
    var tag := Get(config, "type");
    if tag == Str(Screens.ClockFaceTag) then Screens.ClockFace(config)
    else if tag == Str(Screens.ClockWithHandsTag) then Screens.ClockWithHands(config)
    else if tag == Str(Screens.AnimatedClockTag) then Screens.AnimatedClock(config)
    else if tag == Str(Screens.ImageGalleryTag) then Screens.ImageGallery(config)
    else config
  }

  /** `createInteraction(config)` */
  function CreateInteraction(config: Value): (r: Value)
    requires !Nullish(config)
    ensures !IsInteractionTag(Get(config, "type")) ==> r == config
    ensures IsInteractionTag(Get(config, "type")) ==> Interactions.IsInteraction(r) && Get(r, "type") == Get(config, "type")
    ensures Get(config, "type") == Str(Interactions.TextInputTag) ==> r.cls == InteractionOf(TextInputInteraction)
    ensures Get(config, "type") == Str(Interactions.ClickTapTag) ==> r.cls == InteractionOf(ClickTapInteraction)
    ensures Get(config, "type") == Str(Interactions.DragDropTag) ==> r.cls == InteractionOf(DragDropInteraction)
    ensures Get(config, "type") == Str(Interactions.BinaryChoiceTag) ==> r.cls == InteractionOf(BinaryChoiceInteraction)
    ensures Get(config, "type") == Str(Interactions.McqTag) ==> r.cls == InteractionOf(McqInteraction)
  {
    var tag := Get(config, "type");
    if tag == Str(Interactions.TextInputTag) then Interactions.TextInput(config)
    else if tag == Str(Interactions.ClickTapTag) then Interactions.ClickTap(config)
    else if tag == Str(Interactions.DragDropTag) then Interactions.DragDrop(config)
    else if tag == Str(Interactions.BinaryChoiceTag) then Interactions.BinaryChoice(config)
    else if tag == Str(Interactions.McqTag) then Interactions.Mcq(config)
    else config
  }

  /** One entry of `sequence`: its `embeddedCheck.interaction`, when present,
      goes through the interaction factory. Reading from a null entry throws. */
  function NormaliseSequenceItem(item: Value): (r: Result<Value>)
    ensures r.Err? <==> Nullish(item)
    ensures r.Err? ==> r.error == TypeError
    ensures r.Ok? ==>
              var check := Get(item, "embeddedCheck");
              if Truthy(check) && Truthy(Get(check, "interaction"))
              then r.value == Set(item, "embeddedCheck", Set(check, "interaction", CreateInteraction(Get(check, "interaction"))))
              else r.value == item
  {
    if Nullish(item) then Err(TypeError)
    else
      var check := Get(item, "embeddedCheck");
      if Truthy(check) && Truthy(Get(check, "interaction")) then
        Ok(Set(item, "embeddedCheck", Set(check, "interaction", CreateInteraction(Get(check, "interaction")))))
      else Ok(item)
  }

  /** A screen record through the screen factory, when present. */
  function ScreenIfPresent(v: Value): Value {
    if Truthy(v) then CreateScreen(v) else v
  }

  /** An interaction record through the interaction factory, when present. */
  function InteractionIfPresent(v: Value): Value {
    if Truthy(v) then CreateInteraction(v) else v
  }

  /** One entry of `screens`: its `config` goes through the screen factory
      and its `interaction` through the interaction factory, each when present. */
  function NormaliseScreenItem(item: Value): (r: Result<Value>)
    ensures r.Err? <==> Nullish(item)
    ensures r.Err? ==> r.error == TypeError
    ensures r.Ok? ==>
              && Get(r.value, "config") == ScreenIfPresent(Get(item, "config"))
              && Get(r.value, "interaction") == InteractionIfPresent(Get(item, "interaction"))
              && (forall k :: k != "config" && k != "interaction" ==> Get(r.value, k) == Get(item, k))
  {
    if Nullish(item) then Err(TypeError)
    else
      var withConfig :=
        if Truthy(Get(item, "config")) then Set(item, "config", CreateScreen(Get(item, "config"))) else item;
      assert Get(withConfig, "config") == ScreenIfPresent(Get(item, "config"));
      assert forall k :: k != "config" ==> Get(withConfig, k) == Get(item, k);
      if Truthy(Get(withConfig, "interaction")) then
        Ok(Set(withConfig, "interaction", CreateInteraction(Get(withConfig, "interaction"))))
      else Ok(withConfig)
  }

  /** `sequence.map(...)`: fails at the first null entry. */
  function NormaliseSequence(items: seq<Value>): (r: Result<seq<Value>>)
    ensures r.Err? <==> exists i :: 0 <= i < |items| && Nullish(items[i])
    ensures r.Err? ==> r.error == TypeError
    ensures r.Ok? ==> |r.value| == |items|
                      && forall i :: 0 <= i < |items| ==> NormaliseSequenceItem(items[i]) == Ok(r.value[i])
    decreases |items|
  {
    if |items| == 0 then Ok([])
    else
      var first :- NormaliseSequenceItem(items[0]);
      var rest :- NormaliseSequence(items[1..]);
      Ok([first] + rest)
  }

  /** `screens.map(...)`: fails at the first null entry. */
  function NormaliseScreens(items: seq<Value>): (r: Result<seq<Value>>)
    ensures r.Err? <==> exists i :: 0 <= i < |items| && Nullish(items[i])
    ensures r.Err? ==> r.error == TypeError
    ensures r.Ok? ==> |r.value| == |items|
                      && forall i :: 0 <= i < |items| ==> NormaliseScreenItem(items[i]) == Ok(r.value[i])
    decreases |items|
  {
    if |items| == 0 then Ok([])
    else
      var first :- NormaliseScreenItem(items[0]);
      var rest :- NormaliseScreens(items[1..]);
      Ok([first] + rest)
  }

  /** What a record's `screen` holds once normalised. */
  function BuiltScreen(config: Value): Value {
    ScreenIfPresent(Get(config, "screen"))
  }

  /** What a record's `interaction` holds once normalised. */
  function BuiltInteraction(config: Value): Value {
    InteractionIfPresent(Get(config, "interaction"))
  }

  /** Top-level `screen` and `interaction` go through their factories when
      present. */
  function WithTopLevel(config: Value): (r: Value)
    requires !Nullish(config)
    ensures config.Obj? ==> r.Obj? && r.cls == config.cls && r.fields.Keys == config.fields.Keys
    ensures !config.Obj? ==> r == config
    ensures forall k :: k != "screen" && k != "interaction" ==> Get(r, k) == Get(config, k)
    ensures Get(r, "screen") == BuiltScreen(config)
    ensures Get(r, "interaction") == BuiltInteraction(config)
  {
    var screen := Get(config, "screen");
    var c := if Truthy(screen) then Set(config, "screen", CreateScreen(screen)) else config;
    var interaction := Get(c, "interaction");
    if Truthy(interaction) then Set(c, "interaction", CreateInteraction(interaction)) else c
  }

  /** The list-valued keys fail when truthy but not an array (`.map` is not a
      function) or when an entry is null. */
  predicate ListFails(v: Value) {
    Truthy(v) && (!v.Arr? || exists i :: 0 <= i < |v.items| && Nullish(v.items[i]))
  }

  /** `sequence`, when present, is mapped entry by entry. */
  function WithSequence(config: Value): (r: Result<Value>)
    ensures r.Err? <==> ListFails(Get(config, "sequence"))
    ensures r.Err? ==> r.error == TypeError
    ensures r.Ok? ==>
              && (config.Obj? ==> r.value.Obj? && r.value.cls == config.cls && r.value.fields.Keys == config.fields.Keys)
              && (!config.Obj? ==> r.value == config)
              && (forall k :: k != "sequence" ==> Get(r.value, k) == Get(config, k))
              && (!Truthy(Get(config, "sequence")) ==> Get(r.value, "sequence") == Get(config, "sequence"))
              && (Get(config, "sequence").Arr? ==>
                    NormaliseSequence(Get(config, "sequence").items).Ok?
                    && Get(r.value, "sequence") == Arr(NormaliseSequence(Get(config, "sequence").items).value))
  {
    var sequence := Get(config, "sequence");
    if !Truthy(sequence) then Ok(config)
    else if !sequence.Arr? then Err(TypeError)
    else
      var items :- NormaliseSequence(sequence.items);
      Ok(Set(config, "sequence", Arr(items)))
  }

  /** `screens`, when present, is mapped entry by entry. */
  function WithScreens(config: Value): (r: Result<Value>)
    ensures r.Err? <==> ListFails(Get(config, "screens"))
    ensures r.Err? ==> r.error == TypeError
    ensures r.Ok? ==>
              && (config.Obj? ==> r.value.Obj? && r.value.cls == config.cls && r.value.fields.Keys == config.fields.Keys)
              && (!config.Obj? ==> r.value == config)
              && (forall k :: k != "screens" ==> Get(r.value, k) == Get(config, k))
              && (!Truthy(Get(config, "screens")) ==> Get(r.value, "screens") == Get(config, "screens"))
              && (Get(config, "screens").Arr? ==>
                    NormaliseScreens(Get(config, "screens").items).Ok?
                    && Get(r.value, "screens") == Arr(NormaliseScreens(Get(config, "screens").items).value))
  {
    var screens := Get(config, "screens");
    if !Truthy(screens) then Ok(config)
    else if !screens.Arr? then Err(TypeError)
    else
      var items :- NormaliseScreens(screens.items);
      Ok(Set(config, "screens", Arr(items)))
  }

  /** The normalisation `createStep` does before dispatching: it rewrites
      top-level `screen` and `interaction`, `sequence[].embeddedCheck.interaction`,
      `screens[].config` and `screens[].interaction`, each only when present,
      and leaves every other key, chunks, problems and questions included, as
      it is. */
  function Normalise(config: Value): (r: Result<Value>)
    requires !Nullish(config)
    ensures r.Err? <==> ListFails(Get(config, "sequence")) || ListFails(Get(config, "screens"))
    ensures r.Err? ==> r.error == TypeError
    ensures r.Ok? ==>
              && (config.Obj? ==> r.value.Obj? && r.value.cls == config.cls && r.value.fields.Keys == config.fields.Keys)
              && (!config.Obj? ==> r.value == config)
              && (forall k :: k !in NormalisedKeys ==> Get(r.value, k) == Get(config, k))
              && Get(r.value, "screen") == BuiltScreen(config)
              && Get(r.value, "interaction") == BuiltInteraction(config)
              && (!Truthy(Get(config, "sequence")) ==> Get(r.value, "sequence") == Get(config, "sequence"))
              && (Get(config, "sequence").Arr? ==>
                    NormaliseSequence(Get(config, "sequence").items).Ok?
                    && Get(r.value, "sequence") == Arr(NormaliseSequence(Get(config, "sequence").items).value))
              && (!Truthy(Get(config, "screens")) ==> Get(r.value, "screens") == Get(config, "screens"))
              && (Get(config, "screens").Arr? ==>
                    NormaliseScreens(Get(config, "screens").items).Ok?
                    && Get(r.value, "screens") == Arr(NormaliseScreens(Get(config, "screens").items).value))
  {
    var top := WithTopLevel(config);
    var withSequence :- WithSequence(top);
    WithScreens(withSequence)
  }

  /** A learn-it record's chunks: a non-empty list without null entries. */
  predicate ChunksUsable(config: Value) {
    var chunks := LessonStep.ListField(config, "chunks");
    && chunks.Ok?
    && |chunks.value| > 0
    && forall i :: 0 <= i < |chunks.value| ==> !Nullish(chunks.value[i])
  }

  /** The dispatch of `createStep` on the normalised record's `stepType`. */
  function Build(config: Value): (r: Result<Steps.Step>)
    requires !Nullish(config)
    ensures !IsStepTag(Get(config, "stepType")) ==> r == Err(UnknownStepType(Get(config, "stepType")))
    ensures IsStepTag(Get(config, "stepType")) && LessonStep.NewBase(config).Err?
            ==> r == Err(LessonStep.NewBase(config).error)
    // the single-screen kinds need nothing beyond an id and a title
    ensures Get(config, "stepType") in {Str(WarmUpStep.Tag), Str(ExtensionStep.Tag)}
            ==> (r.Ok? <==> LessonStep.NewBase(config).Ok?)
    ensures Get(config, "stepType") == Str(TryItStep.Tag)
            ==> (r.Ok? <==> LessonStep.NewBase(config).Ok? && LessonStep.ListField(config, "screens").Ok?)
    ensures Get(config, "stepType") == Str(DoItStep.Tag)
            ==> (r.Ok? <==> LessonStep.NewBase(config).Ok? && LessonStep.ListField(config, "problems").Ok?)
    ensures Get(config, "stepType") == Str(ShowItStep.Tag)
            ==> (r.Ok? <==> LessonStep.NewBase(config).Ok? && LessonStep.ListField(config, "questions").Ok?)
    ensures Get(config, "stepType") == Str(LearnItStep.Tag)
            ==> (r.Ok? <==> LessonStep.NewBase(config).Ok? && ChunksUsable(config))
    ensures r.Ok? ==>
              && Get(config, "stepType") == Str(Steps.GetType(r.value))
              && !r.value.Base?
              && Steps.Valid(r.value)
              && Steps.AtFirst(r.value)
              && Steps.Common(r.value).id == Get(config, "id")
              && Steps.Common(r.value).title == Get(config, "title")
    ensures r.Ok? && r.value.WarmUp? ==>
              r.value.warmUp.screen == Get(config, "screen") && r.value.warmUp.interaction == Get(config, "interaction")
    ensures r.Ok? && r.value.Extension? ==>
              && r.value.extension.screen == Get(config, "screen")
              && r.value.extension.interaction == Or(Get(config, "interaction"), Str("none"))
    ensures r.Ok? && r.value.LearnIt? ==> LessonStep.ListField(config, "chunks") == Ok(r.value.learnIt.chunks)
    ensures r.Ok? && r.value.TryIt? ==> LessonStep.ListField(config, "screens") == Ok(r.value.tryIt.screens)
    ensures r.Ok? && r.value.DoIt? ==> LessonStep.ListField(config, "problems") == Ok(r.value.doIt.problems)
    ensures r.Ok? && r.value.ShowIt? ==> LessonStep.ListField(config, "questions") == Ok(r.value.showIt.questions)
    ensures r.Ok? && r.value.ShowIt? ==>
              r.value.showIt.remediation == Get(config, "remediation") && r.value.showIt.score == 0
  {
    var tag := Get(config, "stepType");
    if tag == Str(WarmUpStep.Tag) then
      var step :- WarmUpStep.New(config);
      Ok(Steps.WarmUp(step))
    else if tag == Str(LearnItStep.Tag) then
      var step :- LearnItStep.New(config);
      Ok(Steps.LearnIt(step))
    else if tag == Str(TryItStep.Tag) then
      var step :- TryItStep.New(config);
      Ok(Steps.TryIt(step))
    else if tag == Str(DoItStep.Tag) then
      var step :- DoItStep.New(config);
      Ok(Steps.DoIt(step))
    else if tag == Str(ShowItStep.Tag) then
      var step :- ShowItStep.New(config);
      Ok(Steps.ShowIt(step))
    else if tag == Str(ExtensionStep.Tag) then
      var step :- ExtensionStep.New(config);
      Ok(Steps.Extension(step))
    else Err(UnknownStepType(tag))
  }

  /** A step's base fields depend on six keys of its record only. */
  lemma NewBaseReadsOnly(a: Value, b: Value)
    requires !Nullish(a) && !Nullish(b)
    requires forall k :: k in {"id", "title", "goal", "characterPrompt", "transition", "vocabulary"}
                         ==> Get(a, k) == Get(b, k)
    ensures LessonStep.NewBase(a) == LessonStep.NewBase(b)
  {
    assert Get(a, "id") == Get(b, "id");
    assert Get(a, "title") == Get(b, "title");
    assert Get(a, "goal") == Get(b, "goal");
    assert Get(a, "characterPrompt") == Get(b, "characterPrompt");
    assert Get(a, "transition") == Get(b, "transition");
    assert Get(a, "vocabulary") == Get(b, "vocabulary");
  }

  /** Normalising touches none of the keys a step's own constructor reads
      besides `screens`, whose length it keeps. */
  lemma NormalisedReadsAgree(config: Value)
    requires !Nullish(config) && Normalise(config).Ok?
    ensures var n := Normalise(config).value;
            && !Nullish(n)
            && Get(n, "stepType") == Get(config, "stepType")
            && LessonStep.NewBase(n) == LessonStep.NewBase(config)
            && LessonStep.ListField(n, "chunks") == LessonStep.ListField(config, "chunks")
            && LessonStep.ListField(n, "problems") == LessonStep.ListField(config, "problems")
            && LessonStep.ListField(n, "questions") == LessonStep.ListField(config, "questions")
            && LessonStep.ListField(n, "screens").Ok? == LessonStep.ListField(config, "screens").Ok?
            && (LessonStep.ListField(n, "screens").Ok? ==>
                  |LessonStep.ListField(n, "screens").value| == |LessonStep.ListField(config, "screens").value|)
  {
    var n := Normalise(config).value;
    NormalisedBaseAgrees(config, n);
    ListFieldsAgree(config, n);
  }

  lemma NormalisedBaseAgrees(config: Value, n: Value)
    requires !Nullish(config) && Normalise(config) == Ok(n)
    ensures !Nullish(n)
    ensures Get(n, "stepType") == Get(config, "stepType")
    ensures LessonStep.NewBase(n) == LessonStep.NewBase(config)
  {
    assert forall k :: k !in NormalisedKeys ==> Get(n, k) == Get(config, k);
    NewBaseReadsOnly(n, config);
  }

  lemma ListFieldsAgree(config: Value, n: Value)
    requires !Nullish(config) && Normalise(config) == Ok(n)
    ensures LessonStep.ListField(n, "chunks") == LessonStep.ListField(config, "chunks")
    ensures LessonStep.ListField(n, "problems") == LessonStep.ListField(config, "problems")
    ensures LessonStep.ListField(n, "questions") == LessonStep.ListField(config, "questions")
    ensures LessonStep.ListField(n, "screens").Ok? == LessonStep.ListField(config, "screens").Ok?
    ensures LessonStep.ListField(n, "screens").Ok? ==>
              |LessonStep.ListField(n, "screens").value| == |LessonStep.ListField(config, "screens").value|
  {
    assert Get(n, "chunks") == Get(config, "chunks");
    assert Get(n, "problems") == Get(config, "problems");
    assert Get(n, "questions") == Get(config, "questions");
  }

  /** `createStep(config)`: normalise, then dispatch on `stepType`. The
      step's `validate()` is not called. */
  function CreateStep(config: Value): (r: Result<Steps.Step>)
    ensures Nullish(config) ==> r == Err(TypeError)
    ensures !Nullish(config) && Normalise(config).Err? ==> r == Err(TypeError)
    ensures !Nullish(config) && Normalise(config).Ok? && !IsStepTag(Get(config, "stepType"))
            ==> r == Err(UnknownStepType(Get(config, "stepType")))
    ensures !Nullish(config) && Normalise(config).Ok? && IsStepTag(Get(config, "stepType"))
            && LessonStep.NewBase(config).Err?
            ==> r == Err(LessonStep.NewBase(config).error)
    ensures !Nullish(config) && Normalise(config).Ok?
            && Get(config, "stepType") in {Str(WarmUpStep.Tag), Str(ExtensionStep.Tag)}
            ==> (r.Ok? <==> LessonStep.NewBase(config).Ok?)
    ensures r.Ok? ==>
              && Get(config, "stepType") == Str(Steps.GetType(r.value))
              && !r.value.Base?
              && Steps.Valid(r.value)
              && Steps.AtFirst(r.value)
              && Steps.Common(r.value).id == Get(config, "id")
              && Steps.Common(r.value).title == Get(config, "title")
  {
    if Nullish(config) then Err(TypeError)
    else
      var normalised :- Normalise(config);
      NormalisedReadsAgree(config);
      Build(normalised)
  }

  /** What a built multi-part step holds: chunks, problems and questions as
      configured, and screens normalised one for one. */
  lemma {:induction false} CreateStepLists(config: Value)
    requires CreateStep(config).Ok?
    ensures var s := CreateStep(config).value;
            && (s.LearnIt? ==> LessonStep.ListField(config, "chunks") == Ok(s.learnIt.chunks))
            && (s.TryIt? ==>
                  && LessonStep.ListField(config, "screens").Ok?
                  && |s.tryIt.screens| == |LessonStep.ListField(config, "screens").value|)
            && (s.TryIt? && Get(config, "screens").Arr? ==>
                  NormaliseScreens(Get(config, "screens").items) == Ok(s.tryIt.screens))
            && (s.DoIt? ==> LessonStep.ListField(config, "problems") == Ok(s.doIt.problems))
            && (s.ShowIt? ==> LessonStep.ListField(config, "questions") == Ok(s.showIt.questions))
  {
    NormalisedReadsAgree(config);
    var n := Normalise(config).value;
    assert CreateStep(config) == Build(n);
  }

  /** A built show-it takes its remediation advice from the record's top
      level, and starts with no points. */
  lemma {:induction false} CreateStepShowIt(config: Value)
    requires CreateStep(config).Ok? && CreateStep(config).value.ShowIt?
    ensures CreateStep(config).value.showIt.remediation == Get(config, "remediation")
    ensures CreateStep(config).value.showIt.score == 0
  {
    var n := Normalise(config).value;
    assert "remediation" !in NormalisedKeys;
    assert CreateStep(config) == Build(n);
  }

  /** What a built warm-up holds: the built screen and interaction. */
  lemma {:induction false} CreateStepWarmUp(config: Value)
    requires CreateStep(config).Ok? && CreateStep(config).value.WarmUp?
    ensures CreateStep(config).value.warmUp.screen == BuiltScreen(config)
    ensures CreateStep(config).value.warmUp.interaction == BuiltInteraction(config)
  {
    var n := Normalise(config).value;
    assert CreateStep(config) == Build(n);
  }

  /** What a built extension holds: the built screen, and the built
      interaction or "none" when there is none. */
  lemma {:induction false} CreateStepExtension(config: Value)
    requires CreateStep(config).Ok? && CreateStep(config).value.Extension?
    ensures CreateStep(config).value.extension.screen == BuiltScreen(config)
    ensures CreateStep(config).value.extension.interaction == Or(BuiltInteraction(config), Str("none"))
  {
    var n := Normalise(config).value;
    assert CreateStep(config) == Build(n);
  }

  /** Building a screen from a built screen gives the same screen: every
      default is already in place and the tag is kept. */
  lemma {:induction false} CreateScreenIdempotent(config: Value)
    requires !Nullish(config)
    ensures CreateScreen(CreateScreen(config)) == CreateScreen(config)
  {
    var params := Get(config, "config");
    var r := CreateScreen(config);
    if IsScreenTag(Get(config, "type")) {
      // the rebuilt screen reads its parameters from `config || {}`, which
      // has the same entries as `config` wherever the latter has any
      assert Get(r, "config") == Or(params, EmptyObject);
      forall k: string ensures Get(Get(r, "config"), k) == Get(params, k) {
      }
    }
  }

  /** The same for interactions. */
  lemma {:induction false} CreateInteractionIdempotent(config: Value)
    requires !Nullish(config)
    ensures CreateInteraction(CreateInteraction(config)) == CreateInteraction(config)
  {
    var r := CreateInteraction(config);
    if IsInteractionTag(Get(config, "type")) {
      assert Get(r, "description") == Or(Get(config, "description"), Str(""));
    }
  }

  /** A built step is of the kind its record's tag names. */
  lemma CreateStepKind(config: Value)
    requires CreateStep(config).Ok?
    ensures var s := CreateStep(config).value;
            && (Get(config, "stepType") == Str(WarmUpStep.Tag) <==> s.WarmUp?)
            && (Get(config, "stepType") == Str(LearnItStep.Tag) <==> s.LearnIt?)
            && (Get(config, "stepType") == Str(TryItStep.Tag) <==> s.TryIt?)
            && (Get(config, "stepType") == Str(DoItStep.Tag) <==> s.DoIt?)
            && (Get(config, "stepType") == Str(ShowItStep.Tag) <==> s.ShowIt?)
            && (Get(config, "stepType") == Str(ExtensionStep.Tag) <==> s.Extension?)
  {
    Steps.TagIdentifiesKind(CreateStep(config).value);
  }

  /** Exactly when a record with a known tag builds: its nested lists
      normalise, it has an id and a title, and its own list is usable. */
  lemma {:induction false} CreateStepSucceeds(config: Value)
    requires !Nullish(config) && Normalise(config).Ok? && IsStepTag(Get(config, "stepType"))
    ensures var tag := Get(config, "stepType");
            var base := LessonStep.NewBase(config).Ok?;
            && (tag in {Str(WarmUpStep.Tag), Str(ExtensionStep.Tag)} ==> (CreateStep(config).Ok? <==> base))
            && (tag == Str(LearnItStep.Tag) ==> (CreateStep(config).Ok? <==> base && ChunksUsable(config)))
            && (tag == Str(TryItStep.Tag) ==>
                  (CreateStep(config).Ok? <==> base && LessonStep.ListField(config, "screens").Ok?))
            && (tag == Str(DoItStep.Tag) ==>
                  (CreateStep(config).Ok? <==> base && LessonStep.ListField(config, "problems").Ok?))
            && (tag == Str(ShowItStep.Tag) ==>
                  (CreateStep(config).Ok? <==> base && LessonStep.ListField(config, "questions").Ok?))
  {
    NormalisedReadsAgree(config);
    var n := Normalise(config).value;
    assert CreateStep(config) == Build(n);
    assert ChunksUsable(n) == ChunksUsable(config);
  }

  /** The factory does not call `validate()`: a try-it record without screens
      and a warm-up record without a screen both build, and their own checks
      would reject them. */
  lemma {:induction false} CreateStepSkipsValidation(config: Value)
    requires !Nullish(config) && !ListFails(Get(config, "sequence"))
    requires Truthy(Get(config, "id")) && Truthy(Get(config, "title"))
    requires Get(config, "stepType") in {Str(TryItStep.Tag), Str(WarmUpStep.Tag)}
    requires Get(config, "stepType") == Str(TryItStep.Tag) ==> !Truthy(Get(config, "screens"))
    requires Get(config, "stepType") == Str(WarmUpStep.Tag) ==>
               !Truthy(Get(config, "screen")) && !ListFails(Get(config, "screens"))
    ensures CreateStep(config).Ok?
    ensures Get(config, "stepType") == Str(TryItStep.Tag) ==> Steps.Validate(CreateStep(config).value) == Err(NoScreens)
    ensures Get(config, "stepType") == Str(WarmUpStep.Tag) ==> Steps.Validate(CreateStep(config).value) == Err(MissingScreen)
  {
    CreateStepSucceeds(config);
    CreateStepKind(config);
  }
}
