/** What the factory builds from each record of the first lesson, and what
    the built steps accept.

    Each record is read key by key in a small lemma of its own; what follows
    from those reads is proved for any record that reads the same way; the
    two are then put together for the record itself. */
module Lesson1Steps {
  import opened JsValues
  import opened Errors
  import opened Lesson1Data
  import Screens
  import Interactions
  import Steps
  import StepFactory
  import LessonStep
  import WarmUpStep
  import LearnItStep
  import TryItStep
  import DoItStep
  import ShowItStep
  import ExtensionStep

  /** The keys every lesson record shares: a known tag, an id, a title and
      neither a `sequence` nor a `screens` list. */
  predicate Headed(c: Value, tag: string) {
    && c.Obj?
    && Get(c, "stepType") == Str(tag)
    && Truthy(Get(c, "id"))
    && Truthy(Get(c, "title"))
    && Get(c, "sequence") == Undefined
  }

  // ---------------------------------------------------------------------
  // Records of any shape

  /** A warm-up or extension record with an id and a title builds a step of
      its kind. */
  lemma {:induction false} SingleScreenBuilds(c: Value, tag: string)
    requires Headed(c, tag) && Get(c, "screens") == Undefined
    requires tag == WarmUpStep.Tag || tag == ExtensionStep.Tag
    ensures StepFactory.CreateStep(c).Ok?
    ensures tag == WarmUpStep.Tag ==> StepFactory.CreateStep(c).value.WarmUp?
    ensures tag == ExtensionStep.Tag ==> StepFactory.CreateStep(c).value.Extension?
  {
    StepFactory.CreateStepSucceeds(c);
    StepFactory.CreateStepKind(c);
  }

  /** A record tagged "clock-face" becomes a clock face screen. */
  lemma ClockFaceBuilt(v: Value)
    requires Get(v, "type") == Str(Screens.ClockFaceTag)
    ensures StepFactory.ScreenIfPresent(v) == Screens.ClockFace(v)
  {
  }

  /** A record tagged "image-gallery" becomes an image gallery screen. */
  lemma ImageGalleryBuilt(v: Value)
    requires Get(v, "type") == Str(Screens.ImageGalleryTag)
    ensures StepFactory.ScreenIfPresent(v) == Screens.ImageGallery(v)
  {
  }

  /** A record tagged "text-input" becomes a text input. */
  lemma TextInputBuilt(v: Value)
    requires Get(v, "type") == Str(Interactions.TextInputTag)
    ensures StepFactory.InteractionIfPresent(v) == Interactions.TextInput(v)
  {
  }

  /** A text input accepts at a position exactly the primitive answer its
      answer map lists under that position's key, and nothing where it lists
      none. */
  lemma {:induction false} TextInputJudges(config: Value, position: Value, expected: Value, value: Value)
    requires !Nullish(config) && Truthy(Get(config, "correctAnswers")) && Truthy(position)
    requires Get(Get(config, "correctAnswers"), ToPropertyKey(position)) == expected && IsPrimitive(expected)
    ensures Interactions.ValidateInput(Interactions.TextInput(config), Entry(position, value))
            == Ok(Truthy(expected) && value == expected)
  {
    var entry := Entry(position, value);
    assert Get(entry, "position") == position;
    assert Get(entry, "value") == value;
  }

  /** A keypad entry: the box's position and the typed value. */
  function Entry(position: Value, value: Value): Value {
    Rec(map["position" := position, "value" := value])
  }

  // ---------------------------------------------------------------------
  // Step 1: warm-up

  /** The warm-up's screen and keypad, as the factory builds them. */
  const WarmUpFace: Value := Screens.ClockFace(WarmUpScreen)
  const WarmUpKeypad: Value := Interactions.TextInput(WarmUpInteraction)

  lemma WarmUpHeader()
    ensures Headed(WarmUpConfig, WarmUpStep.Tag)
  {
    WarmUpTagged();
    WarmUpHasId();
    WarmUpHasTitle();
    WarmUpHasNoSequence();
  }

  lemma WarmUpTagged()
    ensures WarmUpConfig.Obj? && Get(WarmUpConfig, "stepType") == Str(WarmUpStep.Tag)
  {
  }

  lemma WarmUpHasId()
    ensures Truthy(Get(WarmUpConfig, "id"))
  {
  }

  lemma WarmUpHasTitle()
    ensures Truthy(Get(WarmUpConfig, "title"))
  {
  }

  lemma WarmUpHasNoSequence()
    ensures Get(WarmUpConfig, "sequence") == Undefined
  {
  }

  lemma WarmUpReads()
    ensures Get(WarmUpConfig, "screens") == Undefined
    ensures Get(WarmUpConfig, "screen") == WarmUpScreen
    ensures Get(WarmUpConfig, "interaction") == WarmUpInteraction
  {
  }

  lemma WarmUpScreenReads()
    ensures Get(WarmUpScreen, "type") == Str(Screens.ClockFaceTag)
    ensures Get(WarmUpInteraction, "type") == Str(Interactions.TextInputTag)
  {
  }

  /** A warm-up record with a clock face and a text input builds a warm-up
      holding both, which passes its own check. */
  lemma {:induction false} WarmUpShape(c: Value)
    requires Headed(c, WarmUpStep.Tag) && Get(c, "screens") == Undefined
    requires Get(Get(c, "screen"), "type") == Str(Screens.ClockFaceTag)
    requires Get(Get(c, "interaction"), "type") == Str(Interactions.TextInputTag)
    ensures StepFactory.CreateStep(c).Ok?
    ensures var s := StepFactory.CreateStep(c).value;
            && s.WarmUp?
            && Steps.Validate(s) == Ok(true)
            && s.warmUp.screen == Screens.ClockFace(Get(c, "screen"))
            && s.warmUp.interaction == Interactions.TextInput(Get(c, "interaction"))
  {
    SingleScreenBuilds(c, WarmUpStep.Tag);
    StepFactory.CreateStepWarmUp(c);
    ClockFaceBuilt(Get(c, "screen"));
    TextInputBuilt(Get(c, "interaction"));
  }

  /** The warm-up builds and passes its own check, with the clock face and the
      text input of its record. */
  lemma {:induction false} WarmUpBuilds()
    ensures StepFactory.CreateStep(WarmUpConfig).Ok?
    ensures var s := StepFactory.CreateStep(WarmUpConfig).value;
            && s.WarmUp?
            && Steps.Validate(s) == Ok(true)
            && s.warmUp.screen == WarmUpFace
            && s.warmUp.interaction == WarmUpKeypad
  {
    WarmUpHeader();
    WarmUpReads();
    WarmUpScreenReads();
    WarmUpShape(WarmUpConfig);
  }

  /** The warm-up's clock face leaves out 2, 5 and 11, anchors 12, 3, 6 and 9,
      and shows its numbers. */
  lemma {:induction false} WarmUpFaceShows()
    ensures WarmUpFace.cls == ScreenOf(ClockFaceScreen)
    ensures Get(WarmUpFace, "missingNumbers") == Arr([Num(2), Num(5), Num(11)])
    ensures Get(WarmUpFace, "anchors") == Arr([Num(12), Num(3), Num(6), Num(9)])
    ensures Get(WarmUpFace, "showNumbers") == Bool(true)
  {
    var p := Get(WarmUpScreen, "config");
    assert Get(p, "missingNumbers") == Arr([Num(2), Num(5), Num(11)]);
    assert Get(p, "anchors") == Arr([Num(12), Num(3), Num(6), Num(9)]);
    assert Get(p, "showNumbers") == Undefined;
  }

  lemma WarmUpAnswersRead()
    ensures Get(WarmUpInteraction, "correctAnswers") == WarmUpAnswers
    ensures Get(WarmUpAnswers, "2") == Str("2")
    ensures Get(WarmUpAnswers, "5") == Str("5")
    ensures Get(WarmUpAnswers, "11") == Str("11")
    ensures Get(WarmUpAnswers, "3") == Undefined
  {
  }

  lemma {:induction false} PositionKeys()
    ensures ToPropertyKey(Num(2)) == "2"
    ensures ToPropertyKey(Num(5)) == "5"
    ensures ToPropertyKey(Num(11)) == "11"
    ensures ToPropertyKey(Num(3)) == "3"
  {
    assert NatToString(1) == "1";
  }

  /** The warm-up's keypad accepts in box `p` exactly the string of `p`: the
      number itself is not `===` to it, and a box it has no answer for accepts
      nothing. */
  lemma {:induction false} WarmUpAcceptsItsAnswers(value: Value)
    ensures Interactions.ValidateInput(WarmUpKeypad, Entry(Num(2), value)) == Ok(value == Str("2"))
    ensures Interactions.ValidateInput(WarmUpKeypad, Entry(Num(5), value)) == Ok(value == Str("5"))
    ensures Interactions.ValidateInput(WarmUpKeypad, Entry(Num(11), value)) == Ok(value == Str("11"))
    ensures Interactions.ValidateInput(WarmUpKeypad, Entry(Num(3), value)) == Ok(false)
    ensures forall p :: ToPropertyKey(p) !in {"2", "5", "11"} ==>
              Interactions.ValidateInput(WarmUpKeypad, Entry(p, value)) == Ok(false)
  {
    WarmUpAnswersRead();
    PositionKeys();
    TextInputJudges(WarmUpInteraction, Num(2), Str("2"), value);
    TextInputJudges(WarmUpInteraction, Num(5), Str("5"), value);
    TextInputJudges(WarmUpInteraction, Num(11), Str("11"), value);
    TextInputJudges(WarmUpInteraction, Num(3), Undefined, value);
    assert WarmUpAnswers.fields.Keys == {"2", "5", "11"};
    forall p | ToPropertyKey(p) !in {"2", "5", "11"}
      ensures Interactions.ValidateInput(WarmUpKeypad, Entry(p, value)) == Ok(false)
    {
      assert Get(Entry(p, value), "position") == p;
      Interactions.TextInputRejectsUnlistedPosition(WarmUpInteraction, Entry(p, value));
    }
  }

  // ---------------------------------------------------------------------
  // Step 2: learn-it

  lemma LearnItHeader()
    ensures Headed(LearnItConfig, LearnItStep.Tag)
  {
    LearnItTagged();
    LearnItHasId();
    LearnItHasTitle();
    LearnItHasNoSequence();
  }

  lemma LearnItTagged()
    ensures LearnItConfig.Obj? && Get(LearnItConfig, "stepType") == Str(LearnItStep.Tag)
  {
  }

  lemma LearnItHasId()
    ensures Truthy(Get(LearnItConfig, "id"))
  {
  }

  lemma LearnItHasTitle()
    ensures Truthy(Get(LearnItConfig, "title"))
  {
  }

  lemma LearnItHasNoSequence()
    ensures Get(LearnItConfig, "sequence") == Undefined
  {
  }

  lemma LearnItReads()
    ensures Get(LearnItConfig, "screens") == Undefined
    ensures Get(LearnItConfig, "chunks") == Arr(Chunks)
  {
  }

  lemma ChunksRead()
    ensures forall i :: 0 <= i < |Chunks| ==> Chunks[i].Obj?
    ensures Truthy(Get(Chunk21, "screen"))
  {
  }

  /** A learn-it record whose chunks are records, the first with a screen,
      builds a learn-it step on its first chunk, which passes its own check. */
  lemma {:induction false} LearnItShape(c: Value, chunks: seq<Value>)
    requires Headed(c, LearnItStep.Tag) && Get(c, "screens") == Undefined
    requires Get(c, "chunks") == Arr(chunks) && |chunks| > 0
    requires forall i :: 0 <= i < |chunks| ==> chunks[i].Obj?
    requires Truthy(Get(chunks[0], "screen"))
    ensures StepFactory.CreateStep(c).Ok?
    ensures var s := StepFactory.CreateStep(c).value;
            && s.LearnIt?
            && s.learnIt.chunks == chunks
            && s.learnIt.currentChunkIndex == 0
            && LearnItStep.Valid(s.learnIt)
            && Steps.Validate(s) == Ok(true)
  {
    assert StepFactory.ChunksUsable(c);
    StepFactory.CreateStepSucceeds(c);
    StepFactory.CreateStepKind(c);
    StepFactory.CreateStepLists(c);
  }

  /** The learn-it step builds on chunk 2.1 of its three chunks, and passes
      its own check. */
  lemma {:induction false} LearnItBuilds()
    ensures StepFactory.CreateStep(LearnItConfig).Ok?
    ensures var s := StepFactory.CreateStep(LearnItConfig).value;
            && s.LearnIt?
            && s.learnIt.chunks == Chunks
            && s.learnIt.currentChunkIndex == 0
            && Steps.Validate(s) == Ok(true)
  {
    LearnItHeader();
    LearnItReads();
    ChunksRead();
    LearnItShape(LearnItConfig, Chunks);
  }

  lemma Chunk21Reads()
    ensures Get(Chunk21, "interaction").Obj? && Get(Chunk21, "interaction").cls == Plain
    ensures Get(Get(Chunk21, "interaction"), "type") == Str(Interactions.ClickTapTag)
  {
  }

  lemma Chunk22Reads()
    ensures Get(Chunk22, "interaction") == Chunk22Interactions && Chunk22Interactions.Arr?
    ensures Get(Chunk22, "vocabulary") == Arr([Str("Hour Hand"), Str("Minute Hand")])
  {
  }

  /** The factory does not build the interactions of learn-it chunks: on chunk
      2.1 the step holds the plain "click-tap" record, which no interaction
      class judges, and one `nextChunk()` later it holds chunk 2.2's list of
      two records, with that chunk's vocabulary. */
  lemma {:induction false} LearnItInteractionsStayRecords(l: LearnItStep.LearnIt)
    requires LearnItStep.Valid(l) && l.chunks == Chunks && l.currentChunkIndex == 0
    ensures Get(l.interaction, "type") == Str(Interactions.ClickTapTag)
    ensures !Interactions.IsInteraction(l.interaction)
    ensures var n := LearnItStep.NextChunk(l);
            && n.moved
            && n.state.interaction == Chunk22Interactions
            && n.state.interaction.Arr?
            && n.state.base.vocabulary == Arr([Str("Hour Hand"), Str("Minute Hand")])
  {
    Chunk21Reads();
    Chunk22Reads();
  }

  // ---------------------------------------------------------------------
  // Step 3: try-it

  lemma TryItHeader()
    ensures Headed(TryItConfig, TryItStep.Tag)
  {
    TryItTagged();
    TryItHasId();
    TryItHasTitle();
    TryItHasNoSequence();
  }

  lemma TryItTagged()
    ensures TryItConfig.Obj? && Get(TryItConfig, "stepType") == Str(TryItStep.Tag)
  {
  }

  lemma TryItHasId()
    ensures Truthy(Get(TryItConfig, "id"))
  {
  }

  lemma TryItHasTitle()
    ensures Truthy(Get(TryItConfig, "title"))
  {
  }

  lemma TryItHasNoSequence()
    ensures Get(TryItConfig, "sequence") == Undefined
  {
  }

  lemma TryItReads()
    ensures Get(TryItConfig, "screens") == Arr(TryItScreens)
    ensures forall i :: 0 <= i < |TryItScreens| ==> TryItScreens[i].Obj?
  {
  }

  /** The try-it screens after normalisation. */
  const BuiltScreens: seq<Value> := StepFactory.NormaliseScreens(TryItScreens).value

  /** A try-it record whose screens are records builds a try-it step on its
      first screen, holding the screens normalised one for one. */
  lemma {:induction false} TryItShape(c: Value, items: seq<Value>)
    requires Headed(c, TryItStep.Tag)
    requires Get(c, "screens") == Arr(items)
    requires forall i :: 0 <= i < |items| ==> items[i].Obj?
    ensures StepFactory.CreateStep(c).Ok?
    ensures var s := StepFactory.CreateStep(c).value;
            && s.TryIt?
            && StepFactory.NormaliseScreens(items) == Ok(s.tryIt.screens)
            && s.tryIt.currentScreenIndex == 0
            && (Steps.Validate(s).Ok? <==> |items| > 0)
  {
    StepFactory.CreateStepSucceeds(c);
    StepFactory.CreateStepKind(c);
    StepFactory.CreateStepLists(c);
  }

  /** The try-it step builds on screen 3.1 of its four normalised screens,
      and passes its own check. */
  lemma {:induction false} TryItBuilds()
    ensures StepFactory.CreateStep(TryItConfig).Ok?
    ensures var s := StepFactory.CreateStep(TryItConfig).value;
            && s.TryIt?
            && s.tryIt.screens == BuiltScreens
            && |BuiltScreens| == 4
            && s.tryIt.currentScreenIndex == 0
            && Steps.Validate(s) == Ok(true)
  {
    TryItHeader();
    TryItReads();
    TryItShape(TryItConfig, TryItScreens);
  }

  /** Entry `i` of a list of screen records, once normalised, holds the
      record's interaction through the interaction factory and its config
      through the screen factory. */
  lemma {:induction false} NormalisedScreenAt(items: seq<Value>, i: nat)
    requires forall k :: 0 <= k < |items| ==> items[k].Obj?
    requires i < |items|
    ensures StepFactory.NormaliseScreens(items).Ok?
    ensures |StepFactory.NormaliseScreens(items).value| == |items|
    ensures var built := StepFactory.NormaliseScreens(items).value[i];
            && Get(built, "interaction") == StepFactory.InteractionIfPresent(Get(items[i], "interaction"))
            && Get(built, "config") == StepFactory.ScreenIfPresent(Get(items[i], "config"))
  {
  }

  /** A record tagged "click-tap" becomes a click-tap, which accepts exactly
      its primitive `correctAnswer`. */
  lemma {:induction false} ClickTapJudges(x: Value, answer: Value)
    requires Get(x, "type") == Str(Interactions.ClickTapTag)
    ensures StepFactory.InteractionIfPresent(x) == Interactions.ClickTap(x)
    ensures Interactions.ValidateInput(Interactions.ClickTap(x), answer)
            == Ok(StrictEq(answer, Get(x, "correctAnswer")))
  {
  }

  /** A record tagged "drag-drop" becomes a drag-drop, which accepts exactly
      its primitive `targetDirection`. */
  lemma {:induction false} DragDropJudges(x: Value, answer: Value)
    requires Get(x, "type") == Str(Interactions.DragDropTag)
    ensures StepFactory.InteractionIfPresent(x) == Interactions.DragDrop(x)
    ensures Interactions.ValidateInput(Interactions.DragDrop(x), answer)
            == Ok(StrictEq(answer, Get(x, "targetDirection")))
  {
  }

  /** A record whose tag no factory knows passes through as it is. */
  lemma UntaggedStays(x: Value)
    requires !StepFactory.IsScreenTag(Get(x, "type")) && !StepFactory.IsInteractionTag(Get(x, "type"))
    ensures StepFactory.InteractionIfPresent(x) == x
    ensures StepFactory.ScreenIfPresent(x) == x
  {
  }

  lemma TryItScreensAreRecords()
    ensures forall i :: 0 <= i < |TryItScreens| ==> TryItScreens[i].Obj?
  {
  }

  lemma Screen31Reads()
    ensures Get(Screen31, "interaction") == HourHandTap
  {
  }

  lemma Screen31ConfigReads()
    ensures Get(Screen31, "config") == SixOClock
  {
  }

  lemma HourHandTapReads()
    ensures Get(HourHandTap, "type") == Str(Interactions.ClickTapTag)
    ensures Get(HourHandTap, "correctAnswer") == Str("hour-hand")
  {
  }

  /** Screen 3.1's config has no type tag: it is kept as the plain record. */
  lemma {:induction false} Screen31KeepsConfig()
    ensures Get(BuiltScreens[0], "config") == SixOClock
  {
    TryItScreensAreRecords();
    Screen31ConfigReads();
    NormalisedScreenAt(TryItScreens, 0);
    UntaggedStays(SixOClock);
  }

  /** Screen 3.1 gets a click-tap that accepts exactly "hour-hand". */
  lemma {:induction false} Screen31Built(answer: Value)
    ensures Get(BuiltScreens[0], "interaction") == Interactions.ClickTap(HourHandTap)
    ensures Interactions.ValidateInput(Interactions.ClickTap(HourHandTap), answer) == Ok(answer == Str("hour-hand"))
  {
    TryItScreensAreRecords();
    Screen31Reads();
    HourHandTapReads();
    NormalisedScreenAt(TryItScreens, 0);
    ClickTapJudges(HourHandTap, answer);
  }

  lemma Screen33Reads()
    ensures Get(Screen33, "interaction") == YesNoInteraction
    ensures Get(YesNoInteraction, "type") == Str("yes-no")
  {
  }

  /** Screen 3.3's "yes-no" interaction has no class: it stays the plain
      record it was. */
  lemma {:induction false} Screen33StaysRecord()
    ensures Get(BuiltScreens[2], "interaction") == YesNoInteraction
    ensures !Interactions.IsInteraction(YesNoInteraction)
  {
    TryItScreensAreRecords();
    Screen33Reads();
    NormalisedScreenAt(TryItScreens, 2);
    UntaggedStays(YesNoInteraction);
  }

  lemma Screen34Reads()
    ensures Get(Screen34, "interaction") == ArrowDragDrop
    ensures Get(ArrowDragDrop, "type") == Str(Interactions.DragDropTag)
    ensures Get(ArrowDragDrop, "targetDirection") == Undefined
  {
  }

  /** Screen 3.4's drag-drop is built, but reads its answer from
      `targetDirection`, which the record does not have: it accepts only
      `undefined`, and not "clockwise". */
  lemma {:induction false} Screen34AcceptsOnlyUndefined(answer: Value)
    ensures Get(BuiltScreens[3], "interaction") == Interactions.DragDrop(ArrowDragDrop)
    ensures Interactions.ValidateInput(Interactions.DragDrop(ArrowDragDrop), answer) == Ok(answer == Undefined)
    ensures Interactions.ValidateInput(Interactions.DragDrop(ArrowDragDrop), Str("clockwise")) == Ok(false)
  {
    TryItScreensAreRecords();
    Screen34Reads();
    NormalisedScreenAt(TryItScreens, 3);
    DragDropJudges(ArrowDragDrop, answer);
    DragDropJudges(ArrowDragDrop, Str("clockwise"));
  }

  // ---------------------------------------------------------------------
  // Step 4: do-it

  lemma DoItHeader()
    ensures Headed(DoItConfig, DoItStep.Tag)
  {
    DoItTagged();
    DoItHasId();
    DoItHasTitle();
    DoItHasNoSequence();
  }

  lemma DoItTagged()
    ensures DoItConfig.Obj? && Get(DoItConfig, "stepType") == Str(DoItStep.Tag)
  {
  }

  lemma DoItHasId()
    ensures Truthy(Get(DoItConfig, "id"))
  {
  }

  lemma DoItHasTitle()
    ensures Truthy(Get(DoItConfig, "title"))
  {
  }

  lemma DoItHasNoSequence()
    ensures Get(DoItConfig, "sequence") == Undefined
  {
  }

  lemma DoItReads()
    ensures Get(DoItConfig, "screens") == Undefined
    ensures Get(DoItConfig, "problems") == Arr(Problems)
  {
  }

  /** A do-it record with a list of problems builds a do-it step on its first
      problem. */
  lemma {:induction false} DoItShape(c: Value, items: seq<Value>)
    requires Headed(c, DoItStep.Tag) && Get(c, "screens") == Undefined
    requires Get(c, "problems") == Arr(items)
    ensures StepFactory.CreateStep(c).Ok?
    ensures var s := StepFactory.CreateStep(c).value;
            && s.DoIt?
            && s.doIt.problems == items
            && s.doIt.currentProblemIndex == 0
            && (Steps.Validate(s).Ok? <==> |items| > 0)
  {
    StepFactory.CreateStepSucceeds(c);
    StepFactory.CreateStepKind(c);
    StepFactory.CreateStepLists(c);
  }

  /** The do-it step builds on problem 4.1 of its eight problems, and passes
      its own check. */
  lemma {:induction false} DoItBuilds()
    ensures StepFactory.CreateStep(DoItConfig).Ok?
    ensures var s := StepFactory.CreateStep(DoItConfig).value;
            && s.DoIt?
            && s.doIt.problems == Problems
            && s.doIt.currentProblemIndex == 0
            && Steps.Validate(s) == Ok(true)
  {
    DoItHeader();
    DoItReads();
    DoItShape(DoItConfig, Problems);
  }

  lemma ProblemsRead()
    ensures Problem41.Obj? && Get(Problem41, "correctAnswer") == Str("Short hand")
    ensures Problem44.Obj? && Get(Problem44, "correctAnswer") == Bool(true)
  {
  }

  /** Problem 4.1 takes exactly "Short hand"; problem 4.4 takes exactly the
      boolean `true`, so the string "true" is judged wrong. */
  lemma {:induction false} DoItJudges(d: DoItStep.DoIt, answer: Value)
    requires DoItStep.Valid(d) && d.problems == Problems
    ensures d.currentProblemIndex == 0 ==>
              DoItStep.RecordAnswer(d, answer).Ok?
              && (DoItStep.RecordAnswer(d, answer).value.correct <==> answer == Str("Short hand"))
    ensures d.currentProblemIndex == 3 ==>
              DoItStep.RecordAnswer(d, answer).Ok?
              && (DoItStep.RecordAnswer(d, answer).value.correct <==> answer == Bool(true))
  {
    ProblemsRead();
  }

  // ---------------------------------------------------------------------
  // Step 5: show-it

  lemma ShowItHeader()
    ensures Headed(ShowItConfig, ShowItStep.Tag)
  {
    ShowItTagged();
    ShowItHasId();
    ShowItHasTitle();
    ShowItHasNoSequence();
  }

  lemma ShowItTagged()
    ensures ShowItConfig.Obj? && Get(ShowItConfig, "stepType") == Str(ShowItStep.Tag)
  {
  }

  lemma ShowItHasId()
    ensures Truthy(Get(ShowItConfig, "id"))
  {
  }

  lemma ShowItHasTitle()
    ensures Truthy(Get(ShowItConfig, "title"))
  {
  }

  lemma ShowItHasNoSequence()
    ensures Get(ShowItConfig, "sequence") == Undefined
  {
  }

  lemma ShowItReads()
    ensures Get(ShowItConfig, "screens") == Undefined
    ensures Get(ShowItConfig, "questions") == Arr(Questions)
    ensures Get(ShowItConfig, "remediation") == Undefined
    ensures Truthy(Get(Get(ShowItConfig, "feedback"), "remediation"))
  {
  }

  /** A show-it record with a list of questions builds a show-it step on its
      first question, with no points and the record's top-level remediation. */
  lemma {:induction false} ShowItShape(c: Value, items: seq<Value>)
    requires Headed(c, ShowItStep.Tag) && Get(c, "screens") == Undefined
    requires Get(c, "questions") == Arr(items)
    ensures StepFactory.CreateStep(c).Ok?
    ensures var s := StepFactory.CreateStep(c).value;
            && s.ShowIt?
            && s.showIt.questions == items
            && s.showIt.currentQuestionIndex == 0
            && s.showIt.score == 0
            && s.showIt.remediation == Get(c, "remediation")
            && (Steps.Validate(s).Ok? <==> |items| > 0)
  {
    StepFactory.CreateStepSucceeds(c);
    StepFactory.CreateStepKind(c);
    StepFactory.CreateStepLists(c);
    StepFactory.CreateStepShowIt(c);
  }

  /** The show-it step builds on question 5.1 of its four questions and
      passes its own check. Its remediation advice is written under
      `feedback`, so the step's own remediation is `undefined`; with no
      points yet, it needs remediation. */
  lemma {:induction false} ShowItBuilds()
    ensures StepFactory.CreateStep(ShowItConfig).Ok?
    ensures var s := StepFactory.CreateStep(ShowItConfig).value;
            && s.ShowIt?
            && s.showIt.questions == Questions
            && s.showIt.currentQuestionIndex == 0
            && s.showIt.remediation == Undefined
            && ShowItStep.NeedsRemediation(s.showIt)
            && Steps.Validate(s) == Ok(true)
  {
    ShowItHeader();
    ShowItReads();
    ShowItShape(ShowItConfig, Questions);
  }

  lemma Question51Reads()
    ensures Question51.Obj? && Get(Question51, "correctAnswer") == Str("hour-hand")
  {
  }

  /** Answering question 5.1 correctly three times, without moving on, clears
      the need for remediation: the pass mark counts correct calls, not
      questions. */
  lemma {:induction false} ShowItPassesOnOneQuestion(s: ShowItStep.ShowIt)
    requires ShowItStep.Valid(s) && s.questions == Questions
    requires s.currentQuestionIndex == 0 && s.score == 0
    ensures ShowItStep.NeedsRemediation(ShowItStep.RecordCorrect(s, 2))
    ensures !ShowItStep.NeedsRemediation(ShowItStep.RecordCorrect(s, 3))
  {
    Question51Reads();
    ShowItStep.ThreeCorrectClearRemediation(s, 2);
    ShowItStep.ThreeCorrectClearRemediation(s, 3);
  }

  // ---------------------------------------------------------------------
  // Step 6: extension

  /** The extension's screen, as the factory builds it. */
  const Gallery: Value := Screens.ImageGallery(GalleryScreen)

  lemma ExtensionHeader()
    ensures Headed(ExtensionConfig, ExtensionStep.Tag)
  {
    ExtensionTagged();
    ExtensionHasId();
    ExtensionHasTitle();
    ExtensionHasNoSequence();
  }

  lemma ExtensionTagged()
    ensures ExtensionConfig.Obj? && Get(ExtensionConfig, "stepType") == Str(ExtensionStep.Tag)
  {
  }

  lemma ExtensionHasId()
    ensures Truthy(Get(ExtensionConfig, "id"))
  {
  }

  lemma ExtensionHasTitle()
    ensures Truthy(Get(ExtensionConfig, "title"))
  {
  }

  lemma ExtensionHasNoSequence()
    ensures Get(ExtensionConfig, "sequence") == Undefined
  {
  }

  lemma ExtensionReads()
    ensures Get(ExtensionConfig, "screens") == Undefined
    ensures Get(ExtensionConfig, "screen") == GalleryScreen
    ensures Get(ExtensionConfig, "interaction") == Undefined
    ensures Get(GalleryScreen, "type") == Str(Screens.ImageGalleryTag)
  {
  }

  /** An extension record with an image gallery and no interaction builds an
      extension holding the gallery and the interaction "none", which passes
      its own check. */
  lemma {:induction false} ExtensionShape(c: Value)
    requires Headed(c, ExtensionStep.Tag) && Get(c, "screens") == Undefined
    requires Get(Get(c, "screen"), "type") == Str(Screens.ImageGalleryTag)
    requires Get(c, "interaction") == Undefined
    ensures StepFactory.CreateStep(c).Ok?
    ensures var s := StepFactory.CreateStep(c).value;
            && s.Extension?
            && Steps.Validate(s) == Ok(true)
            && s.extension.screen == Screens.ImageGallery(Get(c, "screen"))
            && s.extension.interaction == Str("none")
  {
    SingleScreenBuilds(c, ExtensionStep.Tag);
    StepFactory.CreateStepExtension(c);
    ImageGalleryBuilt(Get(c, "screen"));
  }

  /** The extension builds and passes its own check, with the gallery of its
      record and, having no interaction, the interaction "none". */
  lemma {:induction false} ExtensionBuilds()
    ensures StepFactory.CreateStep(ExtensionConfig).Ok?
    ensures var s := StepFactory.CreateStep(ExtensionConfig).value;
            && s.Extension?
            && Steps.Validate(s) == Ok(true)
            && s.extension.screen == Gallery
            && s.extension.interaction == Str("none")
  {
    ExtensionHeader();
    ExtensionReads();
    ExtensionShape(ExtensionConfig);
  }

  /** The gallery shows the two pictures of its record. */
  lemma {:induction false} GalleryShows()
    ensures Gallery.cls == ScreenOf(ImageGalleryScreen)
    ensures Get(Gallery, "images") == Images && |Images.items| == 2
  {
    assert Get(Get(GalleryScreen, "config"), "images") == Images;
  }
}
