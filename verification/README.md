# Meet the Clock: a Dafny model of the lesson core

The lesson app teaches reading a clock in six steps:
- a warm-up;
- a "learn it" step in chunks;
- a guided "try it" step over screens;
- a "do it" practice over problems;
- a "show it" assessment over questions;
- an extension.

Each step is built by a factory from a plain configuration record. The
records come from the lesson data file. A lesson manager then moves the
learner through the steps. It moves sub-unit by sub-unit inside a
multi-part step and step by step between steps. It announces each move and
the end of the lesson.

This project models that core:
- the JavaScript values the records are made of (`JsValues`);
- the screen and interaction descriptors and the judging of inputs
  (`Screens`, `Interactions`);
- the step classes (`LessonStep`, `WarmUpStep`, `LearnItStep`, `TryItStep`,
  `DoItStep`, `ShowItStep`, `ExtensionStep`), their shared cursor
  (`Paging`) and their shared scoring (`Scoring`);
- the factory (`StepFactory`) and the manager (`LessonManager`);
- the first lesson's records (`Lesson1Data`), and what the factory builds
  from them and how those steps judge answers (`Lesson1Steps`);
- a run through any lesson of the first lesson's shape (`Lesson1Walk`).

Everything is a pure function over immutable values. A method call that
mutates its object becomes a function returning the new object. A call
that throws becomes an `Err` of `Errors.Result`. The manager's callbacks
become an event log kept in the manager.

Behaviour is modelled as the code is written, including these quirks:
- `recordAnswer` adds a point on every correct call, so the same correct
  answer recorded twice scores twice.
- The factory never calls `validate()`. A try-it record without screens
  builds a step that then fails its own check.
- `isFirstStep()` reports a show-it step as being at its first question
  whatever its cursor. `isLastStep()` throws when the last step is a
  show-it step, because it calls a method that step does not have.
  `previousStep()` does not move a show-it step onto its last question
  when stepping back into it.
- The first lesson's show-it record keeps its remediation advice under
  `feedback`, so the built step's own `remediation` is undefined.
- Screen 3.3's `"yes-no"` interaction is not a known tag and stays a plain
  record.
- Screen 3.4's drag-drop names its answer `correctDirection`. The
  drag-drop class reads `targetDirection`, so only `undefined` is
  accepted.
- The factory does not build the interactions inside learn-it chunks.
  Chunk 2.2's interaction is a list.

## Model

| member | source | states |
|---|---|---|
| Paging.Next | js/models/TryItStep.js:53-59 | advancing moves exactly when the cursor is not on the last sub-unit, by one, and otherwise leaves it in place; the cursor stays in range |
| Paging.Previous | js/models/TryItStep.js:65-71 | retreating moves exactly when the cursor is above 0, by one, and otherwise leaves it in place; the cursor stays in range |
| Paging.NextTimes | js/models/LearnItStep.js:63-75 | any number of advances keeps the cursor in range |
| Paging.WalkToLast | js/models/LearnItStep.js:63-75 | from any position, as many advances as there are sub-units ahead reach the last one, and one more does not move |
| Screens.NewScreen | js/models/Screen.js:8-11 | the base screen keeps the record's `type` and its `config`, or `{}` when the config is falsy |
| Screens.ClockFace | js/models/Screen.js:29-35 | a clock face forces its tag and takes missing numbers, anchors and sequential highlight from the config with their defaults; numbers are hidden only by an explicit `showNumbers: false` |
| Screens.ClockWithHands | js/models/Screen.js:45-50 | a clock with hands forces its tag and defaults to 12:00 with a short and a long black hand |
| Screens.AnimatedClock | js/models/Screen.js:60-64 | an animated clock forces its tag and defaults to no animation and no arrows |
| Screens.ImageGallery | js/models/Screen.js:74-77 | an image gallery forces its tag and defaults to no images |
| Interactions.NewInteraction | js/models/Interaction.js:8-11 | the base interaction keeps the record's `type` and its description, or '' |
| Interactions.TextInput | js/models/Interaction.js:39-42 | a text input forces its tag and keeps the answers keyed by position, or `{}` |
| Interactions.ClickTap | js/models/Interaction.js:65-69 | a click-tap forces its tag and keeps its target element and expected answer |
| Interactions.DragDrop | js/models/Interaction.js:86-90 | a drag-drop forces its tag and keeps the object and the expected `targetDirection` |
| Interactions.BinaryChoice | js/models/Interaction.js:107-111 | a binary choice forces its tag and keeps its options and expected answer |
| Interactions.Mcq | js/models/Interaction.js:128-132 | a multiple choice forces its tag and keeps its options and expected answer |
| Interactions.ValidateInput | js/models/Interaction.js:26-139 | judging fails only for a text input given null or undefined; the base class accepts nothing; single-answer kinds accept exactly an input strictly equal to the expected answer; a text input accepts exactly a truthy value at a truthy position equal to the answer listed there |
| Interactions.TextInputRejectsUnlistedPosition | js/models/Interaction.js:47-55 | a text input rejects every entry whose position its answer map does not list |
| LessonStep.NewBase | js/models/LessonStep.js:9-20 | a step is built exactly when its id and title are truthy, a missing id reported first; goal, character prompt, transition and vocabulary take their defaults |
| LessonStep.ListField | js/models/TryItStep.js:10-14 | a sub-unit list is the configured array, or empty when the key is falsy; a truthy non-array is reported as not modelled |
| WarmUpStep.New | js/models/WarmUpStep.js:10-15 | a warm-up is built exactly when the base checks pass, keeping screen, interaction and feedback as given |
| WarmUpStep.Validate | js/models/WarmUpStep.js:27-32 | a warm-up is valid exactly with a truthy screen and interaction; a missing screen is reported first |
| ExtensionStep.New | js/models/ExtensionStep.js:10-14 | an extension is built exactly when the base checks pass; its interaction defaults to "none" |
| ExtensionStep.Validate | js/models/ExtensionStep.js:26-30 | an extension is valid exactly with a truthy screen |
| LearnItStep.New | js/models/LearnItStep.js:10-26 | no chunks is an error and a null first chunk a TypeError; otherwise, with the base checks passed, the step starts on chunk 0 and shows it. A null later chunk is refused as unmodelled, which the code does not do (see Left out) |
| LearnItStep.NextChunk | js/models/LearnItStep.js:63-75 | moves to the next chunk exactly when one exists, showing it and keeping the chunks and step fields; otherwise changes nothing |
| LearnItStep.PreviousChunk | js/models/LearnItStep.js:81-93 | moves to the previous chunk exactly when one exists; otherwise changes nothing |
| LearnItStep.ShowLastChunk | js/managers/LessonManager.js:132-139 | stepping back into a learn-it step puts it on its last chunk with its content unchanged |
| LearnItStep.GetCurrentChunk | js/models/LearnItStep.js:47-49 | the chunk under the cursor |
| LearnItStep.GetCurrentTitle | js/models/LearnItStep.js:55-57 | the title of the chunk under the cursor |
| LearnItStep.GetSubType | js/models/LearnItStep.js:39-41 | the id of the chunk under the cursor |
| LearnItStep.Validate | js/models/LearnItStep.js:114-126 | no chunks is an error; otherwise valid exactly when the first chunk has a truthy screen |
| LearnItStep.DeterminedByCursor | js/models/LearnItStep.js:63-93 | two valid learn-it steps with the same chunks, fields and cursor are equal: the mirrored chunk fields follow from the cursor |
| LearnItStep.BoundariesStopMoves | js/models/LearnItStep.js:99-109 | `isFirstChunk()` (`IsFirstChunk`) holds exactly when moving back fails, `isLastChunk()` (`IsLastChunk`) exactly when moving on fails |
| LearnItStep.NextThenPrevious | js/models/LearnItStep.js:63-93 | a successful move one way is undone by a move the other way |
| LearnItStep.NextChunkTimes | js/models/LearnItStep.js:63-75 | any number of `nextChunk()` calls keeps the step valid with its content unchanged |
| LearnItStep.WalkToLastChunk | js/models/LearnItStep.js:63-75 | from any chunk, one call per chunk ahead all move and reach the last chunk, where the next call does not move |
| TryItStep.New | js/models/TryItStep.js:10-14 | a try-it step is built exactly when the base checks pass and the screen list is usable; it starts on screen 0 |
| TryItStep.NextScreen | js/models/TryItStep.js:53-59 | moves on exactly when a next screen exists, changing only the cursor |
| TryItStep.PreviousScreen | js/models/TryItStep.js:65-71 | moves back exactly when the cursor is above 0, changing only the cursor |
| TryItStep.GetCurrentScreen | js/models/TryItStep.js:27-29 | the screen under the cursor, undefined with no screens |
| TryItStep.GetCurrentScreenId | js/models/TryItStep.js:35-38 | the current screen's id; a TypeError when there is no current screen object |
| TryItStep.GetCurrentScreenTitle | js/models/TryItStep.js:44-47 | the current screen's title; a TypeError when there is no current screen object |
| TryItStep.Validate | js/models/TryItStep.js:92-98 | valid exactly with at least one screen |
| TryItStep.BoundariesStopMoves | js/models/TryItStep.js:77-87 | `isFirstScreen()` (`IsFirstScreen`) and `isLastScreen()` (`IsLastScreen`) hold exactly when the moves fail, except that an empty list is never "last" |
| TryItStep.NextThenPrevious | js/models/TryItStep.js:53-71 | a successful move one way is undone by a move the other way |
| DoItStep.New | js/models/DoItStep.js:10-20 | a do-it step is built exactly when the base checks pass and the problem list is usable; cursor 0, score 0, one null answer slot per problem |
| DoItStep.NextProblem | js/models/DoItStep.js:50-56 | moves on exactly when a next problem exists, changing only the cursor |
| DoItStep.PreviousProblem | js/models/DoItStep.js:62-68 | moves back exactly when the cursor is above 0, changing only the cursor |
| DoItStep.GetCurrentProblem | js/models/DoItStep.js:33-35 | the problem under the cursor, undefined with no problems |
| DoItStep.GetCurrentProblemId | js/models/DoItStep.js:41-44 | the current problem's id, or a TypeError with no current problem object |
| DoItStep.RecordAnswer | js/models/DoItStep.js:91-102 | judges the answer by strict equality with the problem's answer, stores it in the problem's slot, adds a point when correct and changes nothing else; a TypeError with no current problem |
| DoItStep.GetFeedback | js/models/DoItStep.js:109-118 | the problem's own feedback text for the verdict, or "Correct!" / "Try again!" |
| DoItStep.Validate | js/models/DoItStep.js:123-129 | valid exactly with at least one problem |
| DoItStep.FeedbackAgreesWithRecord | js/models/DoItStep.js:91-118 | `getFeedback` fails exactly when `recordAnswer` does and otherwise gives the problem's text for `recordAnswer`'s verdict, from the feedback record or the defaults; whenever the two texts differ, the "correct" text comes back exactly for a correct answer |
| DoItStep.CorrectTwiceScoresTwice | js/models/DoItStep.js:91-102 | recording the same correct answer twice adds two points and leaves the answers as after the first call |
| DoItStep.NextThenPrevious | js/models/DoItStep.js:50-68 | a successful move one way is undone by a move the other way |
| DoItStep.BoundariesStopMoves | js/models/DoItStep.js:74-84 | `isFirstProblem()` (`IsFirstProblem`) and `isLastProblem()` (`IsLastProblem`) hold exactly when the moves fail, except that an empty list is never "last" |
| ShowItStep.New | js/models/ShowItStep.js:10-20 | a show-it step is built exactly when the base checks pass and the question list is usable; cursor 0, score 0, one null slot per question; feedback and remediation as given |
| ShowItStep.NextQuestion | js/models/ShowItStep.js:50-56 | moves on exactly when a next question exists, changing only the cursor |
| ShowItStep.NextProblem | js/models/ShowItStep.js:61-63 | `nextProblem()` is `nextQuestion()` |
| ShowItStep.PreviousQuestion | js/models/ShowItStep.js:69-75 | moves back exactly when the cursor is above 0, changing only the cursor |
| ShowItStep.PreviousProblem | js/models/ShowItStep.js:80-82 | `previousProblem()` is `previousQuestion()` |
| ShowItStep.GetCurrentQuestion | js/models/ShowItStep.js:33-35 | the question under the cursor, undefined with no questions |
| ShowItStep.GetCurrentQuestionId | js/models/ShowItStep.js:41-44 | the current question's id, or a TypeError with no current question object |
| ShowItStep.RecordAnswer | js/models/ShowItStep.js:105-116 | judges the answer by strict equality, stores it in the question's slot, adds a point when correct and changes nothing else |
| ShowItStep.GetFeedback | js/models/ShowItStep.js:123-132 | the question's own feedback text for the verdict, or "Correct" / "Incorrect" |
| ShowItStep.FeedbackAgreesWithRecord | js/models/ShowItStep.js:105-132 | `getFeedback` fails exactly when `recordAnswer` does and otherwise gives the question's text for `recordAnswer`'s verdict, from the feedback record or the defaults; whenever the two texts differ, the "correct" text comes back exactly for a correct answer |
| ShowItStep.Validate | js/models/ShowItStep.js:146-152 | valid exactly with at least one question |
| ShowItStep.RecordCorrect | js/models/ShowItStep.js:105-116 | repeated recording keeps the step valid on the same question |
| ShowItStep.RecordCorrectCounts | js/models/ShowItStep.js:105-116 | `k` correct answers recorded in a row add `k` points |
| ShowItStep.ThreeCorrectClearRemediation | js/models/ShowItStep.js:138-141 | from no points, `needsRemediation()` (`NeedsRemediation`) holds exactly while fewer than three correct answers have been recorded, however many questions there are |
| ShowItStep.NextThenPrevious | js/models/ShowItStep.js:50-75 | a successful move one way is undone by a move the other way |
| ShowItStep.BoundariesStopMoves | js/models/ShowItStep.js:88-98 | `isFirstQuestion()` (`IsFirstQuestion`) and `isLastQuestion()` (`IsLastQuestion`) hold exactly when the moves fail, except that an empty list is never "last" |
| Steps.Validate | js/models/LessonStep.js:35-37 | each kind's own check: the base is always valid, and each other kind is valid exactly when its required parts are present |
| Steps.TagIdentifiesKind | js/models/LessonStep.js:26-28 | `getType()` (`Steps.GetType`) tells the step kinds apart: each tag belongs to exactly one kind |
| StepFactory.CreateScreen | js/factories/StepFactory.js:90-104 | a known screen tag builds a screen of that class with the same tag; an unknown tag passes the record through |
| StepFactory.CreateInteraction | js/factories/StepFactory.js:111-127 | a known interaction tag builds an interaction of that class with the same tag; an unknown tag passes the record through |
| StepFactory.CreateScreenIdempotent | js/factories/StepFactory.js:90-104 | building a screen from a built screen gives the same screen |
| StepFactory.CreateInteractionIdempotent | js/factories/StepFactory.js:111-127 | building an interaction from a built interaction gives the same interaction |
| StepFactory.NormaliseSequenceItem | js/factories/StepFactory.js:45-50 | a sequence item's embedded check gets its interaction built when both are present; a null item is a TypeError |
| StepFactory.NormaliseScreenItem | js/factories/StepFactory.js:55-63 | a screen item's config and interaction are built when present, every other key unchanged; a null item is a TypeError |
| StepFactory.NormaliseSequence | js/factories/StepFactory.js:44-51 | the sequence is normalised item by item, failing exactly when some item is null |
| StepFactory.NormaliseScreens | js/factories/StepFactory.js:54-64 | the screen list is normalised item by item, failing exactly when some item is null |
| StepFactory.WithTopLevel | js/factories/StepFactory.js:33-41 | the top-level screen and interaction are built when present, every other key unchanged |
| StepFactory.WithSequence | js/factories/StepFactory.js:43-51 | an array sequence is replaced by its normalised form, every other key unchanged |
| StepFactory.WithScreens | js/factories/StepFactory.js:53-64 | an array screen list is replaced by its normalised form, every other key unchanged |
| StepFactory.Normalise | js/factories/StepFactory.js:33-64 | normalisation touches only screen, interaction, sequence and screens, and fails only on a null item in a list |
| StepFactory.Build | js/factories/StepFactory.js:67-82 | dispatch on `stepType`: an unknown tag is an error naming it; otherwise the step of that kind, built exactly when its constructor's checks pass |
| StepFactory.NewBaseReadsOnly | js/models/LessonStep.js:9-20 | the base constructor reads only id, title, goal, character prompt, transition and vocabulary |
| StepFactory.NormalisedReadsAgree | js/factories/StepFactory.js:34-64 | normalisation changes none of what the step constructors read, except that screens are built one for one |
| StepFactory.NormalisedBaseAgrees | js/factories/StepFactory.js:34-64 | the normalised record has the same step tag and base fields as the original |
| StepFactory.ListFieldsAgree | js/factories/StepFactory.js:34-64 | chunks, problems and questions read the same after normalisation; the screen list keeps its length |
| StepFactory.CreateStep | js/factories/StepFactory.js:32-83 | a null record or a null list item is a TypeError; an unknown tag is an error naming it; a built step has the record's tag, id and title and starts on its first sub-unit |
| StepFactory.CreateStepLists | js/factories/StepFactory.js:32-83 | a built step holds the record's chunks, problems and questions, and its normalised screens one for one |
| StepFactory.CreateStepShowIt | js/models/ShowItStep.js:10-20 | a built show-it step has the record's top-level remediation and no points |
| StepFactory.CreateStepWarmUp | js/factories/StepFactory.js:33-41 | a built warm-up holds the built screen and interaction of its record |
| StepFactory.CreateStepExtension | js/factories/StepFactory.js:33-41 | a built extension holds the built screen of its record and the built interaction or "none" |
| StepFactory.CreateStepKind | js/factories/StepFactory.js:67-82 | the built step's kind is the one its `stepType` names |
| StepFactory.CreateStepSucceeds | js/factories/StepFactory.js:67-82 | for each known tag, building succeeds exactly when that kind's constructor checks pass |
| StepFactory.CreateStepSkipsValidation | js/factories/StepFactory.js:67-82 | the factory does not validate: a try-it record without screens and a warm-up record without a screen build steps that fail their own check |
| LessonManager.New | js/managers/LessonManager.js:11-21 | a new manager is uninitialized, has no steps and no events |
| LessonManager.Collect | js/managers/LessonManager.js:29 | gathered results succeed exactly when each does, holding each value in order |
| LessonManager.CollectFirstFailure | js/managers/LessonManager.js:29 | a failed gathering reports the error of its first failing result, all earlier ones having succeeded |
| LessonManager.CreateSteps | js/managers/LessonManager.js:29 | the lesson builds exactly when every record builds, step `i` being the one record `i` builds |
| LessonManager.CreateStepsFirstFailure | js/managers/LessonManager.js:29 | a failing lesson reports the error of its first failing record |
| LessonManager.Notify | js/managers/LessonManager.js:208-213 | one step-change event carrying the current step, nothing else changed |
| LessonManager.Initialize | js/managers/LessonManager.js:26-44 | a failing record leaves the manager as it was; otherwise the steps are built, the lesson starts on step 0, and the call returns true and announces that step exactly when there is one |
| LessonManager.GetCurrentStep | js/managers/LessonManager.js:50-55 | the current step, or "not initialized" when there is none |
| LessonManager.AdvanceCursor | js/managers/LessonManager.js:61-95 | a step's own next sub-unit, moved to exactly when the step is not on its last one |
| LessonManager.RetreatCursor | js/managers/LessonManager.js:101-153 | a step's own previous sub-unit, moved to exactly when the step is not on its first one |
| LessonManager.ResetToLast | js/managers/LessonManager.js:131-145 | stepping back into a step puts it on its last sub-unit, except a show-it step, which is left as it is |
| LessonManager.NextStep | js/managers/LessonManager.js:61-95 | a step's own sub-unit comes first, then the next step as it stands; each move is announced; at the very end the lesson is announced complete and nothing moves |
| LessonManager.PreviousStep | js/managers/LessonManager.js:101-153 | a step's own sub-unit comes first, then the previous step on its last sub-unit; each move is announced; at the very beginning nothing happens |
| LessonManager.IsFirstStep | js/managers/LessonManager.js:159-177 | true exactly on step 0 at its first sub-unit, a show-it step counting as at its first whatever its cursor |
| LessonManager.IsLastStep | js/managers/LessonManager.js:183-203 | true exactly on the last step at its last sub-unit; a TypeError when the last step is a show-it step |
| LessonManager.PositionsAppend | js/managers/LessonManager.js:61-95 | the positions of two runs of steps add up |
| LessonManager.PositionsAccount | js/managers/LessonManager.js:61-153 | the positions behind, the current one and the positions ahead make up the whole lesson |
| LessonManager.InitializeStartsAtBeginning | js/managers/LessonManager.js:26-44 | after a successful start nothing is behind and every other position is ahead |
| LessonManager.ResetToLastIsIdentityAtLast | js/managers/LessonManager.js:131-145 | a step already on its last sub-unit is unchanged by the reset |
| LessonManager.CursorRoundTrip | js/managers/LessonManager.js:61-153 | a step's own forward move is undone by its backward move, and vice versa |
| LessonManager.NextStepProgress | js/managers/LessonManager.js:61-95 | from a reachable position `nextStep()` succeeds exactly while positions remain ahead, uses up one, and keeps the lesson reachable |
| LessonManager.PreviousStepProgress | js/managers/LessonManager.js:101-153 | from a reachable position `previousStep()` succeeds exactly while positions remain behind, gives back one, and keeps the lesson reachable |
| LessonManager.PreviousStepKeepsSteps | js/managers/LessonManager.js:101-153 | crossing back into the previous step leaves every step as it was when the lesson is reachable |
| LessonManager.NextThenPrevious | js/managers/LessonManager.js:61-153 | a successful `nextStep()` followed by `previousStep()` restores the steps and the position, with two announcements |
| LessonManager.PreviousThenNext | js/managers/LessonManager.js:61-153 | a successful `previousStep()` followed by `nextStep()` restores the steps and the position, with two announcements |
| LessonManager.IsFirstStepIffNoPrevious | js/managers/LessonManager.js:159-177 | away from the show-it quirk, `isFirstStep()` holds exactly when `previousStep()` would not move |
| LessonManager.IsLastStepIffNoNext | js/managers/LessonManager.js:183-203 | away from the show-it quirk, `isLastStep()` holds exactly when `nextStep()` would not move |
| LessonManager.ShowItBoundaryQuirks | js/managers/LessonManager.js:159-203 | a first show-it step reports "first" even when `previousStep()` still moves; a last show-it step makes `isLastStep()` throw |
| LessonManager.Drive | js/managers/LessonManager.js:61-95 | `k` calls of `nextStep()` give `k` results and keep the lesson valid with the same number of steps |
| LessonManager.PositionsZero | js/managers/LessonManager.js:61-95 | only an empty lesson has no positions |
| LessonManager.DriveKeepsKinds | js/managers/LessonManager.js:61-95 | moving on never changes which kind of step stands in each place |
| LessonManager.DriveToEnd | js/managers/LessonManager.js:61-95 | from any reachable position `nextStep()` moves exactly as often as positions remain ahead and the next call is refused |
| LessonManager.DriveEndState | js/managers/LessonManager.js:61-95 | that run ends on the last sub-unit of the last step, with one announcement per call and the completion announced last |
| LessonManager.AtEndOfLesson | js/managers/LessonManager.js:183-203 | no positions remain exactly on the last sub-unit of the last step |
| Lesson1Steps.TextInputJudges | js/models/Interaction.js:47-55 | a text input accepts at a listed position exactly the answer listed there |
| Lesson1Steps.WarmUpShape | js/data/lesson1Data.js:6-34 | a warm-up record with a clock face and a text input builds a valid warm-up holding both, built |
| Lesson1Steps.WarmUpBuilds | js/data/lesson1Data.js:6-34 | the warm-up builds and passes its own check with its clock face and keypad |
| Lesson1Steps.WarmUpFaceShows | js/data/lesson1Data.js:11-17 | the warm-up clock leaves out 2, 5 and 11, anchors 12, 3, 6 and 9 and shows its numbers |
| Lesson1Steps.WarmUpAcceptsItsAnswers | js/data/lesson1Data.js:19-27 | the keypad accepts in boxes 2, 5 and 11 exactly the strings "2", "5" and "11", and nothing in any box whose position is not one of those three |
| Lesson1Steps.LearnItShape | js/models/LearnItStep.js:10-26 | a learn-it record with record chunks, the first with a screen, builds a valid learn-it step on its first chunk that passes its own check |
| Lesson1Steps.LearnItBuilds | js/data/lesson1Data.js:35-128 | the learn-it step builds on chunk 2.1 of its three chunks and passes its own check |
| Lesson1Steps.LearnItInteractionsStayRecords | js/data/lesson1Data.js:41-99 | chunk 2.1's click-tap stays an unbuilt record, and the next chunk shown carries chunk 2.2's list of interactions and its vocabulary |
| Lesson1Steps.TryItShape | js/models/TryItStep.js:10-14 | a try-it record with record screens builds a try-it step on its first normalised screen, valid exactly when there are screens |
| Lesson1Steps.TryItBuilds | js/data/lesson1Data.js:129-193 | the try-it step builds on the first of its four normalised screens and passes its own check |
| Lesson1Steps.NormalisedScreenAt | js/factories/StepFactory.js:54-64 | entry `i` of a normalised screen list holds the built interaction and built config of item `i` |
| Lesson1Steps.ClickTapJudges | js/models/Interaction.js:65-76 | a click-tap record is built into a click-tap that accepts exactly its expected answer |
| Lesson1Steps.DragDropJudges | js/models/Interaction.js:86-97 | a drag-drop record is built into a drag-drop that accepts exactly its `targetDirection` |
| Lesson1Steps.UntaggedStays | js/factories/StepFactory.js:90-127 | a record whose tag no factory knows passes through both factories unchanged |
| Lesson1Steps.Screen31KeepsConfig | js/data/lesson1Data.js:135-148 | screen 3.1's untagged config `{time: "6:00"}` is kept as it is |
| Lesson1Steps.Screen31Built | js/data/lesson1Data.js:135-148 | screen 3.1 gets a click-tap that accepts exactly "hour-hand" |
| Lesson1Steps.Screen33StaysRecord | js/data/lesson1Data.js:163-175 | screen 3.3's "yes-no" interaction is not built and stays the plain record |
| Lesson1Steps.Screen34AcceptsOnlyUndefined | js/data/lesson1Data.js:177-191 | screen 3.4's drag-drop reads no expected direction, so it accepts only undefined and refuses "clockwise" |
| Lesson1Steps.DoItShape | js/models/DoItStep.js:10-20 | a do-it record with a problem list builds a do-it step on its first problem, valid exactly when there are problems |
| Lesson1Steps.DoItBuilds | js/data/lesson1Data.js:194-300 | the do-it step builds on problem 4.1 of its eight problems and passes its own check |
| Lesson1Steps.DoItJudges | js/data/lesson1Data.js:235-245 | problem 4.1 accepts exactly "Short hand"; problem 4.4 accepts exactly the boolean true, not the string "true" |
| Lesson1Steps.ShowItShape | js/models/ShowItStep.js:10-20 | a show-it record with a question list builds a show-it step on its first question with no points and the record's remediation |
| Lesson1Steps.ShowItBuilds | js/data/lesson1Data.js:301-358 | the show-it step builds on question 5.1 of its four questions, passes its own check, has no remediation of its own and needs remediation |
| Lesson1Steps.ShowItPassesOnOneQuestion | js/data/lesson1Data.js:308-318 | answering question 5.1 correctly twice still needs remediation; three times clears it without moving on |
| Lesson1Steps.ExtensionShape | js/models/ExtensionStep.js:10-14 | an extension record with an image gallery and no interaction builds a valid extension holding the gallery and "none" |
| Lesson1Steps.ExtensionBuilds | js/data/lesson1Data.js:359-375 | the extension builds and passes its own check, with its gallery and the interaction "none" |
| Lesson1Steps.GalleryShows | js/data/lesson1Data.js:364-372 | the gallery shows the two pictures of its record |
| Lesson1Walk.Started | js/managers/LessonManager.js:26-44 | starting a lesson leaves the manager reachable with the records it was given |
| Lesson1Walk.LessonBuilds | js/data/lesson1Data.js:5-376 | six records that each build a step of the first lesson's kind and size build together into a lesson of that shape |
| Lesson1Walk.LessonPositions | js/data/lesson1Data.js:5-376 | a lesson of that shape has 21 positions |
| Lesson1Walk.LessonStarts | js/managers/LessonManager.js:26-44 | such a lesson starts on its first step, announced, with 20 moves ahead |
| Lesson1Walk.LessonWalk | js/managers/LessonManager.js:61-95 | pressing "next" from the start moves 20 times and is refused the 21st; the lesson then stands on its last step, having made 22 announcements, the completion last |

## Left out

- Rendering, canvas drawing, audio and the page scripts that drive the
  steps from the browser (js/try-it.js, js/do-it.js) are outside the core.
  The manager's `onStepChange` and `onLessonComplete` callbacks become
  events in a log.
- Object identity and aliasing are not modelled. The factory's in-place
  rewriting of a record is modelled as building a new record. `===` is
  false whenever an operand is an object or an array.
- A truthy list field that is not an array, and a null chunk after the
  first, are reported as `Unmodelled`. The JavaScript coercions they
  trigger (iterating a string, reading from null) are not followed.
- A non-array `stepConfigs` argument and the manager's `options` other
  than the callbacks are not modelled.
- Numbers are integers: NaN, floating point and number-to-string
  formatting beyond non-negative integers are not modelled.
- Property reads on strings and arrays (`length`, indices) read as
  undefined, except where the code reads an array as a list.
- Console logging on failure is not modelled; the failure itself is.
- Goal, character prompt, transition and the other display texts are
  carried but never interpreted.
- LearnItStep.New: a null or undefined chunk after the first is refused as
  `Unmodelled`. The constructor reads only the first chunk and builds the
  step; the TypeError comes later, when `nextChunk()`, `previousChunk()`
  or the manager's reset lands on that chunk. Those late failures are not
  modelled, so every built learn-it step has record chunks throughout.
- Lesson1Walk.LessonWalk: stated for any six records that build the first
  lesson's kinds and sizes. `Lesson1Steps` proves each of the lesson's own
  records builds its step. The conclusion for the literal lesson array as
  one value is not written out, because one proof over the whole literal
  lesson exceeds the verifier's resource bound.
- Lesson1Walk.LessonBuilds: the same limitation. Its premises are the
  per-record facts, not the literal lesson array.
