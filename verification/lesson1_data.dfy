/** The records of the first lesson, "Meet the Clock", as the factory receives
    them (js/data/lesson1Data.js). Records the model reasons about have names
    of their own; the rest are written in place. */
module Lesson1Data {
  import opened JsValues

  /** An object literal. */
  function Rec(fields: map<string, Value>): Value {
    Obj(fields, Plain)
  }

  /** `{ correct, incorrect }` */
  function Feedback(correct: string, incorrect: string): Value {
    Rec(map["correct" := Str(correct), "incorrect" := Str(incorrect)])
  }

  /** An arrow option `{ id, display }`. */
  function Arrow(id: string, display: string): Value {
    Rec(map["id" := Str(id), "display" := Str(display)])
  }

  const Clockwise: string := "\U{21BB}"
  const CounterClockwise: string := "\U{21BA}"

  // ---------------------------------------------------------------------
  // Step 1: warm-up

  const WarmUpScreen: Value := Rec(map[
    "type" := Str("clock-face"),
    "config" := Rec(map[
      "missingNumbers" := Arr([Num(2), Num(5), Num(11)]),
      "anchors" := Arr([Num(12), Num(3), Num(6), Num(9)])])])

  const WarmUpAnswers: Value := Rec(map["2" := Str("2"), "5" := Str("5"), "11" := Str("11")])

  const WarmUpInteraction: Value := Rec(map[
    "type" := Str("text-input"),
    "description" := Str("Student clicks an empty box; a simple number keypad appears. Student types the correct number for that position."),
    "correctAnswers" := WarmUpAnswers])

  const WarmUpConfig: Value := Rec(map[
    "id" := Num(1),
    "stepType" := Str("warm-up"),
    "title" := Str("Clock Number Check"),
    "goal" := Str("Quickly activate number recognition 1-12 and their key positions on a clock face."),
    "screen" := WarmUpScreen,
    "characterPrompt" := Str("Welcome, time explorers! Let's quickly check this clock. A few numbers are missing! Can you type the correct number in each empty box?"),
    "interaction" := WarmUpInteraction,
    "feedback" := Rec(map[
      "correct" := Str("Correct entry fills the box permanently with a brief green check."),
      "incorrect" := Str("Incorrect entry flashes red, clears input, prompts \"Try again!\""),
      "completion" := Str("Completion triggers a quick \"Perfect!\" animation/sound.")]),
    "transition" := Str("Great! All numbers accounted for. Now let's learn about the parts of the clock!")])

  // ---------------------------------------------------------------------
  // Step 2: learn-it

  const Chunk21: Value := Rec(map[
    "id" := Str("2.1"),
    "title" := Str("The Face & Numbers"),
    "goal" := Str("Introduce the clock face and the sequence of numbers 1-12."),
    "screen" := Rec(map["type" := Str("clock-face"), "config" := Rec(map["highlightNumbers" := Bool(true)])]),
    "characterPrompt" := Str("This is a **clock face**! It helps us tell time. Look at the numbers. They go in order all the way around, starting from 1, then 2, 3... up to 12 at the very top."),
    "vocabulary" := Arr([Str("Clock Face")]),
    "interaction" := Rec(map[
      "type" := Str("click-tap"),
      "description" := Str("Quick check! The numbers go in order. Click the number that comes **right after** the number 8."),
      "correctAnswer" := Str("9")]),
    "feedback" := Feedback("Correct!", "Think about counting! What number comes after 8? Find it on the clock face and click it.")])

  /** Chunk 2.2 asks two questions: its interaction is a list. */
  const Chunk22Interactions: Value := Arr([
    Rec(map[
      "type" := Str("click-tap"),
      "description" := Str("Click on the **Hour Hand** (the short one)."),
      "correctAnswer" := Str("hour-hand"),
      "feedback" := Feedback("You got it! That's the short hour hand.", "Oops! Remember, the hour hand is the *short* one. Click the short hand.")]),
    Rec(map[
      "type" := Str("click-tap"),
      "description" := Str("Now, click on the **Minute Hand** (the long one)."),
      "correctAnswer" := Str("minute-hand"),
      "feedback" := Feedback("Perfect! That's the long minute hand.", "Careful! The minute hand is the *long* one. Click the long hand.")])])

  const Chunk22: Value := Rec(map[
    "id" := Str("2.2"),
    "title" := Str("The Hands"),
    "goal" := Str("Introduce and differentiate hour and minute hands."),
    "screen" := Rec(map[
      "type" := Str("clock-face"),
      "config" := Rec(map["time" := Str("3:00"), "hourHandColor" := Str("blue"), "minuteHandColor" := Str("red")])]),
    "characterPrompt" := Str("See these pointers? They are called hands! This short, blue hand is the **Hour Hand**. It tells us the hour."),
    "followUpPrompt" := Str("This long, red hand is the **Minute Hand**. It tells us the minutes."),
    "hint" := Str("Easy way to remember: Hour hand is short, Minute hand is long!"),
    "vocabulary" := Arr([Str("Hour Hand"), Str("Minute Hand")]),
    "interaction" := Chunk22Interactions])

  const Chunk23: Value := Rec(map[
    "id" := Str("2.3"),
    "title" := Str("Clockwise Direction"),
    "goal" := Str("Introduce clockwise movement."),
    "screen" := Rec(map["type" := Str("clock-face"), "config" := Rec(map["animated" := Bool(true), "clockwise" := Bool(true)])]),
    "characterPrompt" := Str("Watch how the hands move! They always go around in the same direction, past 1, 2, 3... This special direction is called **Clockwise**."),
    "vocabulary" := Arr([Str("Clockwise")]),
    "interaction" := Rec(map[
      "type" := Str("click-tap"),
      "description" := Str("Which arrow shows the clockwise direction?"),
      "options" := Arr([Arrow("clockwise", Clockwise), Arrow("counter-clockwise", CounterClockwise)]),
      "correctAnswer" := Str("clockwise")]),
    "feedback" := Feedback("Correct!", "Clockwise follows the numbers 1, 2, 3... Try again!")])

  const Chunks: seq<Value> := [Chunk21, Chunk22, Chunk23]

  const LearnItConfig: Value := Rec(map[
    "id" := Num(2),
    "stepType" := Str("learn-it"),
    "title" := Str("Clock Parts Explorer"),
    "goal" := Str("Introduce clock parts including face, numbers, hands, and clockwise movement."),
    "chunks" := Arr(Chunks)])

  // ---------------------------------------------------------------------
  // Step 3: try-it

  const HourHandTap: Value := Rec(map["type" := Str("click-tap"), "correctAnswer" := Str("hour-hand")])

  const SixOClock: Value := Rec(map["time" := Str("6:00")])

  const Screen31: Value := Rec(map[
    "id" := Str("3.1"),
    "title" := Str("Hour Hand Identification"),
    "config" := SixOClock,
    "prompt" := Str("Find the **Hour Hand**. Remember, it's the short one. Click it!"),
    "interaction" := HourHandTap,
    "feedback" := Feedback("You got it! That's the short hour hand.", "Hmm, that's the long hand. The hour hand is the *shorter* one. Click the short hand.")])

  const Screen32: Value := Rec(map[
    "id" := Str("3.2"),
    "title" := Str("Minute Hand Identification"),
    "config" := Rec(map["time" := Str("9:00")]),
    "prompt" := Str("Now, find the **Minute Hand**. It's the long one. Click it!"),
    "interaction" := Rec(map["type" := Str("click-tap"), "correctAnswer" := Str("minute-hand")]),
    "feedback" := Feedback("Great job! That's the long minute hand.", "That's not right. The minute hand is the *longer* one. Click the long hand.")])

  /** A "yes-no" interaction: no interaction class has this tag. */
  const YesNoInteraction: Value := Rec(map["type" := Str("yes-no"), "correctAnswer" := Str("yes")])

  const Screen33: Value := Rec(map[
    "id" := Str("3.3"),
    "title" := Str("Clockwise Direction Verification"),
    "config" := Rec(map["animated" := Bool(true), "clockwise" := Bool(true)]),
    "prompt" := Str("Are they moving **Clockwise**? Click Yes or No."),
    "interaction" := YesNoInteraction,
    "feedback" := Feedback("Correct! They are moving clockwise.", "Look closely! They are following the numbers 1, 2, 3... That *is* clockwise.")])

  /** A drag-drop that names its answer `correctDirection`, where the
      drag-drop class reads `targetDirection`. */
  const ArrowDragDrop: Value := Rec(map[
    "type" := Str("drag-drop"),
    "element" := Str("arrow"),
    "correctDirection" := Str("clockwise")])

  const Screen34: Value := Rec(map[
    "id" := Str("3.4"),
    "title" := Str("Clockwise Direction Practice"),
    "config" := Rec(map["static" := Bool(true)]),
    "prompt" := Str("Which way is clockwise? Drag the arrow around the clock in the clockwise direction."),
    "interaction" := ArrowDragDrop,
    "feedback" := Feedback("Perfect! That's clockwise!", "Not quite. Remember, clockwise follows the numbers around...")])

  const TryItScreens: seq<Value> := [Screen31, Screen32, Screen33, Screen34]

  const TryItConfig: Value := Rec(map[
    "id" := Num(3),
    "stepType" := Str("try-it"),
    "title" := Str("Guided Hand Spotting"),
    "goal" := Str("Guided practice identifying hands and direction."),
    "screens" := Arr(TryItScreens)])

  // ---------------------------------------------------------------------
  // Step 4: do-it

  const Problem41: Value := Rec(map[
    "id" := Str("4.1"),
    "type" := Str("multiple-choice"),
    "config" := Rec(map["time" := Str("2:30")]),
    "prompt" := Str("Which is the Hour Hand?"),
    "options" := Arr([Str("Short hand"), Str("Long hand")]),
    "correctAnswer" := Str("Short hand"),
    "feedback" := Feedback("That's right! The hour hand is the shorter hand.", "Not quite. Remember, the hour hand is the shorter of the two hands.")])

  const Problem42: Value := Rec(map[
    "id" := Str("4.2"),
    "type" := Str("click-tap"),
    "config" := Rec(map["time" := Str("8:15")]),
    "prompt" := Str("Click the Minute Hand."),
    "correctAnswer" := Str("minute-hand"),
    "feedback" := Feedback("Excellent! You correctly identified the minute hand.", "That's not the minute hand. The minute hand is the longer hand.")])

  const Problem43: Value := Rec(map[
    "id" := Str("4.3"),
    "type" := Str("click-tap"),
    "config" := Rec(map["time" := Str("10:50")]),
    "prompt" := Str("Click the Hour Hand."),
    "correctAnswer" := Str("hour-hand"),
    "feedback" := Feedback("Well done! You found the hour hand.", "Look carefully. The hour hand is the shorter hand.")])

  /** The one answer of the lesson that is a boolean rather than a string. */
  const Problem44: Value := Rec(map[
    "id" := Str("4.4"),
    "type" := Str("true-false"),
    "config" := Rec(map["time" := Str("4:45")]),
    "prompt" := Str("The red hand [or longer hand] is the Minute Hand."),
    "correctAnswer" := Bool(true),
    "feedback" := Feedback("Yes! The longer, red hand is indeed the minute hand.", "That's not correct. The longer hand (often shown in red) is the minute hand.")])

  const Problem45: Value := Rec(map[
    "id" := Str("4.5"),
    "type" := Str("click-tap"),
    "config" := Rec(map["time" := Str("1:20")]),
    "prompt" := Str("Click the Hour Hand."),
    "correctAnswer" := Str("hour-hand"),
    "feedback" := Feedback("Perfect! You identified the hour hand correctly.", "That's the minute hand. The hour hand is shorter.")])

  const Problem46: Value := Rec(map[
    "id" := Str("4.6"),
    "type" := Str("click-tap"),
    "config" := Rec(map["time" := Str("7:05")]),
    "prompt" := Str("Click the Minute Hand."),
    "correctAnswer" := Str("minute-hand"),
    "feedback" := Feedback("Great job! You found the minute hand.", "That's not the minute hand. The minute hand is longer.")])

  const Problem47: Value := Rec(map[
    "id" := Str("4.7"),
    "type" := Str("yes-no"),
    "config" := Rec(map["animated" := Bool(true), "clockwise" := Bool(true)]),
    "prompt" := Str("Are these hands moving Clockwise?"),
    "correctAnswer" := Str("yes"),
    "feedback" := Feedback("Yes, that's right! The hands are moving clockwise.", "Actually, they are moving clockwise - following the order of numbers 1, 2, 3...")])

  const Problem48: Value := Rec(map[
    "id" := Str("4.8"),
    "type" := Str("click-tap"),
    "config" := Rec(map["arrows" := Arr([Arrow("clockwise", Clockwise), Arrow("counter-clockwise", CounterClockwise)])]),
    "prompt" := Str("Click the arrow that shows Clockwise."),
    "correctAnswer" := Str("clockwise"),
    "feedback" := Feedback("Correct! This arrow (" + Clockwise + ") shows the clockwise direction.", "That's not the clockwise direction. Clockwise follows the sequence of numbers on the clock.")])

  const Problems: seq<Value> := [Problem41, Problem42, Problem43, Problem44, Problem45, Problem46, Problem47, Problem48]

  const DoItConfig: Value := Rec(map[
    "id" := Num(4),
    "stepType" := Str("do-it"),
    "title" := Str("Clock Detective Practice"),
    "goal" := Str("Independent practice identifying hands and direction with variety."),
    "instructions" := Str("Let's see if you can identify the parts of a clock and understand clockwise movement. Answer each question carefully."),
    "problems" := Arr(Problems),
    "completion" := Rec(map["message" := Str("Great work! You're becoming a clock detective!"), "reward" := Str("star")])])

  // ---------------------------------------------------------------------
  // Step 5: show-it

  /** The show-it questions all give the same feedback. */
  function Question(id: string, prompt: string, time: Value, correctAnswer: string): Value {
    Rec(map[
      "id" := Str(id),
      "type" := Str("click-tap"),
      "config" := time,
      "prompt" := Str(prompt),
      "correctAnswer" := Str(correctAnswer),
      "feedback" := Feedback("Correct", "Incorrect")])
  }

  const Question51: Value := Question("5.1", "Click the Hour Hand.", Rec(map["time" := Str("5:00")]), "hour-hand")

  const Question52: Value := Question("5.2", "Click the Minute Hand.", Rec(map["time" := Str("8:00")]), "minute-hand")

  const Question53: Value := Rec(map[
    "id" := Str("5.3"),
    "type" := Str("multiple-choice"),
    "config" := Rec(map["time" := Str("12:00")]),
    "prompt" := Str("Which hand is LONGER?"),
    "options" := Arr([Str("Hour Hand"), Str("Minute Hand")]),
    "correctAnswer" := Str("Minute Hand"),
    "feedback" := Feedback("Correct", "Incorrect")])

  const Question54: Value := Rec(map[
    "id" := Str("5.4"),
    "type" := Str("yes-no"),
    "config" := Rec(map["animated" := Bool(true), "clockwise" := Bool(true)]),
    "prompt" := Str("Is this Clockwise?"),
    "correctAnswer" := Str("yes"),
    "feedback" := Feedback("Correct", "Incorrect")])

  const Questions: seq<Value> := [Question51, Question52, Question53, Question54]

  /** The remediation advice sits inside `feedback`, not at the top level
      where the show-it step reads it. */
  const ShowItConfig: Value := Rec(map[
    "id" := Num(5),
    "stepType" := Str("show-it"),
    "title" := Str("Clock Expert Check"),
    "goal" := Str("Assess mastery of objectives without hints."),
    "introduction" := Str("Now it's time to show what you've learned about clocks!"),
    "questions" := Arr(Questions),
    "feedback" := Rec(map[
      "completion" := Str("Overall score/status at end."),
      "remediation" := Str("If < 3 correct, offer targeted review (Learn It chunks or Try It) based on errors. If >= 3 correct, proceed.")])])

  // ---------------------------------------------------------------------
  // Step 6: extension

  const Images: Value := Arr([
    Rec(map["src" := Str("wall-clock.jpg"), "alt" := Str("Wall Clock")]),
    Rec(map["src" := Str("wrist-watch.jpg"), "alt" := Str("Wrist Watch")])])

  const GalleryScreen: Value := Rec(map["type" := Str("image-gallery"), "config" := Rec(map["images" := Images])])

  /** The extension has a screen and no interaction. */
  const ExtensionConfig: Value := Rec(map[
    "id" := Num(6),
    "stepType" := Str("extension"),
    "title" := Str("Clocks Around Us"),
    "goal" := Str("Connect learning to the real world."),
    "screen" := GalleryScreen,
    "characterPrompt" := Str("Wow, you're becoming a clock expert! Clocks are everywhere. Can you spot the hour and minute hands on these? Maybe you can find a clock in your home or classroom later!"),
    "transition" := Str("Next time, we'll start learning what these hands actually tell us about the time!")])

  // ---------------------------------------------------------------------

  /** The lesson, in order. */
  const Lesson1: seq<Value> := [WarmUpConfig, LearnItConfig, TryItConfig, DoItConfig, ShowItConfig, ExtensionConfig]
}
