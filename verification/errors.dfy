/** The failures the lesson code signals, and a result type carrying them. */
module Errors {
  import opened JsValues

  datatype Error =
    /** A property read from null or undefined. */
    | TypeError
    /** 'Unknown step type: …' from the step factory. */
    | UnknownStepType(stepType: Value)
    /** 'Step must have an ID' */
    | MissingId
    /** 'Step must have a title' */
    | MissingTitle
    /** 'LearnItStep must have at least one chunk' */
    | NoChunks
    /** 'First chunk in LearnItStep must have a screen configuration' */
    | FirstChunkWithoutScreen
    /** '… must have a screen configuration' (warm-up, extension) */
    | MissingScreen
    /** 'WarmUpStep must have an interaction' */
    | MissingInteraction
    /** 'TryItStep must have at least one screen' */
    | NoScreens
    /** 'DoItStep must have at least one problem' */
    | NoProblems
    /** 'ShowItStep must have at least one question' */
    | NoQuestions
    /** 'Lesson not initialized or no steps available' */
    | NotInitialized
    /** A configuration shape whose JavaScript coercions the model does not follow. */
    | Unmodelled(what: string)

  datatype Result<+T> = Ok(value: T) | Err(error: Error) {
    predicate IsFailure() {
      Err?
    }

    function PropagateFailure<U>(): Result<U>
      requires Err?
    {
      Err(error)
    }

    function Extract(): T
      requires Ok?
    {
      value
    }
  }
}
