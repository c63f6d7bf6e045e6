/** The warm-up step: one screen, one interaction, one feedback record. */
module WarmUpStep {
  import opened JsValues
  import opened Errors
  import opened LessonStep

  datatype WarmUp = WarmUp(base: StepBase, screen: Value, interaction: Value, feedback: Value)

  const Tag := "warm-up"

  /** `new WarmUpStep(config)`: the base checks, then screen, interaction and
      feedback copied as given. */
  function New(config: Value): (r: Result<WarmUp>)
    requires !Nullish(config)
    ensures r.Ok? <==> NewBase(config).Ok?
    ensures r.Err? ==> r.error == NewBase(config).error
    ensures r.Ok? ==>
              && r.value.base == NewBase(config).value
              && r.value.screen == Get(config, "screen")
              && r.value.interaction == Get(config, "interaction")
              && r.value.feedback == Get(config, "feedback")
  {
    var base :- NewBase(config);
    Ok(WarmUp(base, Get(config, "screen"), Get(config, "interaction"), Get(config, "feedback")))
  }

  /** `validate()`: a screen is checked before the interaction. */
  function Validate(w: WarmUp): (r: Result<bool>)
    ensures r.Ok? ==> r.value
    ensures r.Ok? <==> Truthy(w.screen) && Truthy(w.interaction)
    ensures !Truthy(w.screen) ==> r == Err(MissingScreen)
    ensures Truthy(w.screen) && !Truthy(w.interaction) ==> r == Err(MissingInteraction)
  {
    if !Truthy(w.screen) then Err(MissingScreen)
    else if !Truthy(w.interaction) then Err(MissingInteraction)
    else Ok(true)
  }
}
