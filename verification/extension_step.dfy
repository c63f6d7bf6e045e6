/** The extension step: one screen, and an interaction that is the marker
    "none" when the configuration gives none. */
module ExtensionStep {
  import opened JsValues
  import opened Errors
  import opened LessonStep

  datatype Extension = Extension(base: StepBase, screen: Value, interaction: Value)

  const Tag := "extension"

  /** `new ExtensionStep(config)` */
  function New(config: Value): (r: Result<Extension>)
    requires !Nullish(config)
    ensures r.Ok? <==> NewBase(config).Ok?
    ensures r.Err? ==> r.error == NewBase(config).error
    ensures r.Ok? ==>
              && r.value.base == NewBase(config).value
              && r.value.screen == Get(config, "screen")
              && r.value.interaction
                 == (if Truthy(Get(config, "interaction")) then Get(config, "interaction") else Str("none"))
  {
    var base :- NewBase(config);
    Ok(Extension(base, Get(config, "screen"), Or(Get(config, "interaction"), Str("none"))))
  }

  /** `validate()`: only the screen is required. */
  function Validate(e: Extension): (r: Result<bool>)
    ensures r.Ok? ==> r.value
    ensures r.Ok? <==> Truthy(e.screen)
    ensures r.Err? ==> r.error == MissingScreen
  {
    if !Truthy(e.screen) then Err(MissingScreen) else Ok(true)
  }
}
