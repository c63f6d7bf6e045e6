/** The fields every lesson step has, and the checks and defaults of the base
    step constructor. The base class itself reports type "base" and is always
    valid. */
module LessonStep {
  import opened JsValues
  import opened Errors

  datatype StepBase = StepBase(
    id: Value,
    title: Value,
    goal: Value,
    characterPrompt: Value,
    transition: Value,
    vocabulary: Value)

  const BaseTag := "base"

  /** `new LessonStep(config)`: a step needs a truthy `id`, then a truthy
      `title`; prompt and transition default to '' and vocabulary to []. */
  function NewBase(config: Value): (r: Result<StepBase>)
    requires !Nullish(config)
    ensures !Truthy(Get(config, "id")) ==> r == Err(MissingId)
    ensures Truthy(Get(config, "id")) && !Truthy(Get(config, "title")) ==> r == Err(MissingTitle)
    ensures r.Ok? <==> Truthy(Get(config, "id")) && Truthy(Get(config, "title"))
    ensures r.Ok? ==>
              && r.value.id == Get(config, "id")
              && r.value.title == Get(config, "title")
              && r.value.goal == Get(config, "goal")
              && r.value.characterPrompt == (if Truthy(Get(config, "characterPrompt")) then Get(config, "characterPrompt") else Str(""))
              && r.value.transition == (if Truthy(Get(config, "transition")) then Get(config, "transition") else Str(""))
              && r.value.vocabulary == (if Truthy(Get(config, "vocabulary")) then Get(config, "vocabulary") else Arr([]))
  {
    var base := StepBase(
      Get(config, "id"),
      Get(config, "title"),
      Get(config, "goal"),
      Or(Get(config, "characterPrompt"), Str("")),
      Or(Get(config, "transition"), Str("")),
      Or(Get(config, "vocabulary"), Arr([])));
    if !Truthy(base.id) then Err(MissingId)
    else if !Truthy(base.title) then Err(MissingTitle)
    else Ok(base)
  }

  /** The sub-unit list a step reads from `config[key] || []`. The step
      constructors index it as an array; a truthy value that is not an array
      is outside the model. */
  function ListField(config: Value, key: string): (r: Result<seq<Value>>)
    ensures !Truthy(Get(config, key)) ==> r == Ok([])
    ensures Get(config, key).Arr? ==> r == Ok(Get(config, key).items)
    ensures r.Err? <==> Truthy(Get(config, key)) && !Get(config, key).Arr?
  {
    var v := Or(Get(config, key), Arr([]));
    if v.Arr? then Ok(v.items) else Err(Unmodelled(key))
  }
}
