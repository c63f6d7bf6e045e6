/** The interaction descriptors: the base interaction and five input kinds,
    each judging a user's input against the answer its configuration expects.

    Every variant forces its own `type` tag, keeps `description` (or '') and
    copies the configuration keys of its kind. Judging an input reads the
    interaction and returns a verdict; it changes nothing.
 */
module Interactions {
  import opened JsValues
  import opened Errors

  const TextInputTag := "text-input"
  const ClickTapTag := "click-tap"
  const DragDropTag := "drag-drop"
  const BinaryChoiceTag := "binary-choice"
  const McqTag := "mcq"

  predicate IsInteraction(v: Value) {
    v.Obj? && v.cls.InteractionOf?
  }

  /** The fields the base constructor sets: `type`, and `description` or ''. */
  function BaseFields(tag: Value, config: Value): map<string, Value> {
    map["type" := tag, "description" := Or(Get(config, "description"), Str(""))]
  }

  /** `new Interaction(config)`, which keeps the record's own `type`. */
  function NewInteraction(config: Value): (r: Value)
    requires !Nullish(config)
    ensures IsInteraction(r) && r.cls.interaction == BaseInteraction
    ensures Get(r, "type") == Get(config, "type")
    ensures Truthy(Get(config, "description")) ==> Get(r, "description") == Get(config, "description")
    ensures !Truthy(Get(config, "description")) ==> Get(r, "description") == Str("")
  {
    Obj(BaseFields(Get(config, "type"), config), InteractionOf(BaseInteraction))
  }

  /** `new TextInputInteraction(config)`: answers keyed by position, `{}` if absent. */
  function TextInput(config: Value): (r: Value)
    requires !Nullish(config)
    ensures IsInteraction(r) && r.cls.interaction == TextInputInteraction
    ensures Get(r, "type") == Str(TextInputTag)
    ensures Get(r, "description") == Get(NewInteraction(config), "description")
    ensures Get(r, "correctAnswers")
         == (if Truthy(Get(config, "correctAnswers")) then Get(config, "correctAnswers") else EmptyObject)
  {
    Obj(BaseFields(Str(TextInputTag), config)
          ["correctAnswers" := Or(Get(config, "correctAnswers"), EmptyObject)],
        InteractionOf(TextInputInteraction))
  }

  /** `new ClickTapInteraction(config)` */
  function ClickTap(config: Value): (r: Value)
    requires !Nullish(config)
    ensures IsInteraction(r) && r.cls.interaction == ClickTapInteraction
    ensures Get(r, "type") == Str(ClickTapTag)
    ensures Get(r, "description") == Get(NewInteraction(config), "description")
    ensures Get(r, "targetElement") == Get(config, "targetElement")
    ensures Get(r, "correctAnswer") == Get(config, "correctAnswer")
  {
    Obj(BaseFields(Str(ClickTapTag), config)
          ["targetElement" := Get(config, "targetElement")]
          ["correctAnswer" := Get(config, "correctAnswer")],
        InteractionOf(ClickTapInteraction))
  }

  /** `new DragDropInteraction(config)`: the expected direction is the
      configuration's `targetDirection` key, and no other. */
  function DragDrop(config: Value): (r: Value)
    requires !Nullish(config)
    ensures IsInteraction(r) && r.cls.interaction == DragDropInteraction
    ensures Get(r, "type") == Str(DragDropTag)
    ensures Get(r, "description") == Get(NewInteraction(config), "description")
    ensures Get(r, "object") == Get(config, "object")
    ensures Get(r, "targetDirection") == Get(config, "targetDirection")
  {
    Obj(BaseFields(Str(DragDropTag), config)
          ["object" := Get(config, "object")]
          ["targetDirection" := Get(config, "targetDirection")],
        InteractionOf(DragDropInteraction))
  }

  /** `new BinaryChoiceInteraction(config)` */
  function BinaryChoice(config: Value): (r: Value)
    requires !Nullish(config)
    ensures IsInteraction(r) && r.cls.interaction == BinaryChoiceInteraction
    ensures Get(r, "type") == Str(BinaryChoiceTag)
    ensures Get(r, "description") == Get(NewInteraction(config), "description")
    ensures Get(r, "options") == Get(config, "options")
    ensures Get(r, "correctAnswer") == Get(config, "correctAnswer")
  {
    Obj(BaseFields(Str(BinaryChoiceTag), config)
          ["options" := Get(config, "options")]
          ["correctAnswer" := Get(config, "correctAnswer")],
        InteractionOf(BinaryChoiceInteraction))
  }

  /** `new MCQInteraction(config)` */
  function Mcq(config: Value): (r: Value)
    requires !Nullish(config)
    ensures IsInteraction(r) && r.cls.interaction == McqInteraction
    ensures Get(r, "type") == Str(McqTag)
    ensures Get(r, "description") == Get(NewInteraction(config), "description")
    ensures Get(r, "options") == Get(config, "options")
    ensures Get(r, "correctAnswer") == Get(config, "correctAnswer")
  {
    Obj(BaseFields(Str(McqTag), config)
          ["options" := Get(config, "options")]
          ["correctAnswer" := Get(config, "correctAnswer")],
        InteractionOf(McqInteraction))
  }

  /** `interaction.validateInput(userInput)`, dispatched on the interaction's
      class. A text input reads `position` and `value` from the input, which
      throws when the input is null or undefined; no other kind reads it. */
  function ValidateInput(interaction: Value, userInput: Value): (r: Result<bool>)
    requires IsInteraction(interaction)
    // only a text input can fail, and only on a null or undefined input
    ensures r.Err? <==> interaction.cls.interaction == TextInputInteraction && Nullish(userInput)
    ensures r.Err? ==> r.error == TypeError
    // the base class accepts nothing
    ensures interaction.cls.interaction == BaseInteraction ==> r == Ok(false)
    // single-answer kinds: exactly the configured answer
    ensures interaction.cls.interaction in {ClickTapInteraction, BinaryChoiceInteraction, McqInteraction}
        ==> (r == Ok(true) <==> StrictEq(userInput, Get(interaction, "correctAnswer")))
    ensures interaction.cls.interaction == DragDropInteraction
        ==> (r == Ok(true) <==> StrictEq(userInput, Get(interaction, "targetDirection")))
    // text input: both position and value given, and the value is the one
    // expected at that position
    ensures interaction.cls.interaction == TextInputInteraction && r.Ok? ==>
              var position := Get(userInput, "position");
              var value := Get(userInput, "value");
              (r.value <==> Truthy(position) && Truthy(value)
                            && StrictEq(value, Get(Get(interaction, "correctAnswers"), ToPropertyKey(position))))
  {
    match interaction.cls.interaction
    case BaseInteraction => Ok(false)
    case TextInputInteraction =>
      if Nullish(userInput) then Err(TypeError)
      else
        var position := Get(userInput, "position");
        var value := Get(userInput, "value");
        if !Truthy(position) || !Truthy(value) then Ok(false)
        else
          var expected := Get(Get(interaction, "correctAnswers"), ToPropertyKey(position));
          Ok(StrictEq(value, expected))
    case ClickTapInteraction => Ok(StrictEq(userInput, Get(interaction, "correctAnswer")))
    case DragDropInteraction => Ok(StrictEq(userInput, Get(interaction, "targetDirection")))
    case BinaryChoiceInteraction => Ok(StrictEq(userInput, Get(interaction, "correctAnswer")))
    case McqInteraction => Ok(StrictEq(userInput, Get(interaction, "correctAnswer")))
  }

  /** A text input rejects every position its answer map does not list, with
      any value. */
  lemma TextInputRejectsUnlistedPosition(config: Value, userInput: Value)
    requires !Nullish(config) && !Nullish(userInput)
    requires var answers := Get(TextInput(config), "correctAnswers");
             !(answers.Obj? && ToPropertyKey(Get(userInput, "position")) in answers.fields)
    ensures ValidateInput(TextInput(config), userInput) == Ok(false)
  {
  }
}
