/** JavaScript values as the lesson code sees them.

    Configuration records, answers and the objects the factory builds are all
    JavaScript values. An object carries the class it was built by, the way a
    JavaScript object carries its prototype: plain configuration objects have
    class `Plain`, screens and interactions built by the factory have the class
    of their constructor. Numbers are integers (the lesson data uses no other).
 */
module JsValues {

  /** The screen classes of the screen model. */
  datatype ScreenClass =
    | BaseScreen
    | ClockFaceScreen
    | ClockWithHandsScreen
    | AnimatedClockScreen
    | ImageGalleryScreen

  /** The interaction classes of the interaction model. */
  datatype InteractionClass =
    | BaseInteraction
    | TextInputInteraction
    | ClickTapInteraction
    | DragDropInteraction
    | BinaryChoiceInteraction
    | McqInteraction

  /** The constructor an object was built by. */
  datatype Class =
    | Plain
    | ScreenOf(screen: ScreenClass)
    | InteractionOf(interaction: InteractionClass)

  datatype Value =
    | Undefined
    | Null
    | Bool(b: bool)
    | Num(n: int)
    | Str(s: string)
    | Arr(items: seq<Value>)
    | Obj(fields: map<string, Value>, cls: Class)

  /** `{}` */
  const EmptyObject: Value := Obj(map[], Plain)

  /** `null` and `undefined`: reading a property of these throws a TypeError. */
  predicate Nullish(v: Value) {
    v.Undefined? || v.Null?
  }

  /** JavaScript truthiness. */
  predicate Truthy(v: Value) {
    match v
    case Undefined => false
    case Null => false
    case Bool(b) => b
    case Num(n) => n != 0
    case Str(s) => s != ""
    case Arr(_) => true
    case Obj(_, _) => true
  }

  /** `a || b` */
  function Or(a: Value, b: Value): Value {
    if Truthy(a) then a else b
  }

  /** Reading property `key`. Only objects have named properties here; reads of
      anything else, and of a missing key, give `undefined`. A read from null or
      undefined throws in JavaScript: callers that can meet one handle it. */
  function Get(v: Value, key: string): Value {
    if v.Obj? && key in v.fields then v.fields[key] else Undefined
  }

  /** Assigning property `key` of an object; the factory assigns only to
      objects, which are the only values whose properties it finds truthy. */
  function Set(v: Value, key: string, x: Value): Value {
    if v.Obj? then Obj(v.fields[key := x], v.cls) else v
  }

  predicate IsPrimitive(v: Value) {
    !v.Arr? && !v.Obj?
  }

  /** `a === b`. Primitives compare by value; objects compare by identity,
      which a value model does not have, so no object equals anything. */
  predicate StrictEq(a: Value, b: Value) {
    IsPrimitive(a) && a == b
  }

  /** Decimal digits of a natural number. */
  function NatToString(n: nat): string
    decreases n
  {
    var d := ["0", "1", "2", "3", "4", "5", "6", "7", "8", "9"][n % 10];
    if n < 10 then d else NatToString(n / 10) + d
  }

  /** The string a value becomes when used as a property key, `obj[v]`. */
  function ToPropertyKey(v: Value): string {
    match v
    case Undefined => "undefined"
    case Null => "null"
    case Bool(b) => if b then "true" else "false"
    case Num(n) => if n < 0 then "-" + NatToString(-n) else NatToString(n)
    case Str(s) => s
    case Arr(items) => JoinItems(items)
    case Obj(_, _) => "[object Object]"
  }

  /** `Array.prototype.join(",")`, where null and undefined become "". */
  function JoinItems(items: seq<Value>): string
    decreases items
  {
    if |items| == 0 then ""
    else
      var first := if Nullish(items[0]) then "" else ToPropertyKey(items[0]);
      if |items| == 1 then first else first + "," + JoinItems(items[1..])
  }
}
