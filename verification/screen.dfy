/** The screen descriptors: the base screen and its four display variants.

    Each constructor takes the configuration record `{type, config: {...}}`
    and builds an object of its class. The base class keeps the record's
    `type`; every variant forces its own tag. Display parameters are read from
    the nested `config` record and fall back to defaults when absent.
 */
module Screens {
  import opened JsValues

  const ClockFaceTag := "clock-face"
  const ClockWithHandsTag := "clock-with-hands"
  const AnimatedClockTag := "animated-clock"
  const ImageGalleryTag := "image-gallery"

  /** `getType()` of a screen (or an interaction): its `type` property. */
  function GetType(screen: Value): Value {
    Get(screen, "type")
  }

  predicate IsScreen(v: Value) {
    v.Obj? && v.cls.ScreenOf?
  }

  /** The fields the base constructor sets: `type`, and `config` or `{}`. */
  function BaseFields(tag: Value, config: Value): map<string, Value> {
    map["type" := tag, "config" := Or(Get(config, "config"), EmptyObject)]
  }

  /** `new Screen(config)` */
  function NewScreen(config: Value): (r: Value)
    requires !Nullish(config)
    ensures IsScreen(r) && r.cls.screen == BaseScreen
    ensures GetType(r) == Get(config, "type")
    ensures Truthy(Get(config, "config")) ==> Get(r, "config") == Get(config, "config")
    ensures !Truthy(Get(config, "config")) ==> Get(r, "config") == EmptyObject
  {
    Obj(BaseFields(Get(config, "type"), config), ScreenOf(BaseScreen))
  }

  /** `new ClockFaceScreen(config)` */
  function ClockFace(config: Value): (r: Value)
    requires !Nullish(config)
    ensures IsScreen(r) && r.cls.screen == ClockFaceScreen
    ensures GetType(r) == Str(ClockFaceTag)
    ensures Get(r, "config") == Get(NewScreen(config), "config")
    ensures var p := Get(config, "config");
            && Get(r, "missingNumbers") == (if Truthy(Get(p, "missingNumbers")) then Get(p, "missingNumbers") else Arr([]))
            && Get(r, "anchors") == (if Truthy(Get(p, "anchors")) then Get(p, "anchors") else Arr([]))
            && Get(r, "sequentialHighlight") == (if Truthy(Get(p, "sequentialHighlight")) then Get(p, "sequentialHighlight") else Bool(false))
    // numbers are hidden only by an explicit `showNumbers: false`
    ensures Get(r, "showNumbers").Bool?
    ensures Get(r, "showNumbers") == Bool(false) <==> Get(Get(config, "config"), "showNumbers") == Bool(false)
  {
    var params := Get(config, "config");
    Obj(BaseFields(Str(ClockFaceTag), config)
          ["missingNumbers" := Or(Get(params, "missingNumbers"), Arr([]))]
          ["anchors" := Or(Get(params, "anchors"), Arr([]))]
          ["showNumbers" := Bool(Get(params, "showNumbers") != Bool(false))]
          ["sequentialHighlight" := Or(Get(params, "sequentialHighlight"), Bool(false))],
        ScreenOf(ClockFaceScreen))
  }

  /** `new ClockWithHandsScreen(config)` */
  function ClockWithHands(config: Value): (r: Value)
    requires !Nullish(config)
    ensures IsScreen(r) && r.cls.screen == ClockWithHandsScreen
    ensures GetType(r) == Str(ClockWithHandsTag)
    ensures Get(r, "config") == Get(NewScreen(config), "config")
    ensures var p := Get(config, "config");
            && Get(r, "time") == (if Truthy(Get(p, "time")) then Get(p, "time") else Str("12:00"))
            && Get(r, "hourHand") == (if Truthy(Get(p, "hourHand")) then Get(p, "hourHand") else Hand("black", "short"))
            && Get(r, "minuteHand") == (if Truthy(Get(p, "minuteHand")) then Get(p, "minuteHand") else Hand("black", "long"))
  {
    var params := Get(config, "config");
    Obj(BaseFields(Str(ClockWithHandsTag), config)
          ["time" := Or(Get(params, "time"), Str("12:00"))]
          ["hourHand" := Or(Get(params, "hourHand"), Hand("black", "short"))]
          ["minuteHand" := Or(Get(params, "minuteHand"), Hand("black", "long"))],
        ScreenOf(ClockWithHandsScreen))
  }

  /** `{ color, length }` */
  function Hand(color: string, length: string): Value {
    Obj(map["color" := Str(color), "length" := Str(length)], Plain)
  }

  /** `new AnimatedClockScreen(config)` */
  function AnimatedClock(config: Value): (r: Value)
    requires !Nullish(config)
    ensures IsScreen(r) && r.cls.screen == AnimatedClockScreen
    ensures GetType(r) == Str(AnimatedClockTag)
    ensures Get(r, "config") == Get(NewScreen(config), "config")
    ensures var p := Get(config, "config");
            && Get(r, "animation") == (if Truthy(Get(p, "animation")) then Get(p, "animation") else Str(""))
            && Get(r, "arrows") == (if Truthy(Get(p, "arrows")) then Get(p, "arrows") else Arr([]))
  {
    var params := Get(config, "config");
    Obj(BaseFields(Str(AnimatedClockTag), config)
          ["animation" := Or(Get(params, "animation"), Str(""))]
          ["arrows" := Or(Get(params, "arrows"), Arr([]))],
        ScreenOf(AnimatedClockScreen))
  }

  /** `new ImageGalleryScreen(config)` */
  function ImageGallery(config: Value): (r: Value)
    requires !Nullish(config)
    ensures IsScreen(r) && r.cls.screen == ImageGalleryScreen
    ensures GetType(r) == Str(ImageGalleryTag)
    ensures Get(r, "config") == Get(NewScreen(config), "config")
    ensures var p := Get(config, "config");
            Get(r, "images") == (if Truthy(Get(p, "images")) then Get(p, "images") else Arr([]))
  {
    var params := Get(config, "config");
    Obj(BaseFields(Str(ImageGalleryTag), config)
          ["images" := Or(Get(params, "images"), Arr([]))],
        ScreenOf(ImageGalleryScreen))
  }
}
