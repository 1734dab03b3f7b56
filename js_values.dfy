/** The JavaScript values a parsed model reply can hold, with the coercions
    (truthiness, `||`, ToNumber, arithmetic) the script applies to them. */
module JsValues {
  import opened Wrappers

  /** A JavaScript number: a finite value, or NaN, which here stands for
      every non-finite result. */
  datatype Num = Finite(value: real) | NaN

  datatype JsValue =
    | Undefined
    | Null
    | Bool(b: bool)
    | Number(n: Num)
    | Str(s: string)
    | Arr(items: seq<JsValue>)
    | Obj(fields: map<string, JsValue>)

  /** The library functions the model takes as given rather than defines. */
  datatype Runtime = Runtime(
    /** `JSON.parse` of a text that starts with `{`: an object, or a thrown SyntaxError. */
    parse: string -> Option<map<string, JsValue>>,
    /** ToNumber applied to a string (`"7.8" / 10`). */
    stringToNumber: string -> Num,
    /** `encodeURIComponent`. */
    encodeUriComponent: string -> string)

  /** JavaScript truthiness: `undefined`, `null`, `false`, `0`, `NaN` and `''` are falsy. */
  predicate Truthy(v: JsValue) {
    match v
    case Undefined => false
    case Null => false
    case Bool(b) => b
    case Number(n) => n.Finite? && n.value != 0.0
    case Str(s) => s != ""
    case Arr(_) => true
    case Obj(_) => true
  }

  /** `a || b`: the first operand when it is truthy, else the second. */
  function Or(a: JsValue, b: JsValue): (r: JsValue)
    ensures Truthy(a) ==> r == a
    ensures !Truthy(a) ==> r == b
  {
    if Truthy(a) then a else b
  }

  /** Reading property `key` of an object: `undefined` when it is absent. */
  function Get(fields: map<string, JsValue>, key: string): JsValue {
    if key in fields then fields[key] else Undefined
  }

  /** ToNumber. An array or object operand is taken as NaN. */
  function ToNumber(rt: Runtime, v: JsValue): Num {
    match v
    case Undefined => NaN
    case Null => Finite(0.0)
    case Bool(b) => Finite(if b then 1.0 else 0.0)
    case Number(n) => n
    case Str(s) => rt.stringToNumber(s)
    case Arr(_) => NaN
    case Obj(_) => NaN
  }

  function Add(a: Num, b: Num): Num {
    if a.Finite? && b.Finite? then Finite(a.value + b.value) else NaN
  }

  /** Division; a zero divisor gives NaN. */
  function Div(a: Num, b: Num): Num {
    if a.Finite? && b.Finite? && b.value != 0.0 then Finite(a.value / b.value) else NaN
  }

  function Mul(a: Num, b: Num): Num {
    if a.Finite? && b.Finite? then Finite(a.value * b.value) else NaN
  }

  /** `v.length`: strings and arrays have one, an object may carry a `length`
      property, other values read as `undefined`. */
  function LengthOf(rt: Runtime, v: JsValue): Num {
    match v
    case Str(s) => Finite(|s| as real)
    case Arr(items) => Finite(|items| as real)
    case Obj(fields) => ToNumber(rt, Get(fields, "length"))
    case _ => NaN
  }

  /** `v && v.length > 0`, taken as a condition. */
  predicate HasItems(rt: Runtime, v: JsValue) {
    var n := LengthOf(rt, v);
    Truthy(v) && n.Finite? && n.value > 0.0
  }
}
