/**
 * The values `JSON.parse` can give a field of a response object, and
 * JavaScript's truthiness test on them (what `if (data.success)` decides).
 * A missing field reads as `undefined`. `Number(n)` holds the double that
 * `JSON.parse` produced, which as a finite binary fraction is an exact real;
 * the rounding of the decimal text to that double happens before the model
 * sees the value, so a real that is not a double is not a value it can give.
 */
module Json {
  datatype JsValue =
    | Undefined            // the field is missing from the object
    | Null
    | Bool(b: bool)
    | Number(n: real)
    | Str(s: string)
    | Arr(elements: seq<JsValue>)
    | Obj(fields: seq<(string, JsValue)>)

  /**
   * JavaScript's ToBoolean: undefined, null, false, 0 and "" are falsy;
   * everything else is truthy, including every array and object, even `[]` and `{}`.
   */
  predicate Truthy(v: JsValue): (truthy: bool)
    ensures truthy <==> v !in {Undefined, Null, Bool(false), Number(0.0), Str("")}
  {
    match v
    case Undefined => false
    case Null => false
    case Bool(b) => b
    case Number(n) => n != 0.0
    case Str(s) => s != ""
    case Arr(_) => true
    case Obj(_) => true
  }
}
