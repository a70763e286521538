/**
 * The values a parsed JSON request body can hold, as JavaScript sees them
 * after `request.json()`, and the JavaScript notions the signup handler
 * applies to them: truthiness and property access.
 */
module JsValues {

  /**
   * `Undefined` is what reading an absent property yields; JSON itself never
   * produces it. `Num` carries the value `JSON.parse` produced (JSON has no
   * NaN, so every number is falsy exactly when it is zero).
   */
  datatype JsValue =
    | Undefined
    | Null
    | Bool(b: bool)
    | Num(n: real)
    | Str(s: string)
    | Arr(items: seq<JsValue>)
    | Obj(props: map<string, JsValue>)

  /** JavaScript's ToBoolean: `undefined`, `null`, `false`, `0` and `""` are the falsy values a JSON body can hold. */
  predicate Truthy(v: JsValue)
    ensures !Truthy(v) <==> v == Undefined || v == Null || v == Bool(false) || v == Num(0.0) || v == Str([])
  {
    match v
    case Undefined => false
    case Null => false
    case Bool(b) => b
    case Num(n) => n != 0.0
    case Str(s) => s != []
    case Arr(_) => true
    case Obj(_) => true
  }

  /** Values a destructuring `const { ... } = v` accepts; it throws on `null` and `undefined`. */
  predicate Destructurable(v: JsValue)
    ensures Truthy(v) ==> Destructurable(v)
    ensures !Destructurable(v) ==> !Truthy(v)
  {
    v != Null && v != Undefined
  }

  /**
   * Reading property `key` of a value that is neither `null` nor `undefined`:
   * an object's own property, or `undefined` when the object lacks it or the
   * value is a primitive or an array (none of the property names read here
   * exists on their prototypes).
   */
  function Property(v: JsValue, key: string): (r: JsValue)
    requires Destructurable(v)
    ensures r != Undefined ==> v.Obj? && key in v.props && r == v.props[key]
    ensures v.Obj? && key in v.props ==> r == v.props[key]
  {
    match v
    case Obj(props) => if key in props then props[key] else Undefined
    case _ => Undefined
  }
}
