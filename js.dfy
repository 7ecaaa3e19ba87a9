/** The part of JavaScript's value model that the library looks at while it runs. */
module Js {

  /** A JavaScript value. Numbers are modelled by integers, with `NaN` kept
      apart because `parseFloat` produces it and `maybify` tests for it. A plain
      object is a map from property name to value (property order is not
      modelled); `ErrorObject` is an `Error` instance, whose `name` and
      `message` are own but not enumerable properties. */
  datatype Value =
    | Undefined
    | Null
    | Bool(b: bool)
    | Num(n: int)
    | NaN
    | Str(s: string)
    | Arr(items: seq<Value>)
    | Obj(props: map<string, Value>)
    | ErrorObject(name: string, message: string)

  /** `typeof v`. */
  function TypeOf(v: Value): (t: string)
    ensures t == "object" <==> v.Null? || v.Arr? || v.Obj? || v.ErrorObject?
  {
    match v
    case Undefined => "undefined"
    case Bool(_) => "boolean"
    case Num(_) => "number"
    case NaN => "number"
    case Str(_) => "string"
    case _ => "object"
  }

  /** `Error(message)`: what the library throws for its own failures. */
  function Error(message: string): (e: Value)
    ensures e.ErrorObject? && e.name == "Error" && e.message == message
  {
    ErrorObject("Error", message)
  }

  /** The TypeError an engine raises when something that is not a function is
      called; its message text differs between engines and is not modelled. */
  const NotAFunction: Value := ErrorObject("TypeError", "not a function")

  /** The TypeError the `in` operator raises when its right operand is not an
      object (`'key' in null`); its message text is not modelled either. */
  const InOnNonObject: Value := ErrorObject("TypeError", "cannot use 'in' operator")

  /** `T | undefined`. */
  datatype OrUndefined<+T> = Undef | Def(value: T)

  /** How a call ended: it returned a value, or it threw one. */
  datatype Completion<+T, +X> = Normal(value: T) | Threw(thrown: X)
}
