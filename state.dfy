/** `state<T>()`: the second spelling of the tagged-value constructors, with
    the same construction rule as `union<T>()`. */
module State {
  import opened Js
  import Union

  /** The constructor of state `tag` applied to `payload`. */
  function Construct(tag: string, payload: Value): (r: Value)
    ensures r == Union.Construct(tag, payload)
  {
    if TypeOf(payload) == "object" then Obj(Union.Spread(payload)[Union.StateKey := Str(tag)])
    else Obj(map[Union.ValKey := payload, Union.StateKey := Str(tag)])
  }
}
