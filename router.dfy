/** `match(input)` of the second generation of engines: it looks at the
    input's run-time shape and picks numeric, state or value matching. */
module Router {
  import opened Js
  import Union

  /** Which engine `match` builds. */
  datatype Mode = NumberMode | StateMode | ValueMode

  /** `isObject(v)`: `typeof v === 'object'` and not an array. */
  predicate IsObject(v: Value) { TypeOf(v) == "object" && !v.Arr? }

  /** `isState(v)`: an object, then `'_state' in v`. The `in` operator throws
      a TypeError on `null`, which `typeof` reports as an object. */
  function IsState(v: Value): (r: Completion<bool, Value>)
    ensures r.Threw? <==> v.Null?
    ensures r.Threw? ==> r.thrown == InOnNonObject
    ensures r == Normal(true) <==> v.Obj? && Union.StateKey in v.props
  {
    if !IsObject(v) then Normal(false)
    else if v.Null? then Threw(InOnNonObject)
    else Normal(v.Obj? && Union.StateKey in v.props)
  }

  /** The engine chosen for `input`: every number (`NaN` included) goes to
      numeric matching first, then tagged objects to state matching, and
      everything else to value matching. */
  function Route(v: Value): (r: Completion<Mode, Value>)
    ensures r.Threw? <==> v.Null?
    ensures r.Threw? ==> r.thrown == InOnNonObject
    ensures r == Normal(NumberMode) <==> TypeOf(v) == "number"
    ensures r == Normal(StateMode) <==> v.Obj? && Union.StateKey in v.props
    ensures r == Normal(ValueMode) <==> !v.Null? && TypeOf(v) != "number" && !(v.Obj? && Union.StateKey in v.props)
  {
    if TypeOf(v) == "number" then Normal(NumberMode)
    else match IsState(v)
      case Threw(e) => Threw(e)
      case Normal(true) => Normal(StateMode)
      case Normal(false) => Normal(ValueMode)
  }

  /** Every value built by a tagged-value constructor is routed to state
      matching, whatever its payload. */
  lemma ConstructedIsState(tag: string, payload: Value)
    ensures Route(Union.Construct(tag, payload)) == Normal(StateMode)
  {
  }

  /** An array is never treated as a tagged value: it goes to value matching.
      Strings go there too. */
  lemma ArraysAndStringsAreValues(items: seq<Value>, s: string)
    ensures Route(Arr(items)) == Normal(ValueMode)
    ensures Route(Str(s)) == Normal(ValueMode)
  {
  }
}
