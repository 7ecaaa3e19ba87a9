/** `union<T>()`: the object whose property `Tag` is the constructor of the
    variant named `Tag`. Reading any property name yields a constructor, so
    the model takes the tag name as a parameter. */
module Union {
  import opened Js
  import opened Text

  /** The property that carries the tag of a tagged value. */
  const StateKey := "_state"
  /** The property that carries a scalar payload. */
  const ValKey := "val"

  /** `{ ...v }` for an object `v`: its own enumerable properties. An array
      spreads to its index keys; `null` and an `Error` (whose `name` and
      `message` are not enumerable) spread to nothing. */
  function Spread(v: Value): (m: map<string, Value>)
    requires TypeOf(v) == "object"
    ensures v.Obj? ==> m == v.props
    ensures v.Arr? ==> forall i :: 0 <= i < |v.items| ==> NatText(i) in m && m[NatText(i)] == v.items[i]
    ensures v.Arr? ==> forall k :: k in m ==> exists i :: 0 <= i < |v.items| && k == NatText(i)
    ensures v.Null? || v.ErrorObject? ==> m == map[]
  {
    match v
    case Obj(props) => props
    case Arr(items) =>
      NatTextInjective();
      map i | 0 <= i < |items| :: NatText(i) := items[i]
    case _ => map[]
  }

  /** The constructor of variant `tag` applied to `payload`. */
  function Construct(tag: string, payload: Value): (r: Value)
    ensures r.Obj? && StateKey in r.props && r.props[StateKey] == Str(tag)
    ensures TypeOf(payload) == "object" ==>
      && r.props.Keys == Spread(payload).Keys + {StateKey}
      && forall k :: k in Spread(payload) && k != StateKey ==> r.props[k] == Spread(payload)[k]
    ensures TypeOf(payload) != "object" ==> r.props.Keys == {ValKey, StateKey} && r.props[ValKey] == payload
  {
    if TypeOf(payload) == "object" then Obj(Spread(payload)[StateKey := Str(tag)])
    else Obj(map[ValKey := payload, StateKey := Str(tag)])
  }

  /** The tag of a tagged value: what the match engines read as `input._state`. */
  function TagOf(v: Value): string {
    if v.Obj? && StateKey in v.props && v.props[StateKey].Str? then v.props[StateKey].s else ""
  }

  /** The payload a tagged value was built from, when it was built from a
      plain object without a `_state` of its own or from a scalar. */
  function PayloadOf(v: Value, wasObject: bool): Value
    requires v.Obj?
  {
    if wasObject then Obj(v.props - {StateKey})
    else if ValKey in v.props then v.props[ValKey] else Undefined
  }

  /** Construction can be undone: the tag is read back from `_state`, a scalar
      payload from `val`, and a plain object payload by dropping `_state`. */
  lemma ConstructRoundTrip(tag: string, payload: Value)
    requires payload.Obj? ==> StateKey !in payload.props
    requires !payload.Arr? && !payload.Null? && !payload.ErrorObject?
    ensures TagOf(Construct(tag, payload)) == tag
    ensures PayloadOf(Construct(tag, payload), payload.Obj?) == payload
  {
    if payload.Obj? {
      var m := Construct(tag, payload).props - {StateKey};
      assert m == payload.props;
    }
  }

  /** A payload that carries its own `_state` loses it: the tag written after
      the spread wins, and every other field survives. */
  lemma TagOverridesPayload(tag: string, props: map<string, Value>)
    requires StateKey in props
    ensures Construct(tag, Obj(props)).props == props[StateKey := Str(tag)]
    ensures TagOf(Construct(tag, Obj(props))) == tag
  {
  }

  /** Two payloads that differ only in their own `_state` give the same
      tagged value. */
  lemma OwnStateIrrelevant(tag: string, props: map<string, Value>, other: Value)
    ensures Construct(tag, Obj(props[StateKey := other])) == Construct(tag, Obj(props))
  {
    var a := Construct(tag, Obj(props[StateKey := other])).props;
    var b := Construct(tag, Obj(props)).props;
    assert a.Keys == b.Keys;
    assert forall k :: k in a ==> a[k] == b[k];
  }

  /** `Television.On({ currentChannel: 12 })` reads back `_state` "On" and
      `currentChannel` 12; `Billboard.On('Coca-cola')` holds its text in
      `val`. */
  lemma ConstructExamples()
    ensures var tv := Construct("On", Obj(map["currentChannel" := Num(12)]));
      tv.props[StateKey] == Str("On") && tv.props["currentChannel"] == Num(12)
    ensures var coca := Construct("On", Str("Coca-cola"));
      coca.props[ValKey] == Str("Coca-cola") && coca.props[StateKey] == Str("On")
  {
  }
}
