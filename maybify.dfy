/** `maybify(fn)` and `asyncMaybify(fn)`: adapters that turn a function which
    may throw or return nothing into one that returns a `Maybe`. */
module Maybify {
  import opened Js
  import opened MaybeMonad
  import Resultify
  import TaggedResult

  /** `res === null || res === undefined || Number.isNaN(res)`. Other falsy
      values (`0`, `''`, `false`) are not nullish. */
  predicate IsNullish(v: Value) { v.Null? || v.Undefined? || v.NaN? }

  /** The wrapped function: a throw or a nullish result becomes `None`, any
      other result `Some`. */
  function Maybify<A(!new), X>(fn: A -> Completion<Value, X>): (g: A -> Maybe<Value>)
    ensures forall a :: g(a).Some? <==> fn(a).Normal? && !IsNullish(fn(a).value)
    ensures forall a :: g(a).Some? ==> g(a).val == fn(a).value
  {
    a => match fn(a)
      case Normal(res) => if IsNullish(res) then None else Some(res)
      case Threw(_) => None
  }

  /** The async wrapped function: the same test on the awaited value; a
      rejection becomes `None`, and the promise always fulfils. */
  function AsyncMaybify<A(!new), X>(fn: A -> Completion<Resultify.Settled<Value, X>, X>): (g: A -> Resultify.Settled<Maybe<Value>, X>)
    ensures forall a :: g(a) == Resultify.Fulfilled(Maybify((b: A) => Resultify.Await(fn(b)))(a))
  {
    a => match Resultify.Await(fn(a))
      case Normal(res) => Resultify.Fulfilled(if IsNullish(res) then None else Some(res))
      case Threw(_) => Resultify.Fulfilled(None)
  }

  /** `maybify` is `resultify` with the error forgotten, then filtered on
      nullishness. */
  lemma MaybifyIsFilteredResultify<A(!new), X>(fn: A -> Completion<Value, X>, a: A)
    ensures Maybify(fn)(a) ==
      Filter(match Resultify.Resultify(fn)(a)
               case Ok(v) => Some(v)
               case Err(_) => None,
             v => !IsNullish(v))
  {
  }

  /** Falsy results survive; only `null`, `undefined` and `NaN` are dropped. */
  lemma FalsyKept<A(!new), X>(a: A)
    ensures Maybify<A, X>((_: A) => Normal(Num(0)))(a) == Some(Num(0))
    ensures Maybify<A, X>((_: A) => Normal(Str("")))(a) == Some(Str(""))
    ensures Maybify<A, X>((_: A) => Normal(Bool(false)))(a) == Some(Bool(false))
    ensures Maybify<A, X>((_: A) => Normal(NaN))(a) == None
    ensures Maybify<A, X>((_: A) => Normal(Null))(a) == None
  {
  }
}
