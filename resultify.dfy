/** `resultify(fn)` and `asyncResultify(fn)`: adapters that turn a function
    which may throw into one that returns a `Result` and never throws. */
module Resultify {
  import opened Js
  import opened TaggedResult

  /** How a promise settled. */
  datatype Settled<+T, +X> = Fulfilled(value: T) | Rejected(reason: X)

  /** `await p` inside an `async` function: a fulfilled promise gives its
      value; a rejected one throws its reason, as does a call that throws
      before producing a promise. */
  function Await<T, X>(c: Completion<Settled<T, X>, X>): (r: Completion<T, X>)
    ensures r.Normal? <==> c.Normal? && c.value.Fulfilled?
  {
    match c
    case Normal(Fulfilled(v)) => Normal(v)
    case Normal(Rejected(x)) => Threw(x)
    case Threw(x) => Threw(x)
  }

  /** The wrapped function: the arguments are passed on unchanged; a return
      becomes `Ok`, a throw becomes `Err` of the thrown value itself. */
  function Resultify<A(!new), T, X>(fn: A -> Completion<T, X>): (g: A -> Result<X, T>)
    ensures forall a :: Unwrap(g(a)) == fn(a)
  {
    a => match fn(a)
      case Normal(v) => Ok(v)
      case Threw(x) => Err(x)
  }

  /** The async wrapped function: its promise always fulfils, with `Ok` of
      what the call's promise gave or `Err` of why it (or the call) failed. */
  function AsyncResultify<A(!new), T, X>(fn: A -> Completion<Settled<T, X>, X>): (g: A -> Settled<Result<X, T>, X>)
    ensures forall a :: g(a).Fulfilled? && Unwrap(g(a).value) == Await(fn(a))
  {
    a => match Await(fn(a))
      case Normal(v) => Fulfilled(Ok(v))
      case Threw(x) => Fulfilled(Err(x))
  }

  /** `resultify` is undone by `unwrap`, and nothing is lost: two functions
      with the same wrapped form are the same function. */
  lemma ResultifyInjective<A(!new), T, X>(f: A -> Completion<T, X>, h: A -> Completion<T, X>)
    ensures (forall a :: Resultify(f)(a) == Resultify(h)(a)) ==> forall a :: f(a) == h(a)
  {
    if forall a :: Resultify(f)(a) == Resultify(h)(a) {
      forall a ensures f(a) == h(a) {
        assert Unwrap(Resultify(f)(a)) == Unwrap(Resultify(h)(a));
      }
    }
  }

  /** The async adapter is the plain adapter applied after awaiting. */
  lemma AsyncIsAwaitedResultify<A(!new), T, X>(fn: A -> Completion<Settled<T, X>, X>, a: A)
    ensures AsyncResultify(fn)(a) == Fulfilled(Resultify((b: A) => Await(fn(b)))(a))
  {
  }
}
