/** `Maybe`: a value in state `Some`, holding `val`, or in state `None`, with
    the operations `createMaybe` attaches to it. */
module MaybeMonad {
  import opened Js
  import opened Lookup
  import opened TaggedResult
  import MatchStateExpression

  datatype Maybe<+T> = None | Some(val: T)

  /** The message `unwrap()` throws on `None`. */
  const NoneMessage := "Maybe is None"

  /** The name in `_state`. */
  function StateName<T>(m: Maybe<T>): string {
    if m.Some? then "Some" else "None"
  }

  /** `unwrap()`. */
  function Unwrap<T>(m: Maybe<T>): (c: Completion<T, Value>)
    ensures c.Normal? <==> m.Some?
    ensures m.Some? ==> c.value == m.val
    ensures m.None? ==> c.thrown == Error(NoneMessage)
  {
    if m.Some? then Normal(m.val) else Threw(Error(NoneMessage))
  }

  /** `expect(message)`: like `unwrap`, but the message text itself is thrown. */
  function Expect<T>(m: Maybe<T>, message: string): (c: Completion<T, Value>)
    ensures c.Normal? <==> m.Some?
    ensures m.Some? ==> c.value == m.val
    ensures m.None? ==> c.thrown == Str(message)
  {
    if m.Some? then Normal(m.val) else Threw(Str(message))
  }

  /** `unwrapOr(otherwise)`. */
  function UnwrapOr<T>(m: Maybe<T>, otherwise: T): (v: T)
    ensures m.Some? ==> v == m.val
    ensures m.None? ==> v == otherwise
  {
    if m.Some? then m.val else otherwise
  }

  /** `map(handler)`: the handler runs only on `Some`. */
  function Map<T, O>(m: Maybe<T>, f: T -> O): (r: Maybe<O>)
    ensures r.Some? <==> m.Some?
    ensures m.Some? ==> r.val == f(m.val)
  {
    if m.None? then None else Some(f(m.val))
  }

  /** `flatMap(handler)`: the handler's own Maybe, or `None`. */
  function FlatMap<T, O>(m: Maybe<T>, f: T -> Maybe<O>): (r: Maybe<O>)
    ensures m.None? ==> r == None
    ensures m.Some? ==> r == f(m.val)
  {
    if m.None? then None else f(m.val)
  }

  /** `toResult(err)`: `Some(v)` becomes `Ok(v)`; `None` becomes `Err(err())`. */
  function ToResult<T, E>(m: Maybe<T>, err: () -> E): (r: Result<E, T>)
    ensures r.Ok? <==> m.Some?
    ensures m.Some? ==> r.value == m.val
    ensures m.None? ==> r.error == err()
  {
    if m.None? then Err(err()) else Ok(m.val)
  }

  /** `filter(checker)`, and `filterType(checker)`, which differs only in its
      static type: `Some(v)` survives exactly when `checker(v)` holds. */
  function Filter<T>(m: Maybe<T>, checker: T -> bool): (r: Maybe<T>)
    ensures r.Some? <==> m.Some? && checker(m.val)
    ensures r.Some? ==> r == m
  {
    if m.Some? && checker(m.val) then Some(m.val) else None
  }

  /** `map` with the identity changes nothing, and two maps are one map with
      the composed handler. */
  lemma MapFunctor<T, U, V>(m: Maybe<T>, f: T -> U, g: U -> V)
    ensures Map(m, x => x) == m
    ensures Map(Map(m, f), g) == Map(m, x => g(f(x)))
  {
  }

  /** On `None` the handler of `map` is irrelevant, because it is never called. */
  lemma MapNoneIgnoresHandler<T, O>(f: T -> O, g: T -> O)
    ensures Map(None, f) == Map(None, g) == None
  {
  }

  /** The monad laws of `Some` and `flatMap`, and `map` as `flatMap` into `Some`. */
  lemma FlatMapMonad<T, U, V>(v: T, m: Maybe<T>, f: T -> Maybe<U>, g: U -> Maybe<V>, h: T -> U)
    ensures FlatMap(Some(v), f) == f(v)
    ensures FlatMap(m, x => Some(x)) == m
    ensures FlatMap(FlatMap(m, f), g) == FlatMap(m, x => FlatMap(f(x), g))
    ensures FlatMap(m, x => Some(h(x))) == Map(m, h)
  {
  }

  /** Filtering twice with the same checker is filtering once, and filters
      with two checkers combine into one with both. */
  lemma FilterIdempotent<T>(m: Maybe<T>, c: T -> bool, d: T -> bool)
    ensures Filter(Filter(m, c), c) == Filter(m, c)
    ensures Filter(Filter(m, c), d) == Filter(m, x => c(x) && d(x))
  {
  }

  /** The accessors agree: `unwrapOr` and `expect` return what `unwrap`
      returns, and `toResult` then `unwrap` rethrows `err()` where `unwrap`
      would have thrown. */
  lemma AccessorsAgree<T, E>(m: Maybe<T>, otherwise: T, message: string, err: () -> E)
    ensures UnwrapOr(m, otherwise) == (if Unwrap(m).Normal? then Unwrap(m).value else otherwise)
    ensures Expect(m, message).Normal? ==> Expect(m, message) == Unwrap(m)
    ensures TaggedResult.Unwrap(ToResult(m, err)) ==
      if m.Some? then Normal(m.val) else Threw(err())
  {
  }

  /** `filter` dispatches on the `_state` of the Maybe: the handler under
      "None" gives `None`, the one under "Some" tests its payload. Through the
      discriminant engine it gives exactly `Filter`. */
  lemma FilterViaDispatch<T>(m: Maybe<T>, checker: T -> bool)
    ensures MatchStateExpression.Case(m, StateName,
      [("None", Handler((_: Maybe<T>) => None)),
       ("Some", Handler((x: Maybe<T>) => if x.Some? && checker(x.val) then Some(x.val) else None))])
      == Normal(Filter(m, checker))
  {
    var t := [("None", Handler((_: Maybe<T>) => None)),
              ("Some", Handler((x: Maybe<T>) => if x.Some? && checker(x.val) then Some(x.val) else None))];
    assert IndexOf(t, "None") == 0;
    assert IndexOf(t, "Some") == 1;
  }
}
