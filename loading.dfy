/** `Loading`: a value in state `Pending`, `Failed` (holding its error in
    `val`) or `Done` (holding its result in `val`). */
module LoadingMonad {
  import opened Js
  import opened Lookup
  import opened TaggedResult
  import MaybeMonad
  import MatchStateExpression

  datatype Loading<+E, +T> = Pending | Failed(error: E) | Done(value: T)

  /** The name in `_state`. */
  function StateName<E, T>(l: Loading<E, T>): string {
    match l
    case Pending => "Pending"
    case Failed(_) => "Failed"
    case Done(_) => "Done"
  }

  /** What `val` can hold: an error or a result. */
  datatype Either<+L, +R> = Left(left: L) | Right(right: R)

  /** `val`: `undefined` while pending, else the error or the result. */
  function Val<E, T>(l: Loading<E, T>): (v: OrUndefined<Either<E, T>>)
    ensures v.Undef? <==> l.Pending?
    ensures l.Failed? ==> v == Def(Left(l.error))
    ensures l.Done? ==> v == Def(Right(l.value))
  {
    match l
    case Pending => Undef
    case Failed(e) => Def(Left(e))
    case Done(x) => Def(Right(x))
  }

  /** `map(fn)`: `fn` runs on the result of a `Done` value only. */
  function Map<E, T, U>(l: Loading<E, T>, f: T -> U): (r: Loading<E, U>)
    ensures StateName(r) == StateName(l)
    ensures l.Failed? ==> r == Failed(l.error)
    ensures l.Done? ==> r == Done(f(l.value))
  {
    match l
    case Pending => Pending
    case Failed(e) => Failed(e)
    case Done(x) => Done(f(x))
  }

  /** `toMaybe()`: only a `Done` value carries something. */
  function ToMaybe<E, T>(l: Loading<E, T>): (m: MaybeMonad.Maybe<T>)
    ensures m.Some? <==> l.Done?
    ensures l.Done? ==> m.val == l.value
  {
    match l
    case Pending => MaybeMonad.None
    case Failed(_) => MaybeMonad.None
    case Done(x) => MaybeMonad.Some(x)
  }

  /** `toResult()`: pending counts as success with an `undefined` result. */
  function ToResult<E, T>(l: Loading<E, T>): (r: Result<E, OrUndefined<T>>)
    ensures r.Err? <==> l.Failed?
    ensures l.Failed? ==> r.error == l.error
    ensures l.Done? ==> r == Ok(Def(l.value))
    ensures l.Pending? ==> r == Ok(Undef)
  {
    match l
    case Pending => Ok(Undef)
    case Failed(e) => Err(e)
    case Done(x) => Ok(Def(x))
  }

  /** `map` with the identity changes nothing, and two maps are one map with
      the composed function. */
  lemma MapFunctor<E, T, U, V>(l: Loading<E, T>, f: T -> U, g: U -> V)
    ensures Map(l, x => x) == l
    ensures Map(Map(l, f), g) == Map(l, x => g(f(x)))
  {
  }

  /** Converting commutes with mapping: mapping then converting to a Maybe is
      converting then mapping the Maybe, and likewise for the Result. */
  lemma ConversionsCommuteWithMap<E, T, U>(l: Loading<E, T>, f: T -> U)
    ensures ToMaybe(Map(l, f)) == MaybeMonad.Map(ToMaybe(l), f)
    ensures ToResult(Map(l, f)) ==
      match ToResult(l)
      case Ok(Def(x)) => Ok(Def(f(x)))
      case Ok(Undef) => Ok(Undef)
      case Err(e) => Err(e)
  {
  }

  /** The two conversions agree on `Done` and differ exactly on `Pending`,
      which `toResult` counts as a success without result and `toMaybe` as
      nothing. */
  lemma ConversionsAgree<E, T>(l: Loading<E, T>)
    ensures ToMaybe(l).Some? <==> ToResult(l).Ok? && ToResult(l).value.Def?
    ensures ToMaybe(l).Some? ==> ToResult(l).value.value == ToMaybe(l).val
    ensures l.Pending? <==> ToMaybe(l).None? && ToResult(l).Ok?
  {
  }

  /** `map` dispatches on the `_state` of the value with one handler per
      state; through the discriminant engine it gives exactly `Map`. */
  lemma MapViaDispatch<E, T, U>(l: Loading<E, T>, f: T -> U)
    ensures MatchStateExpression.Case(l, StateName,
      [("Pending", Handler((_: Loading<E, T>) => Pending)),
       ("Failed", Handler((x: Loading<E, T>) => if x.Failed? then Failed(x.error) else Pending)),
       ("Done", Handler((x: Loading<E, T>) => if x.Done? then Done(f(x.value)) else Pending))])
      == Normal(Map(l, f))
  {
    var t: Table<Entry<Loading<E, T>, Loading<E, U>>> :=
      [("Pending", Handler((_: Loading<E, T>) => Pending)),
       ("Failed", Handler((x: Loading<E, T>) => if x.Failed? then Failed(x.error) else Pending)),
       ("Done", Handler((x: Loading<E, T>) => if x.Done? then Done(f(x.value)) else Pending))];
    assert IndexOf(t, "Pending") == 0;
    assert IndexOf(t, "Failed") == 1;
    assert IndexOf(t, "Done") == 2;
  }
}
