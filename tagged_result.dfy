/** The tagged `Result` the monads, adapters and pipelines build: a value in
    state `Ok` or `Err` holding its payload in `val`. Its `unwrap` returns the
    `Ok` payload and throws the `Err` payload; `unwrapOr` replaces an `Err` by a
    default. */
module TaggedResult {
  import opened Js

  datatype Result<+E, +T> = Ok(value: T) | Err(error: E)

  /** The name in `_state`. */
  function StateName<E, T>(r: Result<E, T>): string {
    if r.Ok? then "Ok" else "Err"
  }

  /** `unwrap()`. */
  function Unwrap<E, T>(r: Result<E, T>): (c: Completion<T, E>)
    ensures c.Normal? <==> r.Ok?
    ensures r.Ok? ==> c.value == r.value
    ensures r.Err? ==> c.thrown == r.error
  {
    match r
    case Ok(v) => Normal(v)
    case Err(e) => Threw(e)
  }

  /** `unwrapOr(otherwise)`. */
  function UnwrapOr<E, T>(r: Result<E, T>, otherwise: T): (v: T)
    ensures r.Ok? ==> v == r.value
    ensures r.Err? ==> v == otherwise
  {
    match r
    case Ok(v) => v
    case Err(_) => otherwise
  }

  /** The payloads of results that are all `Ok`, in order. */
  function Payloads<E, T>(rs: seq<Result<E, T>>): (vs: seq<T>)
    requires forall i :: 0 <= i < |rs| ==> rs[i].Ok?
    ensures |vs| == |rs|
    ensures forall i :: 0 <= i < |rs| ==> vs[i] == rs[i].value
  {
    seq(|rs|, i requires 0 <= i < |rs| => rs[i].value)
  }

  /** `unwrapOr` returns what `unwrap` returns, and the default exactly where
      `unwrap` throws. */
  lemma UnwrapOrAgreesWithUnwrap<E, T>(r: Result<E, T>, otherwise: T)
    ensures UnwrapOr(r, otherwise) == (if Unwrap(r).Normal? then Unwrap(r).value else otherwise)
  {
  }

  /** `unwrap` is undone by wrapping: its completion determines the result. */
  lemma UnwrapInjective<E, T>(a: Result<E, T>, b: Result<E, T>)
    ensures Unwrap(a) == Unwrap(b) ==> a == b
  {
  }
}
