/** The class form of `Result`: a success flag and two payload slots, of which
    the constructors fill one and leave the other `undefined`. */
module ResultClass {
  import opened Js

  const InvalidWrappedValue := "Invalid wrapped value"

  datatype ResultObject = ResultObject(isSuccess: bool, failure: Value, success: Value)

  /** `failure(val)`. */
  function Failure(v: Value): (r: ResultObject)
    ensures !r.isSuccess && r.failure == v && r.success == Undefined
  {
    ResultObject(false, v, Undefined)
  }

  /** `success(val)`. */
  function Success(v: Value): (r: ResultObject)
    ensures r.isSuccess && r.success == v && r.failure == Undefined
  {
    ResultObject(true, Undefined, v)
  }

  /** `match({ failure, success })`: the handler of the held side runs on its
      payload, provided that payload is not `undefined`; otherwise "Invalid
      wrapped value" is thrown. A handler may itself throw. */
  function Match<T>(r: ResultObject, onFailure: Value -> Completion<T, Value>, onSuccess: Value -> Completion<T, Value>): (c: Completion<T, Value>)
    ensures !r.isSuccess && r.failure != Undefined ==> c == onFailure(r.failure)
    ensures r.isSuccess && r.success != Undefined ==> c == onSuccess(r.success)
    ensures (if r.isSuccess then r.success else r.failure) == Undefined ==> c == Threw(Error(InvalidWrappedValue))
  {
    if !r.isSuccess && r.failure != Undefined then onFailure(r.failure)
    else if r.isSuccess && r.success != Undefined then onSuccess(r.success)
    else Threw(Error(InvalidWrappedValue))
  }

  /** The payload the object holds on its side. */
  function Held(r: ResultObject): Value {
    if r.isSuccess then r.success else r.failure
  }

  /** `unwrap()`: the success payload, or the failure payload thrown as is. */
  function Unwrap(r: ResultObject): (c: Completion<Value, Value>)
    ensures Held(r) == Undefined ==> c == Threw(Error(InvalidWrappedValue))
    ensures Held(r) != Undefined ==> (c.Normal? <==> r.isSuccess)
    ensures Held(r) != Undefined ==> c == (if r.isSuccess then Normal(r.success) else Threw(r.failure))
  {
    Match(r, e => Threw(e), v => Normal(v))
  }

  /** `safeUnwrap()`: whichever payload is held. */
  function SafeUnwrap(r: ResultObject): (c: Completion<Value, Value>)
    ensures Held(r) != Undefined ==> c == Normal(Held(r))
    ensures Held(r) == Undefined ==> c == Threw(Error(InvalidWrappedValue))
  {
    Match(r, e => Normal(e), v => Normal(v))
  }

  /** `unwrapOr(otherwise)`: the success payload, or `otherwise` on failure. */
  function UnwrapOr(r: ResultObject, otherwise: Value): (c: Completion<Value, Value>)
    ensures Held(r) != Undefined ==> c == Normal(if r.isSuccess then r.success else otherwise)
    ensures Held(r) == Undefined ==> c == Threw(Error(InvalidWrappedValue))
  {
    Match(r, _ => Normal(otherwise), v => Normal(v))
  }

  /** The constructors are undone by the accessors: a defined payload comes
      back out of `unwrap`, `safeUnwrap` and `unwrapOr`, a failure is thrown by
      `unwrap` and replaced by the default in `unwrapOr`. */
  lemma ConstructorsRoundTrip(v: Value, otherwise: Value)
    requires v != Undefined
    ensures Unwrap(Success(v)) == Normal(v) && Unwrap(Failure(v)) == Threw(v)
    ensures SafeUnwrap(Success(v)) == Normal(v) && SafeUnwrap(Failure(v)) == Normal(v)
    ensures UnwrapOr(Success(v), otherwise) == Normal(v) && UnwrapOr(Failure(v), otherwise) == Normal(otherwise)
  {
  }

  /** An `undefined` payload poisons every accessor: even `unwrapOr` throws
      instead of giving back its default. */
  lemma UndefinedPayloadThrows(otherwise: Value)
    ensures Unwrap(Success(Undefined)) == Threw(Error(InvalidWrappedValue))
    ensures UnwrapOr(Success(Undefined), otherwise) == Threw(Error(InvalidWrappedValue))
    ensures SafeUnwrap(Failure(Undefined)) == Threw(Error(InvalidWrappedValue))
  {
  }

  /** The three accessors agree: where `unwrap` returns, all three return the
      same value; where it throws the failure payload, `safeUnwrap` returns
      that payload and `unwrapOr` the default. */
  lemma AccessorsAgree(r: ResultObject, otherwise: Value)
    ensures Unwrap(r).Normal? ==> SafeUnwrap(r) == Unwrap(r) && UnwrapOr(r, otherwise) == Unwrap(r)
    ensures Unwrap(r).Threw? && Held(r) != Undefined ==>
      SafeUnwrap(r) == Normal(Unwrap(r).thrown) && UnwrapOr(r, otherwise) == Normal(otherwise)
  {
  }
}
