/** `Concurrently`: handlers started together whose results are folded, in
    declaration order, into `Ok` of all payloads or an `Err`. */
module Concurrently {
  import opened TaggedResult

  /** A handler: called without arguments, it answers with a `Result`. */
  type Handler<E, T> = () -> Result<E, T>

  datatype Concurrently<E, T> = Concurrently(handlers: seq<Handler<E, T>>)

  /** `Concurrently.run(fn)`. */
  function Run<E, T>(fn: Handler<E, T>): (c: Concurrently<E, T>)
    ensures c.handlers == [fn]
  {
    Concurrently([fn])
  }

  /** `and(fn)`: a new value with one more handler; the receiver is untouched. */
  function And<E, T>(c: Concurrently<E, T>, fn: Handler<E, T>): (d: Concurrently<E, T>)
    ensures d.handlers == c.handlers + [fn]
  {
    Concurrently(c.handlers + [fn])
  }

  /** One step of the `reduce`: a failing current result replaces whatever
      came before; otherwise an earlier failure is kept; otherwise the payload
      is appended. */
  function Step<E, T>(prev: Result<E, seq<T>>, current: Result<E, T>): Result<E, seq<T>> {
    if current.Err? then Err(current.error)
    else if prev.Err? then Err(prev.error)
    else Ok(prev.value + [current.value])
  }

  /** `results.reduce(step, Ok([]))`: the fold from the left, written by
      peeling off the last result. */
  function Reduce<E, T>(rs: seq<Result<E, T>>): (r: Result<E, seq<T>>)
    ensures r.Err? <==> exists i :: 0 <= i < |rs| && rs[i].Err?
    ensures r.Ok? ==> |r.value| == |rs|
    decreases |rs|
  {
    if |rs| == 0 then Ok([]) else Step(Reduce(rs[..|rs| - 1]), rs[|rs| - 1])
  }

  /** The results of all handlers, in declaration order; each handler is
      called once. */
  function Results<E, T>(hs: seq<Handler<E, T>>): (rs: seq<Result<E, T>>)
    ensures |rs| == |hs|
    ensures forall i :: 0 <= i < |hs| ==> rs[i] == hs[i]()
  {
    seq(|hs|, i requires 0 <= i < |hs| => hs[i]())
  }

  /** `done()`. */
  function Done<E, T>(c: Concurrently<E, T>): (r: Result<E, seq<T>>)
    ensures r.Err? <==> exists i :: 0 <= i < |c.handlers| && c.handlers[i]().Err?
    ensures r.Ok? ==> |r.value| == |c.handlers|
  {
    Reduce(Results(c.handlers))
  }

  /** The position of the last `Err` among `rs`, or `|rs|` when there is none. */
  function LastErr<E, T>(rs: seq<Result<E, T>>): (i: nat)
    ensures i <= |rs|
    ensures i < |rs| ==> rs[i].Err? && forall j :: i < j < |rs| ==> rs[j].Ok?
    ensures i == |rs| ==> forall j :: 0 <= j < |rs| ==> rs[j].Ok?
    decreases |rs|
  {
    if |rs| == 0 then 0
    else if rs[|rs| - 1].Err? then |rs| - 1
    else if LastErr(rs[..|rs| - 1]) == |rs| - 1 then |rs|
    else LastErr(rs[..|rs| - 1])
  }

  /** The fold's outcome: with every result `Ok`, `Ok` of the payloads in
      declaration order; otherwise the `Err` of the last failing result. */
  lemma {:induction false} ReduceOutcome<E, T>(rs: seq<Result<E, T>>)
    ensures LastErr(rs) == |rs| ==> Reduce(rs) == Ok(Payloads(rs))
    ensures LastErr(rs) < |rs| ==> Reduce(rs) == Err(rs[LastErr(rs)].error)
    decreases |rs|
  {
    if |rs| > 0 {
      var init := rs[..|rs| - 1];
      ReduceOutcome(init);
      if LastErr(rs) == |rs| {
        assert forall j :: 0 <= j < |init| ==> init[j].Ok?;
        assert LastErr(init) == |init|;
        assert Payloads(init) + [rs[|rs| - 1].value] == Payloads(rs);
      }
    }
  }

  /** The aggregate fails exactly when some handler fails. */
  lemma ReduceFailsIffSomeFails<E, T>(rs: seq<Result<E, T>>)
    ensures Reduce(rs).Err? <==> exists i :: 0 <= i < |rs| && rs[i].Err?
  {
    ReduceOutcome(rs);
  }

  /** With two failures, the later one supplies the error. */
  lemma LaterFailureWins<E, T>(a: E, b: E, rs: seq<Result<E, T>>)
    ensures Reduce([Err(a)] + rs + [Err(b)]) == Err(b)
  {
  }

  /** A single `Ok("Hello, world!")` handler gives that payload alone. */
  lemma DoneSingle()
    ensures Done(Run<string, string>(() => Ok("Hello, world!"))) == Ok(["Hello, world!"])
  {
    var one := Results(Run<string, string>(() => Ok("Hello, world!")).handlers);
    ReduceOutcome(one);
    assert Payloads(one) == ["Hello, world!"];
  }

  /** `Ok("bonjour")` and `Ok("adios")` give both payloads, in order. */
  lemma DonePair()
    ensures Done(And(Run<string, string>(() => Ok("bonjour")), () => Ok("adios"))) == Ok(["bonjour", "adios"])
  {
    var two := Results(And(Run<string, string>(() => Ok("bonjour")), () => Ok("adios")).handlers);
    ReduceOutcome(two);
    assert Payloads(two) == ["bonjour", "adios"];
  }

  /** `Ok("adios")` then `Err("surprise")` gives `Err("surprise")`. */
  lemma DoneFailing()
    ensures Done(And(Run<string, string>(() => Ok("adios")), () => Err("surprise"))) == Err("surprise")
  {
    var bad := Results(And(Run<string, string>(() => Ok("adios")), () => Err("surprise")).handlers);
    ReduceOutcome(bad);
  }
}
