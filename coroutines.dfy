/** `Coroutines`: the same builders and the same fold as `Concurrently`,
    closed by `end()` instead of `done()`. */
module Coroutines {
  import opened TaggedResult
  import Concurrently

  datatype Coroutines<E, T> = Coroutines(handlers: seq<Concurrently.Handler<E, T>>)

  /** `Coroutines.run(fn)`. */
  function Run<E, T>(fn: Concurrently.Handler<E, T>): (c: Coroutines<E, T>)
    ensures c.handlers == [fn]
  {
    Coroutines([fn])
  }

  /** `and(fn)`. */
  function And<E, T>(c: Coroutines<E, T>, fn: Concurrently.Handler<E, T>): (d: Coroutines<E, T>)
    ensures d.handlers == c.handlers + [fn]
  {
    Coroutines(c.handlers + [fn])
  }

  /** The fold of `end()`, written as the `reduce` runs: from the front, with
      the accumulator carried along. */
  function Fold<E, T>(acc: Result<E, seq<T>>, rs: seq<Result<E, T>>): (r: Result<E, seq<T>>)
    ensures r.Err? <==> acc.Err? || exists i :: 0 <= i < |rs| && rs[i].Err?
    ensures r.Ok? ==> acc.Ok? && |r.value| == |acc.value| + |rs| && r.value[..|acc.value|] == acc.value
    decreases |rs|
  {
    if |rs| == 0 then acc
    else
      var current := rs[0];
      var next :=
        if current.Err? then Err(current.error)
        else if acc.Err? then Err(acc.error)
        else Ok(acc.value + [current.value]);
      Fold(next, rs[1..])
  }

  /** `end()`. */
  function End<E, T>(c: Coroutines<E, T>): (r: Result<E, seq<T>>)
    ensures r.Err? <==> exists i :: 0 <= i < |c.handlers| && c.handlers[i]().Err?
    ensures r.Ok? ==> |r.value| == |c.handlers|
  {
    Fold(Ok([]), Concurrently.Results(c.handlers))
  }

  /** Folding from the front after a prefix is folding the prefix and the
      rest together. */
  lemma {:induction false} FoldIsReduce<E, T>(pre: seq<Result<E, T>>, rs: seq<Result<E, T>>)
    ensures Fold(Concurrently.Reduce(pre), rs) == Concurrently.Reduce(pre + rs)
    decreases |rs|
  {
    if |rs| > 0 {
      var all := pre + [rs[0]];
      assert all[..|all| - 1] == pre;
      FoldIsReduce(all, rs[1..]);
      assert all + rs[1..] == pre + rs;
    } else {
      assert pre + rs == pre;
    }
  }

  /** `end()` gives the same result as `Concurrently`'s `done()` on the same
      handlers, so the last failure wins here too. */
  lemma EndIsDone<E, T>(hs: seq<Concurrently.Handler<E, T>>)
    ensures End(Coroutines(hs)) == Concurrently.Done(Concurrently.Concurrently(hs))
  {
    FoldIsReduce([], Concurrently.Results(hs));
    assert [] + Concurrently.Results(hs) == Concurrently.Results(hs);
  }
}
