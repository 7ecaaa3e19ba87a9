/** `CaseStatement`: a chain of `case(pattern, handler)` calls closed by
    `exhaustive()`. */
module CaseStatement {
  import opened Js

  /** `Unmatched` or `Matched({ val })`, built with the state constructors. */
  datatype MatchState<Out> = Unmatched | Matched(val: Out)

  /** The statement: the input and where matching stands. */
  datatype Statement<In, Out> = Statement(input: In, matchState: MatchState<Out>)

  /** The message `exhaustive()` throws when no case matched. */
  const NotExhaustiveMessage := "Match-Case statement not exhaustive."

  /** `case(pattern, handler)` as written: a match runs the handler on the
      input; any other pattern yields `Unmatched`, also after an earlier
      match. */
  function Case<In(==), Out>(s: Statement<In, Out>, pattern: In, handler: In -> Out): (r: Statement<In, Out>)
    ensures r.input == s.input
    ensures r.matchState.Matched? <==> s.input == pattern
    ensures r.matchState.Matched? ==> r.matchState.val == handler(s.input)
  {
    if s.input == pattern then Statement(s.input, Matched(handler(s.input)))
    else Statement(s.input, Unmatched)
  }

  /** `exhaustive()`: the stored value, or the non-exhaustive error. */
  function Exhaustive<In, Out>(s: Statement<In, Out>): (r: Completion<Out, Value>)
    ensures r.Threw? <==> s.matchState.Unmatched?
    ensures r.Threw? ==> r.thrown == Error(NotExhaustiveMessage)
    ensures r.Normal? ==> r.value == s.matchState.val
  {
    match s.matchState
    case Unmatched => Threw(Error(NotExhaustiveMessage))
    case Matched(v) => Normal(v)
  }

  /** A chain of cases applied one after the other, as written. */
  function Chain<In(==), Out>(s: Statement<In, Out>, cases: seq<(In, In -> Out)>): (r: Statement<In, Out>)
    ensures r.input == s.input
    decreases |cases|
  {
    if |cases| == 0 then s
    else Chain(Case(s, cases[0].0, cases[0].1), cases[1..])
  }

  /** As written, only the last case decides: a chain whose last pattern
      differs from the input ends `Unmatched` even when an earlier one
      matched, and `exhaustive()` then throws. */
  lemma {:induction false} ChainLastDecides<In, Out>(s: Statement<In, Out>, cases: seq<(In, In -> Out)>)
    requires |cases| > 0
    ensures Chain(s, cases).matchState.Matched? <==> s.input == cases[|cases| - 1].0
    decreases |cases|
  {
    if |cases| > 1 {
      ChainLastDecides(Case(s, cases[0].0, cases[0].1), cases[1..]);
    }
  }

  /** The input 1 against `.case(1, h).case(2, h).exhaustive()` throws,
      although its own case is in the chain. */
  lemma ChainForgetsEarlierMatch(h: int -> int)
    ensures Exhaustive(Chain(Statement(1, Unmatched), [(1, h), (2, h)])).Threw?
  {
    ChainLastDecides(Statement(1, Unmatched), [(1, h), (2, h)]);
  }

  /** `case` as evidently intended: once matched, the statement keeps its
      value; otherwise a matching pattern runs its handler. */
  function CaseKeep<In(==), Out>(s: Statement<In, Out>, pattern: In, handler: In -> Out): (r: Statement<In, Out>)
    ensures r.input == s.input
    ensures s.matchState.Matched? ==> r == s
    ensures s.matchState.Unmatched? ==> r == Case(s, pattern, handler)
  {
    if s.matchState.Matched? then s
    else if s.input == pattern then Statement(s.input, Matched(handler(s.input)))
    else s
  }

  /** A chain of intended cases. */
  function ChainKeep<In(==), Out>(s: Statement<In, Out>, cases: seq<(In, In -> Out)>): (r: Statement<In, Out>)
    ensures r.input == s.input
    decreases |cases|
  {
    if |cases| == 0 then s
    else ChainKeep(CaseKeep(s, cases[0].0, cases[0].1), cases[1..])
  }

  /** The position of the first case whose pattern equals `x`, or
      `|cases|` when none does. */
  function FirstCase<In(==), Out>(x: In, cases: seq<(In, In -> Out)>): (i: nat)
    ensures i <= |cases|
    ensures i < |cases| ==> cases[i].0 == x
    ensures forall j :: 0 <= j < i ==> cases[j].0 != x
  {
    if |cases| == 0 then 0
    else if cases[0].0 == x then 0
    else 1 + FirstCase(x, cases[1..])
  }

  /** With the intended `case`, a chain started unmatched yields the handler
      of the first case equal to the input, and `exhaustive()` throws exactly
      when no case equals it. */
  lemma {:induction false} ChainKeepFirstMatch<In, Out>(x: In, cases: seq<(In, In -> Out)>)
    ensures var i := FirstCase(x, cases);
      Exhaustive(ChainKeep(Statement(x, Unmatched), cases)) ==
        if i < |cases| then Normal(cases[i].1(x)) else Threw(Error(NotExhaustiveMessage))
    decreases |cases|
  {
    if |cases| > 0 {
      if cases[0].0 == x {
        ChainKeepMatched(Statement(x, Matched(cases[0].1(x))), cases[1..]);
      } else {
        ChainKeepFirstMatch(x, cases[1..]);
      }
    }
  }

  /** A matched statement goes through any chain of intended cases unchanged. */
  lemma {:induction false} ChainKeepMatched<In, Out>(s: Statement<In, Out>, cases: seq<(In, In -> Out)>)
    requires s.matchState.Matched?
    ensures ChainKeep(s, cases) == s
    decreases |cases|
  {
    if |cases| > 0 {
      ChainKeepMatched(s, cases[1..]);
    }
  }

  /** The same chain with the intended `case` keeps the earlier match. */
  lemma ChainKeepRemembers(h: int -> int)
    ensures Exhaustive(ChainKeep(Statement(1, Unmatched), [(1, h), (2, h)])) == Normal(h(1))
  {
    ChainKeepFirstMatch(1, [(1, h), (2, h)]);
  }
}
