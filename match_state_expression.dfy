/** `MatchStateExpression`: dispatch on the `_state` discriminant of a tagged
    value. The input type is left open; `stateOf` reads its `_state` field. */
module MatchStateExpression {
  import opened Js
  import opened Lookup

  const Fallback := "_otherwise"

  /** `new MatchStateExpression(input).with(lookup)`: the entry under the
      input's `_state`, else `_otherwise`, else the non-exhaustive error. */
  function With<I, O>(input: I, stateOf: I -> string, lookup: Table<O>): (r: Completion<O, Value>)
    ensures Has(lookup, stateOf(input)) ==> r == Normal(Get(lookup, stateOf(input)).value)
    ensures !Has(lookup, stateOf(input)) && Has(lookup, Fallback) ==> r == Normal(Get(lookup, Fallback).value)
    ensures r.Threw? <==> !Has(lookup, stateOf(input)) && !Has(lookup, Fallback)
    ensures r.Threw? ==> r.thrown == Error(NoMatchMessage)
  {
    ResolveWith(lookup, stateOf(input), Fallback)
  }

  /** `new MatchStateExpression(input).case(lookup)`: the handler under the
      input's `_state` is called with the whole tagged value (not its payload);
      without a callable entry `_otherwise(input)` is called; with neither the
      non-exhaustive error is thrown. */
  function Case<I, O>(input: I, stateOf: I -> string, lookup: Table<Entry<I, O>>): (r: Completion<O, Value>)
    ensures Has(lookup, stateOf(input)) && Get(lookup, stateOf(input)).value.Handler? ==>
      r == Normal(Get(lookup, stateOf(input)).value.call(input))
    ensures !(Has(lookup, stateOf(input)) && Get(lookup, stateOf(input)).value.Handler?) && Has(lookup, Fallback) ==>
      r == Invoke(Get(lookup, Fallback), input)
    ensures !(Has(lookup, stateOf(input)) && Get(lookup, stateOf(input)).value.Handler?) && !Has(lookup, Fallback) ==>
      r == Threw(Error(NoMatchMessage))
  {
    ResolveCase(lookup, stateOf(input), Fallback, input)
  }

  /** What `returnType()` gives back: the same input, with `case` attached. */
  datatype Typed<I> = Typed(input: I)

  function ReturnType<I>(input: I): (t: Typed<I>)
    ensures t.input == input
  {
    Typed(input)
  }

  /** `returnType().case(lookup)`: `case` runs with `this` bound to the record
      `returnType` built, so it reads the same input. */
  function TypedCase<I, O>(t: Typed<I>, stateOf: I -> string, lookup: Table<Entry<I, O>>): Completion<O, Value> {
    Case(t.input, stateOf, lookup)
  }

  /** `returnType()` changes neither the input nor how `case` resolves. */
  lemma ReturnTypeKeepsCase<I, O>(input: I, stateOf: I -> string, lookup: Table<Entry<I, O>>)
    ensures ReturnType(input).input == input
    ensures TypedCase(ReturnType(input), stateOf, lookup) == Case(input, stateOf, lookup)
  {
  }

  /** With only functions in the table, `case` calls on the input exactly the
      entry `with` would return. */
  lemma CaseCallsWhatWithReturns<I, O>(input: I, stateOf: I -> string, lookup: Table<Entry<I, O>>)
    requires AllHandlers(lookup)
    ensures Case(input, stateOf, lookup) ==
      match With(input, stateOf, lookup)
      case Normal(e) => Normal(e.call(input))
      case Threw(x) => Threw(x)
  {
    CaseIsWithThenCall(lookup, stateOf(input), Fallback, input);
  }

  /** A table with a function for every tag an input can carry never reaches
      the fallback and never throws. */
  lemma ExhaustiveNeverThrows<I, O>(input: I, stateOf: I -> string, lookup: Table<Entry<I, O>>, tags: set<string>)
    requires stateOf(input) in tags
    requires forall tag :: tag in tags ==> Has(lookup, tag)
    requires AllHandlers(lookup)
    ensures Case(input, stateOf, lookup).Normal?
    ensures Case(input, stateOf, lookup) == Normal(Get(lookup, stateOf(input)).value.call(input))
  {
    assert lookup[IndexOf(lookup, stateOf(input))].1.Handler?;
  }
}
