/** `MatchValExpression`: dispatch on a string or number literal, with the
    fallback property spelled `_otherwise`. */
module MatchValExpression {
  import opened Js
  import opened Lookup

  const Fallback := "_otherwise"

  /** `new MatchValExpression(input).with(lookup)`: the entry stored under the
      input, else the `_otherwise` entry, else the non-exhaustive error. */
  function With<O>(input: Literal, lookup: Table<O>): (r: Completion<O, Value>)
    ensures Has(lookup, KeyOf(input)) ==> r == Normal(Get(lookup, KeyOf(input)).value)
    ensures !Has(lookup, KeyOf(input)) && Has(lookup, Fallback) ==> r == Normal(Get(lookup, Fallback).value)
    ensures r.Threw? <==> !Has(lookup, KeyOf(input)) && !Has(lookup, Fallback)
    ensures r.Threw? ==> r.thrown == Error(NoMatchMessage)
  {
    ResolveWith(lookup, KeyOf(input), Fallback)
  }

  /** `new MatchValExpression(input).case(lookup)`: the entry under the input is
      called with the input when it is a function; otherwise `_otherwise` is
      called with the input; with neither the non-exhaustive error is thrown. */
  function Case<O>(input: Literal, lookup: Table<Entry<Literal, O>>): (r: Completion<O, Value>)
    ensures Has(lookup, KeyOf(input)) && Get(lookup, KeyOf(input)).value.Handler? ==>
      r == Normal(Get(lookup, KeyOf(input)).value.call(input))
    ensures !(Has(lookup, KeyOf(input)) && Get(lookup, KeyOf(input)).value.Handler?) && Has(lookup, Fallback) ==>
      r == Invoke(Get(lookup, Fallback), input)
    ensures !(Has(lookup, KeyOf(input)) && Get(lookup, KeyOf(input)).value.Handler?) && !Has(lookup, Fallback) ==>
      r == Threw(Error(NoMatchMessage))
  {
    ResolveCase(lookup, KeyOf(input), Fallback, input)
  }

  /** With only functions in the table, `case` calls on the input exactly the
      entry `with` would return, and fails exactly when `with` fails. */
  lemma CaseCallsWhatWithReturns<O>(input: Literal, lookup: Table<Entry<Literal, O>>)
    requires AllHandlers(lookup)
    ensures Case(input, lookup) ==
      match With(input, lookup)
      case Normal(e) => Normal(e.call(input))
      case Threw(x) => Threw(x)
  {
    CaseIsWithThenCall(lookup, KeyOf(input), Fallback, input);
  }
}
