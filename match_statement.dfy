/** `match()` and `MatchStatement` of the instructions module: literal-value
    dispatch whose fallback property is spelled `otherwise`, without the
    leading underscore the other engines use. */
module MatchStatement {
  import opened Js
  import opened Lookup
  import MatchValExpression

  const Fallback := "otherwise"

  /** What `match(statement)` builds: a statement holding its input. */
  datatype Statement = Statement(input: Literal)

  /** `match(statement)` wraps the input unchanged. */
  function Match(x: Literal): (s: Statement)
    ensures s.input == x
  {
    Statement(x)
  }

  /** `MatchStatement.with(lookup)`: the entry under the input, else the
      `otherwise` entry, else the non-exhaustive error. */
  function With<O>(s: Statement, lookup: Table<O>): (r: Completion<O, Value>)
    ensures Has(lookup, KeyOf(s.input)) ==> r == Normal(Get(lookup, KeyOf(s.input)).value)
    ensures !Has(lookup, KeyOf(s.input)) && Has(lookup, Fallback) ==> r == Normal(Get(lookup, Fallback).value)
    ensures r.Threw? <==> !Has(lookup, KeyOf(s.input)) && !Has(lookup, Fallback)
    ensures r.Threw? ==> r.thrown == Error(NoMatchMessage)
  {
    ResolveWith(lookup, KeyOf(s.input), Fallback)
  }

  /** `MatchStatement.case(lookup)`: the entry under the input is called when it
      is a function, otherwise `otherwise` is called with the input, otherwise
      the non-exhaustive error is thrown. */
  function Case<O>(s: Statement, lookup: Table<Entry<Literal, O>>): (r: Completion<O, Value>)
    ensures Has(lookup, KeyOf(s.input)) && Get(lookup, KeyOf(s.input)).value.Handler? ==>
      r == Normal(Get(lookup, KeyOf(s.input)).value.call(s.input))
    ensures !(Has(lookup, KeyOf(s.input)) && Get(lookup, KeyOf(s.input)).value.Handler?) && Has(lookup, Fallback) ==>
      r == Invoke(Get(lookup, Fallback), s.input)
    ensures !(Has(lookup, KeyOf(s.input)) && Get(lookup, KeyOf(s.input)).value.Handler?) && !Has(lookup, Fallback) ==>
      r == Threw(Error(NoMatchMessage))
  {
    ResolveCase(lookup, KeyOf(s.input), Fallback, s.input)
  }

  /** A property named `_otherwise` is no fallback here: an input with no entry
      of its own throws even though the table has one, which is what the
      emotion table of the tests does for an emotion it does not list. */
  lemma UnderscoreOtherwiseIsIgnored(x: Literal, lookup: Table<string>)
    requires !Has(lookup, KeyOf(x)) && !Has(lookup, Fallback) && Has(lookup, "_otherwise")
    ensures With(Match(x), lookup) == Threw(Error(NoMatchMessage))
  {
  }

  /** The emotion table of the tests: `HAPPY` (0) finds its own entry, and
      `SURPRISED` (3), which has none, throws rather than returning the
      `_otherwise` entry. */
  lemma EmotionTable()
    ensures var t := [("0", ":D"), ("1", ":("), ("2", ">:("), ("_otherwise", "???")];
      With(Match(NumLit(0)), t) == Normal(":D") && With(Match(NumLit(3)), t) == Threw(Error(NoMatchMessage))
  {
    var t := [("0", ":D"), ("1", ":("), ("2", ">:("), ("_otherwise", "???")];
    assert KeyOf(NumLit(0)) == "0";
    assert KeyOf(NumLit(3)) == "3";
    assert IndexOf(t, "0") == 0;
    assert IndexOf(t, "3") == 4;
    assert IndexOf(t, Fallback) == 4;
  }

  /** The fallback the tests of this engine write, and the other engines use. */
  const IntendedFallback := "_otherwise"

  /** `with` as evidently intended: the fallback is `_otherwise`. */
  function WithIntended<O>(s: Statement, lookup: Table<O>): (r: Completion<O, Value>)
    ensures Has(lookup, KeyOf(s.input)) ==> r == Normal(Get(lookup, KeyOf(s.input)).value)
    ensures !Has(lookup, KeyOf(s.input)) && Has(lookup, IntendedFallback) ==> r == Normal(Get(lookup, IntendedFallback).value)
    ensures r.Threw? <==> !Has(lookup, KeyOf(s.input)) && !Has(lookup, IntendedFallback)
  {
    ResolveWith(lookup, KeyOf(s.input), IntendedFallback)
  }

  /** `case` as evidently intended: the fallback is `_otherwise`. */
  function CaseIntended<O>(s: Statement, lookup: Table<Entry<Literal, O>>): (r: Completion<O, Value>)
    ensures !(Has(lookup, KeyOf(s.input)) && Get(lookup, KeyOf(s.input)).value.Handler?) && Has(lookup, IntendedFallback) ==>
      r == Invoke(Get(lookup, IntendedFallback), s.input)
  {
    ResolveCase(lookup, KeyOf(s.input), IntendedFallback, s.input)
  }

  /** The intended engine is the literal-value engine of `MatchValExpression`. */
  lemma IntendedIsMatchValExpression<O>(x: Literal, values: Table<O>, handlers: Table<Entry<Literal, O>>)
    ensures WithIntended(Match(x), values) == MatchValExpression.With(x, values)
    ensures CaseIntended(Match(x), handlers) == MatchValExpression.Case(x, handlers)
  {
  }

  /** With the intended fallback, the emotion tables of the tests give what
      the tests expect: `SURPRISED` (3) gets "???" from `with` and the result
      of the `_otherwise` handler from `case`. */
  lemma EmotionTableIntended(onHappy: Literal -> string, onSad: Literal -> string, onOther: Literal -> string)
    ensures var t := [("0", ":D"), ("1", ":("), ("2", ">:("), ("_otherwise", "???")];
      WithIntended(Match(NumLit(0)), t) == Normal(":D") && WithIntended(Match(NumLit(3)), t) == Normal("???")
    ensures var h := [("0", Handler(onHappy)), ("1", Handler(onSad)), ("_otherwise", Handler(onOther))];
      CaseIntended(Match(NumLit(3)), h) == Normal(onOther(NumLit(3)))
  {
    var t := [("0", ":D"), ("1", ":("), ("2", ">:("), ("_otherwise", "???")];
    var h := [("0", Handler(onHappy)), ("1", Handler(onSad)), ("_otherwise", Handler(onOther))];
    assert KeyOf(NumLit(0)) == "0";
    assert KeyOf(NumLit(3)) == "3";
    assert IndexOf(t, "0") == 0;
    assert IndexOf(t, "3") == 4;
    assert IndexOf(t, IntendedFallback) == 3;
    assert IndexOf(h, "3") == 3;
    assert h[2].0 == IntendedFallback && h[0].0 != IntendedFallback && h[1].0 != IntendedFallback;
    assert IndexOf(h, IntendedFallback) == 2;
  }

  /** As written, `case` on the same handler table throws for `SURPRISED`
      where the tests expect the `_otherwise` handler's result. */
  lemma EmotionCaseThrows(onHappy: Literal -> string, onSad: Literal -> string, onOther: Literal -> string)
    ensures var h := [("0", Handler(onHappy)), ("1", Handler(onSad)), ("_otherwise", Handler(onOther))];
      Case(Match(NumLit(3)), h) == Threw(Error(NoMatchMessage))
  {
    var h := [("0", Handler(onHappy)), ("1", Handler(onSad)), ("_otherwise", Handler(onOther))];
    assert KeyOf(NumLit(3)) == "3";
    assert IndexOf(h, "3") == 3;
    assert IndexOf(h, Fallback) == 3;
  }
}
