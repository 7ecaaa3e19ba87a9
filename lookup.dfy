/** Lookup objects as the match engines see them: the object's own properties,
    in declaration order, each a key and an entry. */
module Lookup {
  import opened Js
  import opened Text

  /** A JavaScript object holds each key once; a table that repeats a key
      stands for the object whose property is the first pair with that key,
      which is the pair every lookup below reads. */
  type Table<E> = seq<(string, E)>

  /** A lookup entry in handler style: `typeof entry == 'function'` holds exactly
      for `Handler`. */
  datatype Entry<!I, O> = Plain(value: O) | Handler(call: I -> O)

  /** The position of the first property named `key`, or `|t|` when there is none. */
  function IndexOf<E>(t: Table<E>, key: string): (i: nat)
    ensures i <= |t|
    ensures i < |t| ==> t[i].0 == key
    ensures forall j :: 0 <= j < i ==> t[j].0 != key
  {
    if |t| == 0 then 0
    else if t[0].0 == key then 0
    else 1 + IndexOf(t[1..], key)
  }

  /** `key in lookup`. */
  predicate Has<E>(t: Table<E>, key: string) { IndexOf(t, key) < |t| }

  /** `lookup[key]`. */
  function Get<E>(t: Table<E>, key: string): (r: OrUndefined<E>)
    ensures r.Def? <==> exists i :: 0 <= i < |t| && t[i].0 == key
    ensures r.Def? ==> (key, r.value) in t
  {
    if Has(t, key) then Def(t[IndexOf(t, key)].1) else Undef
  }

  /** Calling what was looked up: a handler runs on the argument; any other
      entry, and `undefined`, is not callable and throws a TypeError. */
  function Invoke<I, O>(e: OrUndefined<Entry<I, O>>, arg: I): (r: Completion<O, Value>)
    ensures r.Normal? <==> e.Def? && e.value.Handler?
    ensures r.Threw? ==> r.thrown == NotAFunction
  {
    if e.Def? && e.value.Handler? then Normal(e.value.call(arg)) else Threw(NotAFunction)
  }

  /** An input of literal-value dispatch (`T extends string | number`). */
  datatype Literal = StrLit(s: string) | NumLit(n: int)

  /** The property key `input in lookup` and `lookup[input]` look for: a number
      is converted to its decimal text. */
  function KeyOf(x: Literal): string {
    match x
    case StrLit(s) => s
    case NumLit(n) => IntText(n)
  }

  /** Every entry of the table is a function. */
  predicate AllHandlers<I, O>(t: Table<Entry<I, O>>) {
    forall i :: 0 <= i < |t| ==> t[i].1.Handler?
  }

  /** The message every value and discriminant engine throws when nothing matches. */
  const NoMatchMessage := "Value did not match with anything."

  /** The rule of value-style dispatch shared by the literal and discriminant
      engines: the entry under `key`, else the entry under `fallback`, else the
      non-exhaustive error. */
  function ResolveWith<O>(t: Table<O>, key: string, fallback: string): (r: Completion<O, Value>)
    ensures Has(t, key) ==> r == Normal(Get(t, key).value)
    ensures !Has(t, key) && Has(t, fallback) ==> r == Normal(Get(t, fallback).value)
    ensures r.Threw? <==> !Has(t, key) && !Has(t, fallback)
    ensures r.Threw? ==> r.thrown == Error(NoMatchMessage)
  {
    if Has(t, key) then Normal(Get(t, key).value)
    else if Has(t, fallback) then Normal(Get(t, fallback).value)
    else Threw(Error(NoMatchMessage))
  }

  /** The rule of handler-style dispatch: the entry under `key` is called only
      when it is a function; otherwise the entry under `fallback` is called,
      and without one the non-exhaustive error is thrown. */
  function ResolveCase<I, O>(t: Table<Entry<I, O>>, key: string, fallback: string, arg: I): (r: Completion<O, Value>)
    ensures Has(t, key) && Get(t, key).value.Handler? ==> r == Normal(Get(t, key).value.call(arg))
    ensures !(Has(t, key) && Get(t, key).value.Handler?) && Has(t, fallback) ==> r == Invoke(Get(t, fallback), arg)
    ensures !(Has(t, key) && Get(t, key).value.Handler?) && !Has(t, fallback) ==> r == Threw(Error(NoMatchMessage))
  {
    var own := Get(t, key);
    if own.Def? && own.value.Handler? then Normal(own.value.call(arg))
    else if Has(t, fallback) then Invoke(Get(t, fallback), arg)
    else Threw(Error(NoMatchMessage))
  }

  /** When every entry is a function, handler style is value style followed by
      a call of the resolved entry on the input. */
  lemma CaseIsWithThenCall<I, O>(t: Table<Entry<I, O>>, key: string, fallback: string, arg: I)
    requires AllHandlers(t)
    ensures ResolveCase(t, key, fallback, arg) ==
      match ResolveWith(t, key, fallback)
      case Normal(e) => Normal(e.call(arg))
      case Threw(x) => Threw(x)
  {
    if Has(t, key) {
      assert t[IndexOf(t, key)].1.Handler?;
    } else if Has(t, fallback) {
      assert t[IndexOf(t, fallback)].1.Handler?;
    }
  }
}
