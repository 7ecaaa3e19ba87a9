/** `MatchNumber`: dispatch on a number, where a property key of the form
    "min..max" stands for the inclusive range from `min` to `max`. The exact key
    is tried first, then the range keys in key order, then `_otherwise`; unlike
    the other engines nothing here throws the non-exhaustive error. */
module MatchNumber {
  import opened Js
  import opened Text
  import opened Lookup

  const Fallback := "_otherwise"
  const Separator := ".."

  /** `typeof key == 'string' && key.includes('..')`. */
  predicate IsRangeKey(key: string) { Includes(key, Separator) }

  /** `const [min, max] = key.split('..')`, each read with `parseFloat`; a
      missing second piece is `undefined`, which parses to `NaN`. */
  function Bounds(key: string): (b: (Value, Value))
    ensures (b.0.Num? || b.0.NaN?) && (b.1.Num? || b.1.NaN?)
    ensures |Split(key, Separator)| < 2 ==> b.1 == NaN
  {
    var pieces := Split(key, Separator);
    (ParseFloat(pieces[0]), if |pieces| > 1 then ParseFloat(pieces[1]) else NaN)
  }

  /** `parseFloat(min) <= input && input <= parseFloat(max)` for a range key;
      every comparison with `NaN` is false. */
  predicate InRange(key: string, input: int) {
    && IsRangeKey(key)
    && Bounds(key).0.Num? && Bounds(key).1.Num?
    && Bounds(key).0.n <= input <= Bounds(key).1.n
  }

  /** The range key written for the bounds `lo` and `hi`. */
  function RangeKey(lo: int, hi: int): string {
    IntText(lo) + Separator + IntText(hi)
  }

  /** A range key's bounds are the first two pieces of its split: the key
      written for `lo..hi` contains exactly the inputs from `lo` to `hi`, both
      ends included. */
  lemma RangeKeyContains(lo: int, hi: int, input: int)
    ensures IsRangeKey(RangeKey(lo, hi))
    ensures Bounds(RangeKey(lo, hi)) == (Num(lo), Num(hi))
    ensures InRange(RangeKey(lo, hi), input) <==> lo <= input <= hi
  {
    IncludesJoined(IntText(lo), Separator, IntText(hi));
    SplitAfter(IntText(lo), IntText(hi));
    SplitNoDot(IntText(hi));
    ParseIntText(lo);
    ParseIntText(hi);
  }

  /** Any key containing ".." has both bounds taken from real pieces of the
      split: the first two. */
  lemma RangeKeyPieces(key: string)
    requires IsRangeKey(key)
    ensures |Split(key, Separator)| >= 2
    ensures Bounds(key) == (ParseFloat(Split(key, Separator)[0]), ParseFloat(Split(key, Separator)[1]))
  {
    SplitIncluded(key, Separator);
  }

  /** The position of the first property, in key order, whose key is a range
      containing `input`; `|lookup|` when there is none. */
  function FirstRange<E>(lookup: Table<E>, input: int): (i: nat)
    ensures i <= |lookup|
    ensures i < |lookup| ==> InRange(lookup[i].0, input)
    ensures forall j :: 0 <= j < i ==> !InRange(lookup[j].0, input)
  {
    if |lookup| == 0 then 0
    else if InRange(lookup[0].0, input) then 0
    else 1 + FirstRange(lookup[1..], input)
  }

  /** A position before which no key is a containing range, and which is
      itself one (or the end), is the first range. */
  lemma FirstRangeIs<E>(lookup: Table<E>, input: int, i: nat)
    requires i <= |lookup|
    requires forall j :: 0 <= j < i ==> !InRange(lookup[j].0, input)
    requires i < |lookup| ==> InRange(lookup[i].0, input)
    ensures FirstRange(lookup, input) == i
  {
    var f := FirstRange(lookup, input);
    if f < i {
      assert false;
    }
  }

  /** What `with` returns: the entry under the input's own key; else the entry
      of the first range containing the input; else `lookup._otherwise`, which
      is `undefined` when the table has none. */
  function WithValue<O>(lookup: Table<O>, input: int): (r: OrUndefined<O>)
    ensures r.Undef? <==> !Has(lookup, IntText(input)) && FirstRange(lookup, input) == |lookup| && !Has(lookup, Fallback)
  {
    if Has(lookup, IntText(input)) then Get(lookup, IntText(input))
    else if FirstRange(lookup, input) < |lookup| then Def(lookup[FirstRange(lookup, input)].1)
    else Get(lookup, Fallback)
  }

  /** The scan over `Object.keys(lookup)` that `with` and `case` share: it
      stops at the first range key whose bounds contain the input. */
  method ScanRanges<E>(lookup: Table<E>, input: int) returns (i: nat)
    ensures i == FirstRange(lookup, input)
  {
    i := 0;
    while i < |lookup|
      invariant 0 <= i <= |lookup|
      invariant forall j :: 0 <= j < i ==> !InRange(lookup[j].0, input)
    {
      var key := lookup[i].0;
      if IsRangeKey(key) {
        var (min, max) := Bounds(key);
        if min.Num? && max.Num? && min.n <= input && input <= max.n {
          FirstRangeIs(lookup, input, i);
          return;
        }
      }
      i := i + 1;
    }
    FirstRangeIs(lookup, input, i);
  }

  /** `new MatchNumber(input).with(lookup)`. */
  method With<O>(lookup: Table<O>, input: int) returns (r: OrUndefined<O>)
    ensures r == WithValue(lookup, input)
  {
    if Has(lookup, IntText(input)) {
      return Get(lookup, IntText(input));
    }
    var i := ScanRanges(lookup, input);
    if i < |lookup| {
      return Def(lookup[i].1);
    }
    return Get(lookup, Fallback);
  }

  /** What `case` returns: the entry under the input's own key is called when
      it is a function; else the entry of the first range containing the input
      is called (and throws when it is not a function); else
      `lookup._otherwise(input)`, which throws when there is no callable
      `_otherwise`. */
  function CaseValue<O>(lookup: Table<Entry<int, O>>, input: int): (r: Completion<O, Value>)
    ensures r.Threw? ==> r.thrown == NotAFunction
  {
    var own := Get(lookup, IntText(input));
    if own.Def? && own.value.Handler? then Normal(own.value.call(input))
    else if FirstRange(lookup, input) < |lookup| then Invoke(Def(lookup[FirstRange(lookup, input)].1), input)
    else Invoke(Get(lookup, Fallback), input)
  }

  /** `new MatchNumber(input).case(lookup)`. */
  method Case<O>(lookup: Table<Entry<int, O>>, input: int) returns (r: Completion<O, Value>)
    ensures r == CaseValue(lookup, input)
  {
    var own := Get(lookup, IntText(input));
    if own.Def? && own.value.Handler? {
      return Normal(own.value.call(input));
    }
    var i := ScanRanges(lookup, input);
    if i < |lookup| {
      return Invoke(Def(lookup[i].1), input);
    }
    return Invoke(Get(lookup, Fallback), input);
  }

  /** An exact key wins over every range, and the first range in key order
      that contains the input wins over later ones (overlaps included) and
      over `_otherwise`. */
  lemma WithPrecedence<O>(lookup: Table<O>, input: int, i: nat)
    ensures Has(lookup, IntText(input)) ==> WithValue(lookup, input) == Get(lookup, IntText(input))
    ensures (&& !Has(lookup, IntText(input)) && i < |lookup| && InRange(lookup[i].0, input)
             && (forall j :: 0 <= j < i ==> !InRange(lookup[j].0, input)))
            ==> WithValue(lookup, input) == Def(lookup[i].1)
  {
    if && !Has(lookup, IntText(input)) && i < |lookup| && InRange(lookup[i].0, input)
       && (forall j :: 0 <= j < i ==> !InRange(lookup[j].0, input)) {
      FirstRangeIs(lookup, input, i);
    }
  }

  /** With no exact key and no containing range, `with` returns `_otherwise`,
      or `undefined` without one: it never throws. */
  lemma WithFallsBack<O>(lookup: Table<O>, input: int)
    requires !Has(lookup, IntText(input))
    requires forall j :: 0 <= j < |lookup| ==> !InRange(lookup[j].0, input)
    ensures WithValue(lookup, input) == Get(lookup, Fallback)
    ensures !Has(lookup, Fallback) ==> WithValue(lookup, input) == Undef
  {
  }

  /** `case` falls back to calling `_otherwise` with the input, and throws
      exactly when `_otherwise` is missing or not a function. */
  lemma CaseFallsBack<O>(lookup: Table<Entry<int, O>>, input: int)
    requires !(Has(lookup, IntText(input)) && Get(lookup, IntText(input)).value.Handler?)
    requires forall j :: 0 <= j < |lookup| ==> !InRange(lookup[j].0, input)
    ensures CaseValue(lookup, input) == Invoke(Get(lookup, Fallback), input)
    ensures CaseValue(lookup, input).Threw? <==> !(Has(lookup, Fallback) && Get(lookup, Fallback).value.Handler?)
  {
  }

  /** With only functions in the table, `case` calls on the input exactly the
      entry `with` returns, and throws exactly when `with` gives `undefined`. */
  lemma CaseCallsWhatWithReturns<O>(lookup: Table<Entry<int, O>>, input: int)
    requires AllHandlers(lookup)
    ensures CaseValue(lookup, input) == Invoke(WithValue(lookup, input), input)
  {
    var own := Get(lookup, IntText(input));
    if own.Def? {
      assert lookup[IndexOf(lookup, IntText(input))].1.Handler?;
    }
  }

  /** The ultraviolet table of the tests, with its fallback. */
  const UvLookup := [("0", "No light"), ("1..3", "Low"), ("4..7", "Moderate"), ("8..10", "High"),
                     ("11..13", "Very high"), ("14..16", "Extreme"), ("_otherwise", "Out of range")]

  /** Its keys from "1..3" to "14..16" are the ranges written for their bounds. */
  lemma UvRangeKeys()
    ensures UvLookup[1].0 == RangeKey(1, 3) && UvLookup[2].0 == RangeKey(4, 7)
    ensures UvLookup[3].0 == RangeKey(8, 10) && UvLookup[4].0 == RangeKey(11, 13)
    ensures UvLookup[5].0 == RangeKey(14, 16)
  {
    assert NatText(10) == NatText(1) + [DigitChar(0)];
    assert NatText(11) == NatText(1) + [DigitChar(1)];
    assert NatText(13) == NatText(1) + [DigitChar(3)];
    assert NatText(14) == NatText(1) + [DigitChar(4)];
    assert NatText(16) == NatText(1) + [DigitChar(6)];
  }

  /** Its key "0" is the text of the input 0, and neither it nor the fallback
      is a range key. */
  lemma UvPlainKeys()
    ensures UvLookup[0].0 == IntText(0) && UvLookup[6].0 == Fallback
    ensures !IsRangeKey(UvLookup[0].0) && !IsRangeKey(UvLookup[6].0)
  {
    NoDotExcludes(UvLookup[0].0);
    NoDotExcludes(UvLookup[6].0);
  }

  /** 0 hits its own key, ahead of every range. */
  lemma UvZero()
    ensures WithValue(UvLookup, 0) == Def("No light")
  {
    UvPlainKeys();
    assert IndexOf(UvLookup, IntText(0)) == 0;
  }

  /** Only the key "0" is one character long. */
  lemma UvKeyLengths()
    ensures |UvLookup[0].0| == 1
    ensures forall j :: 1 <= j < |UvLookup| ==> |UvLookup[j].0| >= 4
  {
  }

  /** 1 to 3 fall in the first range, whose text none of them equals. */
  lemma UvLow(uv: int)
    requires 1 <= uv <= 3
    ensures WithValue(UvLookup, uv) == Def("Low")
  {
    UvPlainKeys();
    UvRangeKeys();
    UvKeyLengths();
    RangeKeyContains(1, 3, uv);
    assert !Has(UvLookup, IntText(uv)) by {
      assert |IntText(uv)| == 1;
      assert IntText(uv) != UvLookup[0].0 by {
        assert IntText(uv)[0] != '0';
      }
    }
    WithPrecedence(UvLookup, uv, 1);
  }

  /** No key of the table is the text of 17. */
  lemma UvNoKey17()
    ensures !Has(UvLookup, IntText(17))
  {
    assert |IntText(17)| == 2 by {
      assert NatText(17) == NatText(1) + [DigitChar(7)];
    }
    UvKeyLengths();
  }

  /** 17 lies in none of the five ranges of the table. */
  lemma UvNoRange17()
    ensures forall j :: 0 <= j < |UvLookup| ==> !InRange(UvLookup[j].0, 17)
  {
    UvPlainKeys();
    UvRangeKeys();
    RangeKeyContains(1, 3, 17);
    RangeKeyContains(4, 7, 17);
    RangeKeyContains(8, 10, 17);
    RangeKeyContains(11, 13, 17);
    RangeKeyContains(14, 16, 17);
    forall j | 0 <= j < |UvLookup| ensures !InRange(UvLookup[j].0, 17) {
      assert j == 0 || j == 1 || j == 2 || j == 3 || j == 4 || j == 5 || j == 6;
    }
  }

  /** 17 is in no range and has no key, so `_otherwise` answers. */
  lemma UvOutOfRange()
    ensures WithValue(UvLookup, 17) == Def("Out of range")
  {
    UvNoKey17();
    UvNoRange17();
    WithFallsBack(UvLookup, 17);
    UvPlainKeys();
    assert IndexOf(UvLookup, Fallback) == 6;
  }

  /** Overlapping ranges: the one declared first wins. */
  lemma OverlapFirstDeclared()
    ensures WithValue([(RangeKey(1, 5), "first"), (RangeKey(3, 8), "second")], 4) == Def("first")
  {
    var t := [(RangeKey(1, 5), "first"), (RangeKey(3, 8), "second")];
    RangeKeyContains(1, 5, 4);
    assert !Has(t, IntText(4)) by {
      assert IntText(4) == "4";
      RangeKeyContains(1, 5, 0);
      RangeKeyContains(3, 8, 0);
      assert IntText(4) != t[0].0 && IntText(4) != t[1].0 by {
        assert |IntText(4)| == 1;
        assert |t[0].0| >= 3 && |t[1].0| >= 3;
      }
    }
    WithPrecedence(t, 4, 0);
  }
}
