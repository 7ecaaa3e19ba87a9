/** The string operations the match engines rely on: the decimal text of an
    integer (`String(n)`, which is also the property key a number becomes),
    `parseFloat` on integer text, `includes` and `split`. */
module Text {
  import opened Js

  predicate IsDigit(c: char) { '0' <= c <= '9' }

  predicate AllDigits(s: string) { forall i :: 0 <= i < |s| ==> IsDigit(s[i]) }

  /** No character of `s` is a dot, so `s` cannot hold the range separator. */
  predicate NoDot(s: string) { forall i :: 0 <= i < |s| ==> s[i] != '.' }

  function DigitChar(d: nat): (c: char)
    requires d < 10
    ensures IsDigit(c) && c as int - '0' as int == d
  {
    (d + '0' as int) as char
  }

  /** The decimal digits of `n`, most significant first, without leading zeros. */
  function NatText(n: nat): (s: string)
    ensures |s| > 0 && AllDigits(s)
    decreases n
  {
    if n < 10 then [DigitChar(n)] else NatText(n / 10) + [DigitChar(n % 10)]
  }

  /** `String(n)` for an integer `n`. */
  function IntText(n: int): (s: string)
    ensures |s| > 0 && NoDot(s)
  {
    if n < 0 then "-" + NatText(-n) else NatText(n)
  }

  /** The number a run of decimal digits denotes. */
  function DigitsValue(s: string): nat
    requires AllDigits(s)
    decreases |s|
  {
    if |s| == 0 then 0
    else
      DigitsValue(s[..|s| - 1]) * 10 + (s[|s| - 1] as int - '0' as int)
  }

  /** Reading back the digits of `n` gives `n`. */
  lemma {:induction false} NatTextValue(n: nat)
    ensures DigitsValue(NatText(n)) == n
    decreases n
  {
    if n >= 10 {
      NatTextValue(n / 10);
      var s := NatText(n);
      assert s[..|s| - 1] == NatText(n / 10);
    }
  }

  /** Distinct naturals have distinct decimal texts (array indices give distinct keys). */
  lemma NatTextInjective()
    ensures forall m: nat, n: nat :: NatText(m) == NatText(n) ==> m == n
  {
    forall m: nat, n: nat | NatText(m) == NatText(n) ensures m == n {
      NatTextValue(m);
      NatTextValue(n);
    }
  }

  /** The white space `parseFloat` skips (the ASCII part of it). */
  predicate IsSpace(c: char) { c == ' ' || c == '\t' || c == '\n' || c == '\r' }

  /** The number of leading white-space characters of `s`. */
  function SpacePrefix(s: string): (k: nat)
    ensures k <= |s|
    ensures forall i :: 0 <= i < k ==> IsSpace(s[i])
    ensures k < |s| ==> !IsSpace(s[k])
    decreases |s|
  {
    if |s| > 0 && IsSpace(s[0]) then 1 + SpacePrefix(s[1..]) else 0
  }

  /** The number of leading digits of `s`. */
  function DigitPrefix(s: string): (k: nat)
    ensures k <= |s|
    ensures AllDigits(s[..k])
    ensures k < |s| ==> !IsDigit(s[k])
    decreases |s|
  {
    if |s| > 0 && IsDigit(s[0]) then
      var k := 1 + DigitPrefix(s[1..]);
      assert s[..k] == [s[0]] + s[1..][..k - 1];
      k
    else 0
  }

  /** `parseFloat(s)` as far as integer text goes: leading white space is
      skipped, an optional sign is read, then the longest run of digits; text
      with no digit there gives `NaN`. */
  function ParseFloat(s: string): (r: Value)
    ensures r.Num? || r.NaN?
  {
    var t := s[SpacePrefix(s)..];
    var negative := |t| > 0 && t[0] == '-';
    var u := if |t| > 0 && (t[0] == '-' || t[0] == '+') then t[1..] else t;
    var k := DigitPrefix(u);
    if k == 0 then NaN
    else if negative then Num(-(DigitsValue(u[..k]) as int))
    else Num(DigitsValue(u[..k]))
  }

  /** `parseFloat(String(n)) === n` for every integer `n`. */
  lemma ParseIntText(n: int)
    ensures ParseFloat(IntText(n)) == Num(n)
  {
    var s := IntText(n);
    var m: nat := if n < 0 then -n else n;
    var u := NatText(m);
    assert IsDigit(u[0]);
    assert SpacePrefix(s) == 0;
    assert s[0..] == s;
    if n < 0 {
      assert s[1..] == u;
    }
    assert DigitPrefix(u) == |u|;
    assert u[..|u|] == u;
    NatTextValue(m);
  }

  /** `s.includes(sub)`. */
  predicate Includes(s: string, sub: string)
    decreases |s|
  {
    |sub| <= |s| && (s[..|sub|] == sub || (|s| > 0 && Includes(s[1..], sub)))
  }

  /** `s.split(sep)` for a non-empty separator: the pieces between the
      non-overlapping occurrences of `sep`, found from left to right. */
  function Split(s: string, sep: string): (pieces: seq<string>)
    requires |sep| > 0
    ensures |pieces| >= 1
    decreases |s|
  {
    if |s| < |sep| then [s]
    else if s[..|sep|] == sep then [""] + Split(s[|sep|..], sep)
    else
      var rest := Split(s[1..], sep);
      [[s[0]] + rest[0]] + rest[1..]
  }

  /** Text that includes the separator splits into at least two pieces, so
      `const [min, max] = key.split('..')` binds both names to strings. */
  lemma {:induction false} SplitIncluded(s: string, sep: string)
    requires |sep| > 0 && Includes(s, sep)
    ensures |Split(s, sep)| >= 2
    decreases |s|
  {
    if s[..|sep|] != sep {
      SplitIncluded(s[1..], sep);
    }
  }

  /** Text without a dot splits on ".." into itself alone. */
  lemma {:induction false} SplitNoDot(s: string)
    requires NoDot(s)
    ensures Split(s, "..") == [s]
    decreases |s|
  {
    if |s| >= 2 {
      assert s[..2] != ".." by { assert s[..2][0] == s[0]; }
      SplitNoDot(s[1..]);
      assert [s[0]] + s[1..] == s;
    }
  }

  /** A dot-free first piece is cut off at the first "..". */
  lemma {:induction false} SplitAfter(a: string, rest: string)
    requires NoDot(a)
    ensures Split(a + ".." + rest, "..") == [a] + Split(rest, "..")
    decreases |a|
  {
    var s := a + ".." + rest;
    if |a| == 0 {
      assert s == ".." + rest;
      assert s[..2] == "..";
      assert s[2..] == rest;
    } else {
      assert s[..2] != ".." by { assert s[..2][0] == a[0]; }
      SplitAfter(a[1..], rest);
      assert s[1..] == a[1..] + ".." + rest;
      assert [s[0]] + a[1..] == a;
    }
  }

  /** Text without a dot does not include "..". */
  lemma {:induction false} NoDotExcludes(s: string)
    requires NoDot(s)
    ensures !Includes(s, "..")
    decreases |s|
  {
    if |s| >= 2 {
      assert s[..2] != ".." by { assert s[..2][0] == s[0]; }
      NoDotExcludes(s[1..]);
    }
  }

  /** `(a + sep + b).includes(sep)`. */
  lemma {:induction false} IncludesJoined(a: string, sep: string, b: string)
    ensures Includes(a + sep + b, sep)
    decreases |a|
  {
    var s := a + sep + b;
    if |a| == 0 {
      assert s[..|sep|] == sep;
    } else {
      IncludesJoined(a[1..], sep, b);
      assert s[1..] == a[1..] + sep + b;
    }
  }
}
