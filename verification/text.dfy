/** Text facts the store and the cache keys depend on: the code-point order
    SQLite uses to sort observation dates, and Python's `str()` of an integer
    as it appears inside cache keys. */
module Text {

  /** `a <= b` in code-point lexicographic order (SQLite's BINARY collation on
      UTF-8 text orders strings the same way). */
  predicate LexLe(a: string, b: string)
    decreases |a|
  {
    |a| == 0 || (|b| > 0 && (a[0] < b[0] || (a[0] == b[0] && LexLe(a[1..], b[1..]))))
  }

  lemma {:induction false} LexLeReflexive(a: string)
    ensures LexLe(a, a)
    decreases |a|
  {
    if |a| > 0 {
      LexLeReflexive(a[1..]);
    }
  }

  lemma {:induction false} LexLeTotal(a: string, b: string)
    ensures LexLe(a, b) || LexLe(b, a)
    decreases |a|
  {
    if |a| > 0 && |b| > 0 && a[0] == b[0] {
      LexLeTotal(a[1..], b[1..]);
    }
  }

  lemma {:induction false} LexLeTransitive(a: string, b: string, c: string)
    requires LexLe(a, b) && LexLe(b, c)
    ensures LexLe(a, c)
    decreases |a|
  {
    if |a| > 0 && a[0] == b[0] && b[0] == c[0] {
      LexLeTransitive(a[1..], b[1..], c[1..]);
    }
  }

  lemma {:induction false} LexLeAntisymmetric(a: string, b: string)
    requires LexLe(a, b) && LexLe(b, a)
    ensures a == b
    decreases |a|
  {
    if |a| > 0 {
      LexLeAntisymmetric(a[1..], b[1..]);
      assert a == [a[0]] + a[1..];
      assert b == [b[0]] + b[1..];
    }
  }

  predicate IsDigit(c: char) {
    '0' <= c <= '9'
  }

  predicate AllDigits(s: string) {
    forall i | 0 <= i < |s| :: IsDigit(s[i])
  }

  function DigitChar(d: nat): (c: char)
    requires d < 10
    ensures IsDigit(c) && c as int - '0' as int == d
  {
    ('0' as int + d) as char
  }

  /** Decimal digits of `n` without leading zeros (Python's `str` of a
      non-negative `int`). */
  function NatToString(n: nat): (s: string)
    ensures |s| > 0 && AllDigits(s)
    ensures n < 10 <==> |s| == 1
    decreases n
  {
    if n < 10 then [DigitChar(n)] else NatToString(n / 10) + [DigitChar(n % 10)]
  }

  /** The number a string of decimal digits denotes. */
  function DigitsValue(s: string): nat
    requires AllDigits(s)
    decreases |s|
  {
    if |s| == 0 then 0 else DigitsValue(s[..|s| - 1]) * 10 + DigitValue(s[|s| - 1])
  }

  function DigitValue(c: char): nat
    requires IsDigit(c)
  {
    c as int - '0' as int
  }

  /** Python's `str(i)` for an `int`: a minus sign for negatives, then digits. */
  function IntToString(i: int): string {
    if i < 0 then "-" + NatToString(-i) else NatToString(i)
  }

  /** Reads back the text `IntToString` writes. */
  function ParseInt(s: string): int
    requires |s| > 0
    requires if s[0] == '-' then AllDigits(s[1..]) else AllDigits(s)
  {
    if s[0] == '-' then -(DigitsValue(s[1..]) as int) else DigitsValue(s)
  }

  lemma {:induction false} NatToStringRoundTrip(n: nat)
    ensures DigitsValue(NatToString(n)) == n
    decreases n
  {
    if n >= 10 {
      NatToStringRoundTrip(n / 10);
      var s := NatToString(n);
      assert s[..|s| - 1] == NatToString(n / 10);
    }
  }

  /** Reading the decimal text of an integer gives the integer back. */
  lemma IntToStringRoundTrip(i: int)
    ensures |IntToString(i)| > 0
    ensures IntToString(i)[0] == '-' <==> i < 0
    ensures ParseInt(IntToString(i)) == i
  {
    var s := IntToString(i);
    if i < 0 {
      NatToStringRoundTrip(-i);
      assert s[1..] == NatToString(-i);
    } else {
      NatToStringRoundTrip(i);
      assert IsDigit(s[0]);
    }
  }

  /** Distinct integers print differently, so an integer embedded in a cache
      key can be recovered from it. */
  lemma IntToStringInjective(a: int, b: int)
    ensures IntToString(a) == IntToString(b) <==> a == b
  {
    if IntToString(a) == IntToString(b) {
      IntToStringRoundTrip(a);
      IntToStringRoundTrip(b);
    }
  }

  /** The printed form of an integer never contains an underscore, the
      separator cache keys use. */
  lemma IntToStringHasNoUnderscore(i: int)
    ensures '_' !in IntToString(i)
  {
    var s := IntToString(i);
    if i < 0 {
      assert s == "-" + NatToString(-i);
      assert forall k | 1 <= k < |s| :: s[k] == NatToString(-i)[k - 1];
    }
  }

  /** Position of the first underscore of `s`, or `|s|` when there is none. */
  function UnderscoreAt(s: string): (k: nat)
    ensures k <= |s|
  {
    if |s| == 0 || s[0] == '_' then 0 else 1 + UnderscoreAt(s[1..])
  }

  lemma {:induction false} WordEndsAtUnderscore(x: string, t: string)
    requires '_' !in x
    requires |t| == 0 || t[0] == '_'
    ensures UnderscoreAt(x + t) == |x|
    decreases |x|
  {
    if |x| == 0 {
      assert x + t == t;
    } else {
      assert (x + t)[0] == x[0];
      assert (x + t)[1..] == x[1..] + t;
      WordEndsAtUnderscore(x[1..], t);
    }
  }

  /** Two underscore-free words followed by tails that are empty or begin
      with an underscore can only be equal word by word: the first underscore
      marks where the word ends. */
  lemma SplitAtUnderscore(x: string, t: string, y: string, u: string)
    requires '_' !in x && '_' !in y
    requires |t| == 0 || t[0] == '_'
    requires |u| == 0 || u[0] == '_'
    requires x + t == y + u
    ensures x == y && t == u
  {
    WordEndsAtUnderscore(x, t);
    WordEndsAtUnderscore(y, u);
    assert x == (x + t)[..|x|];
    assert y == (y + u)[..|y|];
    assert t == (x + t)[|x|..];
    assert u == (y + u)[|y|..];
  }

  /** A common prefix can be cancelled. */
  lemma CancelPrefix(p: string, a: string, b: string)
    requires p + a == p + b
    ensures a == b
  {
    assert a == (p + a)[|p|..];
    assert b == (p + b)[|p|..];
  }
}
