/** Decimal numerals as strconv writes them, and what makes them safe to parse back. */
module Decimal {

  predicate IsDigit(c: char) {
    '0' <= c <= '9'
  }

  function Digit(n: nat): (c: char)
    requires n < 10
    ensures IsDigit(c)
  {
    ('0' as int + n) as char
  }

  function DigitValue(c: char): (n: nat)
    requires IsDigit(c)
    ensures n < 10 && Digit(n) == c
  {
    c as int - '0' as int
  }

  predicate AllDigits(s: string) {
    forall i :: 0 <= i < |s| ==> IsDigit(s[i])
  }

  /** The canonical numeral of `n`: no sign, no leading zero. */
  function NatStr(n: nat): (s: string)
    ensures s != "" && AllDigits(s)
    ensures |s| > 1 ==> s[0] != '0'
    ensures n > 0 ==> s[0] != '0'
  {
    if n < 10 then [Digit(n)] else NatStr(n / 10) + [Digit(n % 10)]
  }

  /** The number a string of digits stands for, leading zeros and all. */
  function NatVal(s: string): nat
    requires AllDigits(s)
  {
    if s == "" then 0 else NatVal(s[..|s| - 1]) * 10 + DigitValue(s[|s| - 1])
  }

  lemma {:induction false} ValueOfNumeral(n: nat)
    ensures NatVal(NatStr(n)) == n
  {
    if n < 10 {
      assert NatStr(n)[..0] == "";
    } else {
      ValueOfNumeral(n / 10);
      var s := NatStr(n);
      assert s[..|s| - 1] == NatStr(n / 10);
    }
  }

  /** A digit string without a leading zero is the numeral of its own value. */
  lemma {:induction false} NumeralOfValue(s: string)
    requires s != "" && AllDigits(s) && (|s| > 1 ==> s[0] != '0')
    ensures NatStr(NatVal(s)) == s
    ensures |s| > 1 ==> NatVal(s) >= 10
    decreases |s|
  {
    var p, c := s[..|s| - 1], s[|s| - 1];
    assert s == p + [c];
    if |s| == 1 {
      OneDigit(c);
    } else {
      NumeralOfValue(p);
      LeadingDigit(p);
      assert NatVal(s) == NatVal(p) * 10 + DigitValue(c);
      AppendDigit(NatVal(p), DigitValue(c));
    }
  }

  lemma OneDigit(c: char)
    requires IsDigit(c)
    ensures NatVal([c]) == DigitValue(c) && NatStr(DigitValue(c)) == [c]
  {
    assert [c][..0] == "";
  }

  /** A numeral that starts with another digit than 0 is not zero. */
  lemma LeadingDigit(s: string)
    requires s != "" && AllDigits(s) && s[0] != '0' && (|s| > 1 ==> NatVal(s) >= 10)
    ensures NatVal(s) > 0
  {
    if |s| == 1 {
      assert s == [s[0]];
      OneDigit(s[0]);
    }
  }

  lemma AppendDigit(n: nat, d: nat)
    requires n > 0 && d < 10
    ensures NatStr(n * 10 + d) == NatStr(n) + [Digit(d)] && n * 10 + d >= 10
  {
    assert (n * 10 + d) / 10 == n && (n * 10 + d) % 10 == d;
  }

  function IntStr(i: int): (s: string)
    ensures s != "" && (s[0] == '-' || IsDigit(s[0]))
  {
    if i < 0 then "-" + NatStr(-i) else NatStr(i)
  }

  /** What may follow a numeral without extending it. */
  predicate EndsNumeral(x: string) {
    x == "" || !IsDigit(x[0])
  }

  lemma DigitsSplit(a: string, x: string, b: string, y: string)
    requires AllDigits(a) && AllDigits(b) && EndsNumeral(x) && EndsNumeral(y) && a + x == b + y
    ensures a == b && x == y
  {
    NoLongerNumeral(a, x, b, y);
    NoLongerNumeral(b, y, a, x);
    SameSplit(a, x, b, y);
  }

  lemma NoLongerNumeral(a: string, x: string, b: string, y: string)
    requires AllDigits(b) && EndsNumeral(x) && a + x == b + y
    ensures |b| <= |a|
  {
    var s := a + x;
    assert x != "" ==> s[|a|] == x[0];
    assert forall i :: 0 <= i < |b| ==> (b + y)[i] == b[i];
  }

  lemma SameSplit(a: string, x: string, b: string, y: string)
    requires a + x == b + y && |a| == |b|
    ensures a == b && x == y
  {
    assert a == (a + x)[..|a|] && b == (b + y)[..|b|];
    assert x == (a + x)[|a|..] && y == (b + y)[|b|..];
  }

  lemma NatSplit(m: nat, x: string, n: nat, y: string)
    requires EndsNumeral(x) && EndsNumeral(y) && NatStr(m) + x == NatStr(n) + y
    ensures m == n && x == y
  {
    DigitsSplit(NatStr(m), x, NatStr(n), y);
    ValueOfNumeral(m);
    ValueOfNumeral(n);
  }

  lemma IntSplit(m: int, x: string, n: int, y: string)
    requires EndsNumeral(x) && EndsNumeral(y) && IntStr(m) + x == IntStr(n) + y
    ensures m == n && x == y
  {
    assert (IntStr(m) + x)[0] == IntStr(m)[0] && (IntStr(n) + y)[0] == IntStr(n)[0];
    assert m < 0 <==> n < 0;
    if m < 0 {
      NegSplit(NatStr(-m), x, NatStr(-n), y);
      NatSplit(-m, x, -n, y);
    } else {
      NatSplit(m, x, n, y);
    }
  }

  lemma NegSplit(a: string, x: string, b: string, y: string)
    requires ("-" + a) + x == ("-" + b) + y
    ensures a + x == b + y
  {
    assert (("-" + a) + x)[1..] == a + x;
    assert (("-" + b) + y)[1..] == b + y;
  }
}
