/** Decimal numerals and how texts built from them are taken apart again. */
module Decimals {

  function Digit(n: nat): char
    requires n < 16
  {
    "0123456789abcdef"[n]
  }

  function Unsigned(n: nat): string {
    if n < 10 then [Digit(n)] else Unsigned(n / 10) + [Digit(n % 10)]
  }

  lemma SplitEqual(p: string, q: string, x: string, y: string)
    requires |p| == |q| && p + x == q + y
    ensures p == q && x == y
  {
    assert (p + x)[..|p|] == p && (q + y)[..|p|] == q;
    assert (p + x)[|p|..] == x && (q + y)[|p|..] == y;
  }

  predicate IsDigit(c: char) { '0' <= c <= '9' }

  lemma {:induction false} UnsignedDigits(n: nat)
    ensures |Unsigned(n)| > 0 && forall i :: 0 <= i < |Unsigned(n)| ==> IsDigit(Unsigned(n)[i])
  {
    if n >= 10 { UnsignedDigits(n / 10); }
  }

  // ---- reading ----------------------------------------------------------------

  function ReadDigits(s: string): nat {
    if |s| == 0 then 0
    else 10 * ReadDigits(s[..|s| - 1]) + if IsDigit(s[|s| - 1]) then s[|s| - 1] as int - '0' as int else 0
  }

  lemma ReadMore(s: string, d: nat)
    requires d < 10
    ensures ReadDigits(s + [Digit(d)]) == 10 * ReadDigits(s) + d && IsDigit(Digit(d))
  {
    assert (s + [Digit(d)])[..|s|] == s;
  }

  /** A numeral is read as the number it was written for. */
  lemma {:induction false} UnsignedReads(n: nat)
    ensures ReadDigits(Unsigned(n)) == n
  {
    if n >= 10 {
      UnsignedReads(n / 10);
      ReadMore(Unsigned(n / 10), n % 10);
    } else {
      ReadMore("", n);
      assert "" + [Digit(n)] == [Digit(n)];
    }
  }

  // ---- numerals are different for different numbers ---------------------------

  lemma DigitInjective(d: nat, e: nat)
    requires d < 16 && e < 16 && Digit(d) == Digit(e)
    ensures d == e
  {
  }

  lemma UnsignedStep(n: nat, m: nat)
    requires n >= 10 && m >= 10 && Unsigned(n) == Unsigned(m)
    ensures Unsigned(n / 10) == Unsigned(m / 10) && Digit(n % 10) == Digit(m % 10)
  {
    SplitEqual(Unsigned(n / 10), Unsigned(m / 10), [Digit(n % 10)], [Digit(m % 10)]);
    assert [Digit(n % 10)][0] == [Digit(m % 10)][0];
  }

  lemma UnsignedLength(n: nat)
    ensures |Unsigned(n)| == 1 <==> n < 10
  {
    if n >= 10 { UnsignedDigits(n / 10); }
  }

  lemma {:induction false} UnsignedInjective(n: nat, m: nat)
    requires Unsigned(n) == Unsigned(m)
    ensures n == m
  {
    UnsignedLength(n);
    UnsignedLength(m);
    if n >= 10 {
      UnsignedStep(n, m);
      UnsignedInjective(n / 10, m / 10);
      DigitInjective(n % 10, m % 10);
    } else {
      assert [Digit(n)][0] == [Digit(m)][0];
      DigitInjective(n, m);
    }
  }

  function Number(n: int): string {
    if n < 0 then "-" + Unsigned(-n) else Unsigned(n)
  }

  /** Where the digits stop is where the separator stands. */
  lemma UnsignedThen(n: nat, m: nat, separator: char, x: string, y: string)
    requires !IsDigit(separator)
    requires Unsigned(n) + ([separator] + x) == Unsigned(m) + ([separator] + y)
    ensures n == m && x == y
  {
    UnsignedDigits(n);
    UnsignedDigits(m);
    var s, t := Unsigned(n) + ([separator] + x), Unsigned(m) + ([separator] + y);
    assert s[|Unsigned(n)|] == separator && t[|Unsigned(m)|] == separator;
    assert forall i :: 0 <= i < |Unsigned(n)| ==> IsDigit(s[i]);
    assert forall i :: 0 <= i < |Unsigned(m)| ==> IsDigit(t[i]);
    assert |Unsigned(n)| == |Unsigned(m)|;
    SplitEqual(Unsigned(n), Unsigned(m), [separator] + x, [separator] + y);
    SplitEqual([separator], [separator], x, y);
    UnsignedInjective(n, m);
  }

  lemma WithoutFirst(c: char, u: string, x: string)
    ensures (([c] + u) + x)[0] == c && (([c] + u) + x)[1..] == u + x
  {
  }

  /** A minus sign in front, or a digit. */
  lemma NumberHead(n: int, x: string)
    ensures |Number(n)| > 0 && ((Number(n) + x)[0] == '-' <==> n < 0)
    ensures n < 0 ==> (Number(n) + x)[1..] == Unsigned(-n) + x
  {
    if n < 0 {
      WithoutFirst('-', Unsigned(-n), x);
    } else {
      UnsignedDigits(n);
      assert (Number(n) + x)[0] == Number(n)[0];
    }
  }

  function Magnitude(n: int): nat { if n < 0 then -n else n }

  lemma NumberSigns(n: int, m: int, s: string, t: string)
    requires Number(n) + s == Number(m) + t
    ensures n < 0 <==> m < 0
    ensures Unsigned(Magnitude(n)) + s == Unsigned(Magnitude(m)) + t
  {
    NumberHead(n, s);
    NumberHead(m, t);
  }

  lemma NumberThen(n: int, m: int, separator: char, x: string, y: string)
    requires !IsDigit(separator)
    requires Number(n) + ([separator] + x) == Number(m) + ([separator] + y)
    ensures n == m && x == y
  {
    NumberSigns(n, m, [separator] + x, [separator] + y);
    UnsignedThen(Magnitude(n), Magnitude(m), separator, x, y);
  }
}
