/** Decimal text: what `printf` writes for `%d`, `%.0f` and `%.3f`, and what Python's `float()`
    reads back from a run of digits and dots.  A printed measurement is a natural number of
    thousandths, so nothing here depends on how a `double` rounds. */
module Decimals {
  import opened Runs
  import opened Patterns

  /** The number `mantissa / 10^scale`. */
  datatype Number = Number(mantissa: nat, scale: nat)

  function DigitChar(d: nat): char
    requires d < 10
  {
    ['0', '1', '2', '3', '4', '5', '6', '7', '8', '9'][d]
  }

  function DigitValue(c: char): nat
    requires IsDigit(c)
  {
    c as int - '0' as int
  }

  /** `%d` of a non-negative number, and `%.0f` of a whole one. */
  function PrintNat(n: nat): (s: string)
    ensures s != "" && AllIn(Digits, s)
  {
    if n < 10 then [DigitChar(n)] else PrintNat(n / 10) + [DigitChar(n % 10)]
  }

  /** `%ld`. */
  function PrintLong(n: int): string {
    if n < 0 then "-" + PrintNat(-n) else PrintNat(n)
  }

  /** The three decimals of `t` thousandths. */
  function Fraction(t: nat): (s: string)
    ensures |s| == 3 && AllIn(Digits, s)
  {
    [DigitChar(t % 1000 / 100), DigitChar(t % 1000 % 100 / 10), DigitChar(t % 1000 % 100 % 10)]
  }

  /** `%.3f` of `t` thousandths. */
  function PrintThousandths(t: nat): (s: string)
    ensures s != "" && AllIn(Numeric, s)
  {
    PrintNat(t / 1000) + "." + Fraction(t)
  }

  /** `int()` of a string of digits. */
  function NatValue(s: string): nat
    requires AllIn(Digits, s)
  {
    if s == "" then 0 else 10 * NatValue(s[..|s| - 1]) + DigitValue(s[|s| - 1])
  }

  /** `float()` of a run of digits and dots: `None` where Python raises ValueError, which is on
      two dots or more and on no digit at all. */
  function ReadFloat(s: string): Option<Number> {
    var k := Span(Digits, s);
    var fraction := if k == |s| then "" else s[k + 1..];
    if k < |s| && s[k] != '.' then None
    else if Span(Digits, fraction) != |fraction| || |s[..k] + fraction| == 0 then None
    else Some(Number(NatValue(s[..k] + fraction), |fraction|))
  }

  lemma {:induction false} ReadPrintedNat(n: nat)
    ensures NatValue(PrintNat(n)) == n
  {
    if n >= 10 {
      ReadPrintedNat(n / 10);
      assert PrintNat(n)[..|PrintNat(n)| - 1] == PrintNat(n / 10);
    }
  }

  lemma ReadFloatOfNat(n: nat)
    ensures ReadFloat(PrintNat(n)) == Some(Number(n, 0))
  {
    var s := PrintNat(n);
    SpanIs(Digits, s, "");
    assert s + "" == s == s[..|s|] + "";
    ReadPrintedNat(n);
  }

  lemma NatValueAppend(s: string, d: nat)
    requires AllIn(Digits, s) && d < 10
    ensures AllIn(Digits, s + [DigitChar(d)]) && NatValue(s + [DigitChar(d)]) == 10 * NatValue(s) + d
  {
    assert (s + [DigitChar(d)])[..|s|] == s;
  }

  lemma NatValueOfFraction(whole: string, t: nat)
    requires AllIn(Digits, whole)
    ensures AllIn(Digits, whole + Fraction(t)) && NatValue(whole + Fraction(t)) == 1000 * NatValue(whole) + t % 1000
  {
    NatValueAppend3(whole, t % 1000 / 100, t % 1000 % 100 / 10, t % 1000 % 100 % 10);
  }

  lemma NatValueAppend3(whole: string, a: nat, b: nat, c: nat)
    requires AllIn(Digits, whole) && a < 10 && b < 10 && c < 10
    ensures var s := whole + [DigitChar(a), DigitChar(b), DigitChar(c)];
            AllIn(Digits, s) && NatValue(s) == 1000 * NatValue(whole) + 100 * a + 10 * b + c
  {
    var x := whole + [DigitChar(a)];
    var y := x + [DigitChar(b)];
    NatValueAppend(whole, a);
    NatValueAppend(x, b);
    NatValueAppend(y, c);
    assert whole + [DigitChar(a), DigitChar(b), DigitChar(c)] == y + [DigitChar(c)];
  }

  /** What `%.3f` printed, `float()` reads back exactly. */
  lemma ReadFloatOfThousandths(t: nat)
    ensures ReadFloat(PrintThousandths(t)) == Some(Number(t, 3))
  {
    var whole, fraction := PrintNat(t / 1000), Fraction(t);
    var s := PrintThousandths(t);
    assert s == whole + ("." + fraction);
    SpanIs(Digits, whole, "." + fraction);
    assert s[..|whole|] == whole && s[|whole| + 1..] == fraction;
    SpanIs(Digits, fraction, "");
    assert fraction + "" == fraction;
    ReadPrintedNat(t / 1000);
    NatValueOfFraction(whole, t);
  }

  // ----- The digits themselves -----

  function Power10(k: nat): (p: nat)
    ensures p > 0
  {
    if k == 0 then 1 else 10 * Power10(k - 1)
  }

  lemma DigitCharIs(d: nat)
    requires d < 10
    ensures DigitChar(d) as int == '0' as int + d
  {
  }

  lemma DivideTwice(n: nat, p: nat)
    requires p > 0
    ensures n / 10 / p == n / (10 * p)
  {
    var q, r := n / (10 * p), n % (10 * p);
    assert n == q * (10 * p) + r == 10 * (q * p) + r;
    assert n / 10 == q * p + r / 10;
    DivideUnder(q, p, r / 10);
  }

  lemma DivideUnder(q: nat, p: nat, r: nat)
    requires r < p
    ensures (q * p + r) / p == q
  {
    var x := q * p + r;
    var m := x / p;
    assert m * p <= x < m * p + p;
    if m < q {
      Multiples(m + 1, q, p);
    } else if m > q {
      Multiples(q + 1, m, p);
    }
  }

  lemma Multiples(a: nat, b: nat, p: nat)
    requires a <= b
    ensures a * p <= b * p
  {
  }

  /** Position k from the right of a printed number holds its k-th decimal digit, and there are just enough
      positions. */
  lemma {:induction false} PrintedDigits(n: nat, k: nat)
    requires k < |PrintNat(n)|
    ensures PrintNat(n)[|PrintNat(n)| - 1 - k] as int == '0' as int + n / Power10(k) % 10
    decreases k
  {
    DigitCharIs(n % 10);
    if k > 0 {
      var p := PrintNat(n / 10);
      assert PrintNat(n)[|PrintNat(n)| - 1 - k] == p[|p| - 1 - (k - 1)];
      PrintedDigits(n / 10, k - 1);
      DivideTwice(n, Power10(k - 1));
    }
  }

  lemma {:induction false} PrintedLength(n: nat)
    ensures n < Power10(|PrintNat(n)|) && (n >= 10 ==> Power10(|PrintNat(n)| - 1) <= n)
  {
    if n >= 10 {
      PrintedLength(n / 10);
      if n < 100 { assert |PrintNat(n / 10)| == 1 && Power10(0) == 1; }
    }
  }

  /** Four parts of a number, from the digits on. */
  lemma DigitsOf(t: nat, a: nat, b: nat, c: nat, d: nat)
    requires t == 1000 * a + 100 * b + 10 * c + d && b < 10 && c < 10 && d < 10
    ensures t / 100 == 10 * a + b && t / 10 == 100 * a + 10 * b + c
    ensures t / 100 % 10 == b && t / 10 % 10 == c && t % 10 == d
  {
  }

  /** The text of a measurement: whole microseconds, a dot, three digits. */
  lemma PrintedThousandths(t: nat)
    ensures var f := Fraction(t);
            && PrintThousandths(t) == PrintNat(t / 1000) + ("." + f)
            && f[0] as int == '0' as int + t / 100 % 10
            && f[1] as int == '0' as int + t / 10 % 10
            && f[2] as int == '0' as int + t % 10
  {
    DigitCharIs(t % 1000 / 100);
    DigitCharIs(t % 1000 % 100 / 10);
    DigitCharIs(t % 1000 % 100 % 10);
    DigitsOf(t, t / 1000, t % 1000 / 100, t % 1000 % 100 / 10, t % 1000 % 100 % 10);
  }

  /** When `float()` raises, exactly, on what the parser's groups can capture: on two dots, or on no digit. */
  lemma ReadFloatRaises(s: string)
    requires AllIn(Numeric, s)
    ensures ReadFloat(s).None? <==>
              (exists i, j :: 0 <= i < j < |s| && s[i] == '.' == s[j]) || (forall i :: 0 <= i < |s| ==> s[i] == '.')
  {
    var k := Span(Digits, s);
    assert forall i :: 0 <= i < k ==> s[..k][i] == s[i];
    if k < |s| {
      var fraction := s[k + 1..];
      var m := Span(Digits, fraction);
      assert s[k] == '.';
      assert forall i :: 0 <= i < m ==> fraction[..m][i] == s[k + 1 + i];
      if m < |fraction| { assert fraction[m] == s[k + 1 + m] == '.'; }
    }
  }
}
