/** Go's `fmt.Sprintf("%d", n)` for the integer-valued enums printed in the
    "Unknown (...)" labels, together with a decimal reader that inverts it. */
module Decimal {

  predicate IsDigit(c: char)
  {
    '0' <= c <= '9'
  }

  function DigitChar(d: nat): (c: char)
    requires d < 10
    ensures IsDigit(c)
  {
    (('0' as int) + d) as char
  }

  function DigitValue(c: char): (d: nat)
    requires IsDigit(c)
    ensures d < 10
  {
    (c as int) - ('0' as int)
  }

  /** Decimal digits of `n`, most significant first, with no leading zero. */
  function FormatNat(n: nat): (r: string)
    ensures |r| >= 1
    ensures forall i :: 0 <= i < |r| ==> IsDigit(r[i])
    ensures r[0] == '0' <==> n == 0
  {
    if n < 10 then [DigitChar(n)] else FormatNat(n / 10) + [DigitChar(n % 10)]
  }

  /** `%d`: a minus sign for negative values, then the digits of the magnitude. */
  function FormatInt(n: int): (r: string)
    ensures |r| >= 1
    ensures r[0] == '-' <==> n < 0
    ensures forall i :: 1 <= i < |r| ==> IsDigit(r[i])
    ensures n >= 0 ==> (r[0] == '0' <==> n == 0)
    ensures n < 0 ==> |r| >= 2 && r[1] != '0'
    ensures CanonicalInt(r)
  {
    if n < 0 then "-" + FormatNat(-n) else FormatNat(n)
  }

  /** The strings `%d` can print: a digit string without a leading zero (or
      exactly "0"), optionally after a minus sign ("-0" is not among them). */
  predicate CanonicalNat(s: string)
  {
    |s| >= 1 && (forall i :: 0 <= i < |s| ==> IsDigit(s[i])) && (s[0] == '0' ==> s == "0")
  }

  predicate CanonicalInt(s: string)
  {
    CanonicalNat(s) || (|s| >= 2 && s[0] == '-' && CanonicalNat(s[1..]) && s[1] != '0')
  }

  function ParseNat(s: string): nat
    requires forall i :: 0 <= i < |s| ==> IsDigit(s[i])
  {
    if s == [] then 0 else ParseNat(s[..|s| - 1]) * 10 + DigitValue(s[|s| - 1])
  }

  function ParseInt(s: string): int
    requires |s| >= 1
    requires forall i :: 1 <= i < |s| ==> IsDigit(s[i])
    requires s[0] == '-' || IsDigit(s[0])
  {
    if s[0] == '-' then -(ParseNat(s[1..]) as int) else ParseNat(s)
  }

  lemma {:induction false} ParseFormatNat(n: nat)
    ensures ParseNat(FormatNat(n)) == n
  {
    if n >= 10 {
      var r := FormatNat(n);
      assert r[..|r| - 1] == FormatNat(n / 10);
      ParseFormatNat(n / 10);
    }
  }

  /** A digit string that starts with a non-zero digit reads as a positive value. */
  lemma {:induction false} ParseNatPositive(s: string)
    requires |s| >= 1 && forall i :: 0 <= i < |s| ==> IsDigit(s[i])
    requires s[0] != '0'
    ensures ParseNat(s) >= 1
  {
    if |s| > 1 {
      ParseNatPositive(s[..|s| - 1]);
    }
  }

  lemma DivModDigit(q: nat, d: nat)
    requires d < 10
    ensures (q * 10 + d) / 10 == q && (q * 10 + d) % 10 == d
  {
  }

  /** Printing what was read back from a canonical digit string gives that string. */
  lemma {:induction false} FormatParseNat(s: string)
    requires CanonicalNat(s)
    ensures FormatNat(ParseNat(s)) == s
  {
    if |s| > 1 {
      var p := s[..|s| - 1];
      ParseNatPositive(p);
      FormatParseNat(p);
      var d := DigitValue(s[|s| - 1]);
      var n := ParseNat(p) * 10 + d;
      assert ParseNat(s) == n;
      DivModDigit(ParseNat(p), d);
      assert FormatNat(n) == FormatNat(ParseNat(p)) + [DigitChar(d)];
      assert s == p + [s[|s| - 1]];
    } else {
      assert s == [DigitChar(DigitValue(s[0]))];
    }
  }

  /** `%d` prints exactly the canonical decimal strings: every canonical string
      is the printing of the value it reads as. */
  lemma FormatParseInt(s: string)
    requires CanonicalInt(s)
    ensures FormatInt(ParseInt(s)) == s
  {
    if s[0] == '-' {
      ParseNatPositive(s[1..]);
      FormatParseNat(s[1..]);
      assert s == "-" + s[1..];
    } else {
      FormatParseNat(s);
    }
  }

  /** Reading back what `%d` printed gives the printed value. */
  lemma ParseFormatInt(n: int)
    ensures ParseInt(FormatInt(n)) == n
  {
    var r := FormatInt(n);
    if n < 0 {
      assert r[1..] == FormatNat(-n);
      ParseFormatNat(-n);
    } else {
      ParseFormatNat(n);
    }
  }

  /** Distinct integers print differently. */
  lemma FormatIntInjective(a: int, b: int)
    requires FormatInt(a) == FormatInt(b)
    ensures a == b
  {
    ParseFormatInt(a);
    ParseFormatInt(b);
  }

  /** `prefix + %d + ")"` labels (the "Unknown (n)" family) identify `n`. */
  lemma WrappedInjective(prefix: string, a: int, b: int)
    requires prefix + FormatInt(a) + ")" == prefix + FormatInt(b) + ")"
    ensures a == b
  {
    var x, y := prefix + FormatInt(a) + ")", prefix + FormatInt(b) + ")";
    assert x[|prefix|..|x| - 1] == FormatInt(a);
    assert y[|prefix|..|y| - 1] == FormatInt(b);
    FormatIntInjective(a, b);
  }
}
