/** Decimal rendering of natural numbers, as a JavaScript template literal
    renders them below 10^21 (from there on JavaScript switches to exponent
    form, which no game value reaches), together with its inverse. Identifiers such as
    `multiply-3-4` and `block-7` are built from these renderings. */
module Strings {

  predicate IsDigit(c: char)
  {
    '0' <= c <= '9'
  }

  predicate IsDigits(s: string)
  {
    forall i :: 0 <= i < |s| ==> IsDigit(s[i])
  }

  function DigitChar(d: nat): (c: char)
    requires d < 10
    ensures IsDigit(c)
  {
    ('0' as int + d) as char
  }

  function DigitValue(c: char): (d: nat)
    requires IsDigit(c)
    ensures d < 10
  {
    c as int - '0' as int
  }

  /** The decimal digits of `n`, most significant first, without leading zeros. */
  function NatToString(n: nat): (s: string)
    ensures IsNumeral(s)
    decreases n
  {
    if n < 10 then [DigitChar(n)] else NatToString(n / 10) + [DigitChar(n % 10)]
  }

  /** The number a string of decimal digits denotes (the empty string denotes 0). */
  function ParseNat(s: string): nat
    requires IsDigits(s)
  {
    if |s| == 0 then 0 else ParseNat(s[..|s| - 1]) * 10 + DigitValue(s[|s| - 1])
  }

  lemma {:induction false} ParseNatToString(n: nat)
    ensures ParseNat(NatToString(n)) == n
    decreases n
  {
    var s := NatToString(n);
    if n < 10 {
      assert s[..|s| - 1] == [];
    } else {
      var a := NatToString(n / 10);
      assert s == a + [DigitChar(n % 10)];
      assert s[..|s| - 1] == a;
      ParseNatToString(n / 10);
    }
  }

  /** The form `NatToString` produces: a nonempty digit string with no
      leading zero. */
  predicate IsNumeral(s: string)
  {
    |s| > 0 && IsDigits(s) && (|s| > 1 ==> s[0] != '0')
  }

  /** A numeral with more than one digit denotes at least 10. */
  lemma {:induction false} ParseNatLowerBound(s: string)
    requires IsNumeral(s) && |s| > 1
    ensures ParseNat(s) >= 10
    decreases |s|
  {
    var a := s[..|s| - 1];
    assert a[0] == s[0];
    if |a| > 1 {
      ParseNatLowerBound(a);
    } else {
      assert a[..0] == [];
      assert ParseNat(a) == DigitValue(a[0]);
    }
  }

  /** Splitting `10 * q + d` into its last digit. */
  lemma DivModTen(q: nat, d: nat)
    requires d < 10
    ensures (q * 10 + d) / 10 == q && (q * 10 + d) % 10 == d
  {
  }

  /** Rendering what a numeral denotes gives the numeral back. */
  lemma {:induction false} NatToStringParseNat(s: string)
    requires IsNumeral(s)
    ensures NatToString(ParseNat(s)) == s
    decreases |s|
  {
    var a, c := s[..|s| - 1], s[|s| - 1];
    var n := ParseNat(s);
    if |s| == 1 {
      assert a == [];
      assert ParseNat(a) == 0;
      assert n == DigitValue(c);
      assert DigitChar(DigitValue(c)) == c;
      assert s == [c];
    } else {
      assert a[0] == s[0];
      assert IsNumeral(a);
      ParseNatLowerBound(s);
      DivModTen(ParseNat(a), DigitValue(c));
      NatToStringParseNat(a);
      assert DigitChar(DigitValue(c)) == c;
      assert s == a + [c];
    }
  }

  lemma NatToStringInjective(a: nat, b: nat)
    requires NatToString(a) == NatToString(b)
    ensures a == b
  {
    ParseNatToString(a);
    ParseNatToString(b);
  }

  /** Position of the first occurrence of `c` in `s`, or `|s|` when `c` does not occur. */
  function FirstIndexOf(s: string, c: char): (k: nat)
    ensures k <= |s|
    ensures forall i :: 0 <= i < k ==> s[i] != c
    ensures k < |s| ==> s[k] == c
  {
    if |s| == 0 then 0
    else if s[0] == c then 0
    else 1 + FirstIndexOf(s[1..], c)
  }

  /** In `a + [c] + b` where `a` holds no `c`, the first `c` is the separator. */
  lemma FirstIndexOfSeparator(a: string, c: char, b: string)
    requires forall i :: 0 <= i < |a| ==> a[i] != c
    ensures FirstIndexOf(a + [c] + b, c) == |a|
  {
    var s := a + [c] + b;
    var k := FirstIndexOf(s, c);
    assert s[|a|] == c;
    assert forall i :: 0 <= i < |a| ==> s[i] == a[i];
  }
}
