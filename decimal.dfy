/**
 * Decimal rendering of a non-negative integer, as a JavaScript template
 * literal `${n}` produces it for the counts the widget shows (countdown
 * components and the number of upcoming games).
 */
module Decimal {

  predicate IsDigit(c: char)
  {
    '0' <= c <= '9'
  }

  predicate AllDigits(s: string)
  {
    forall i :: 0 <= i < |s| ==> IsDigit(s[i])
  }

  function DigitChar(d: nat): (c: char)
    requires d < 10
    ensures IsDigit(c)
  {
    (('0' as int) + d) as char
  }

  function DigitValue(c: char): (d: nat)
    requires IsDigit(c)
    ensures d < 10 && DigitChar(d) == c
  {
    (c as int) - ('0' as int)
  }

  /** `${n}`: the shortest decimal numeral for `n`, without leading zeros. */
  function Show(n: nat): (s: string)
    ensures |s| >= 1 && AllDigits(s)
    ensures s[0] == '0' <==> n == 0
    decreases n
  {
    if n < 10 then [DigitChar(n)] else Show(n / 10) + [DigitChar(n % 10)]
  }

  /** The number a string of digits denotes (its independent reading). */
  function Value(s: string): nat
    requires AllDigits(s)
  {
    if s == [] then 0 else Value(s[..|s| - 1]) * 10 + DigitValue(s[|s| - 1])
  }

  /** Reading back what `Show` wrote gives the number again. */
  lemma {:induction false} ValueShow(n: nat)
    ensures Value(Show(n)) == n
    decreases n
  {
    var s := Show(n);
    if n < 10 {
      assert s[..|s| - 1] == [];
    } else {
      ValueShow(n / 10);
      assert s[..|s| - 1] == Show(n / 10);
    }
  }

  /** Different numbers are shown differently. */
  lemma ShowInjective(a: nat, b: nat)
    requires Show(a) == Show(b)
    ensures a == b
  {
    ValueShow(a);
    ValueShow(b);
  }

  /** In a numeral followed by a non-digit, the first non-digit sits right after the numeral. */
  lemma NumeralEnd(a: nat, ra: string)
    requires ra != [] && !IsDigit(ra[0])
    ensures forall i :: 0 <= i <= |Show(a)| ==> (IsDigit((Show(a) + ra)[i]) <==> i < |Show(a)|)
  {
  }

  /**
   * A numeral followed by text that starts with a non-digit can be split back
   * apart: the number and the rest are both determined by the whole string.
   */
  lemma SplitNumeral(a: nat, ra: string, b: nat, rb: string)
    requires ra != [] && !IsDigit(ra[0])
    requires rb != [] && !IsDigit(rb[0])
    requires Show(a) + ra == Show(b) + rb
    ensures a == b && ra == rb
  {
    var sa, sb := Show(a), Show(b);
    var whole := sa + ra;
    NumeralEnd(a, ra);
    NumeralEnd(b, rb);
    var k := if |sa| < |sb| then |sa| else |sb|;
    assert IsDigit(whole[k]) <==> k < |sa|;
    assert IsDigit((sb + rb)[k]) <==> k < |sb|;
    assert sa == whole[..|sa|] == sb;
    assert ra == whole[|sa|..] == rb;
    ShowInjective(a, b);
  }
}
