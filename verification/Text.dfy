// Text the program depends on: lower-casing of hexadecimal addresses, decimal printing and parsing of
// integers, and text joined by colons.

module Text {
  import opened Options

  type Address = string

  function LowerChar(c: char): char {
    if 'A' <= c <= 'Z' then ((c as int) - ('A' as int) + ('a' as int)) as char else c
  }

  /** `toLowerCase` on ASCII text. */
  function Lower(s: string): string {
    seq(|s|, i requires 0 <= i < |s| => LowerChar(s[i]))
  }

  lemma LowerIdempotent(s: string)
    ensures Lower(Lower(s)) == Lower(s)
  {
    forall i | 0 <= i < |s| ensures Lower(Lower(s))[i] == Lower(s)[i] {
    }
  }


  predicate OccursAt(text: string, part: string, i: nat) {
    i + |part| <= |text| && text[i..i + |part|] == part
  }

  /** `includes` on text. */
  predicate Contains(text: string, part: string) {
    exists i: nat | i <= |text| :: OccursAt(text, part, i)
  }

  // ----- decimal integers -----

  predicate IsDigit(c: char) {
    '0' <= c <= '9'
  }

  function DigitChar(d: nat): (c: char)
    requires d < 10
    ensures IsDigit(c)
  {
    (('0' as int) + d) as char
  }

  function DigitValue(c: char): nat
    requires IsDigit(c)
  {
    (c as int) - ('0' as int)
  }

  function PrintNat(n: nat): (s: string)
    ensures s != "" && forall i :: 0 <= i < |s| ==> IsDigit(s[i])
  {
    if n < 10 then [DigitChar(n)] else PrintNat(n / 10) + [DigitChar(n % 10)]
  }

  /** `toString` on a bigint. */
  function PrintInt(n: int): string {
    if n < 0 then "-" + PrintNat(-n) else PrintNat(n)
  }

  function ParseNat(s: string): Option<nat> {
    if s == "" then None
    else if !IsDigit(s[|s| - 1]) then None
    else if |s| == 1 then Some(DigitValue(s[0]))
    else
      match ParseNat(s[..|s| - 1])
      case None => None
      case Some(high) => Some(10 * high + DigitValue(s[|s| - 1]))
  }

  /** `BigInt(text)` on plain decimal text; anything else is None. */
  function ParseInt(s: string): Option<int> {
    if s != "" && s[0] == '-' then Signed(ParseNat(s[1..]), -1) else Signed(ParseNat(s), 1)
  }

  function Signed(n: Option<nat>, sign: int): Option<int> {
    if n.None? then None else Some(sign * n.value)
  }

  lemma {:induction false} ParsePrintNat(n: nat)
    ensures ParseNat(PrintNat(n)) == Some(n)
  {
    if n >= 10 {
      ParsePrintNat(n / 10);
      var s := PrintNat(n);
      assert s[..|s| - 1] == PrintNat(n / 10);
      assert DigitValue(s[|s| - 1]) == n % 10;
    }
  }

  /** Printing an integer and parsing it back gives the integer. */
  lemma ParsePrintInt(n: int)
    ensures ParseInt(PrintInt(n)) == Some(n)
  {
    if n < 0 {
      ParsePrintNegative(-n);
    } else {
      ParsePrintNat(n);
      var s := PrintNat(n);
      assert IsDigit(s[0]);
    }
  }

  lemma ParsePrintNegative(n: nat)
    ensures ParseInt("-" + PrintNat(n)) == Signed(Some(n), -1)
  {
    ParsePrintNat(n);
    var s := "-" + PrintNat(n);
    assert s[0] == '-' && s[1..] == PrintNat(n);
  }

  lemma PrintIntInjective(a: int, b: int)
    requires PrintInt(a) == PrintInt(b)
    ensures a == b
  {
    ParsePrintInt(a);
    ParsePrintInt(b);
  }

  lemma PrintIntHasNoColon(n: int)
    ensures ':' !in PrintInt(n)
  {
    var digits := PrintNat(if n < 0 then -n else n);
    forall i | 0 <= i < |PrintInt(n)| ensures PrintInt(n)[i] != ':' {
      assert n < 0 && i > 0 ==> PrintInt(n)[i] == digits[i - 1];
      assert n >= 0 ==> PrintInt(n)[i] == digits[i];
    }
  }

  // ----- text split at colons -----

  lemma NoColonBefore(a: string, x: string, k: nat)
    requires ':' !in a && k < |a + ":" + x| && (a + ":" + x)[k] == ':'
    ensures |a| <= k
  {
  }

  lemma NoColonAfter(x: string, a: string, k: nat)
    requires ':' !in a && k < |x + ":" + a| && (x + ":" + a)[k] == ':'
    ensures k <= |x|
  {
  }

  /** Two texts cut at their first colon agree piecewise when they agree. */
  lemma FirstColonSplits(a: string, x: string, b: string, y: string)
    requires ':' !in a && ':' !in b
    requires a + ":" + x == b + ":" + y
    ensures a == b && x == y
  {
    var l, r := a + ":" + x, b + ":" + y;
    assert l[|a|] == ':' && r[|b|] == ':';
    NoColonBefore(a, x, |b|);
    NoColonBefore(b, y, |a|);
    assert a == l[..|a|] && b == r[..|b|];
    assert x == l[|a| + 1..] && y == r[|b| + 1..];
  }

  /** Two texts cut at their last colon agree piecewise when they agree. */
  lemma LastColonSplits(x: string, a: string, y: string, b: string)
    requires ':' !in a && ':' !in b
    requires x + ":" + a == y + ":" + b
    ensures a == b && x == y
  {
    var l, r := x + ":" + a, y + ":" + b;
    assert l[|x|] == ':' && r[|y|] == ':';
    NoColonAfter(x, a, |y|);
    NoColonAfter(y, b, |x|);
    assert x == l[..|x|] && y == r[..|y|];
    assert a == l[|x| + 1..] && b == r[|y| + 1..];
  }
}
