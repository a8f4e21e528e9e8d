/** Decimal digit runs and the numbers they spell, and the whitespace of HOCON. */
module Numerals {

  predicate IsDigit(c: char) {
    '0' <= c <= '9'
  }

  predicate AllDigits(s: string) {
    forall i | 0 <= i < |s| :: IsDigit(s[i])
  }

  function Digit(c: char): (d: nat)
    requires IsDigit(c)
    ensures d <= 9
  {
    c as int - '0' as int
  }

  /** The number a digit run spells; the empty run spells 0. */
  function NatOf(s: string): nat
    requires AllDigits(s)
  {
    if s == "" then 0 else 10 * NatOf(s[..|s| - 1]) + Digit(s[|s| - 1])
  }

  /** A numeral without superfluous zeros: 0, or a run that starts with 1 to 9. */
  predicate Canonical(s: string) {
    s != "" && AllDigits(s) && (s[0] == '0' ==> s == "0")
  }

  lemma {:induction false} CanonicalIsPositive(s: string)
    requires Canonical(s) && s != "0"
    ensures NatOf(s) > 0
  {
    if |s| > 1 {
      CanonicalIsPositive(s[..|s| - 1]);
    }
  }

  lemma {:induction false} LastDigits(s: string)
    requires s != "" && AllDigits(s)
    ensures NatOf(s) % 10 == Digit(s[|s| - 1]) && NatOf(s) / 10 == NatOf(s[..|s| - 1])
  {
  }

  lemma {:induction false} SameDigit(a: char, b: char)
    requires IsDigit(a) && IsDigit(b) && Digit(a) == Digit(b)
    ensures a == b
  {
  }

  /** What is left of a canonical numeral without its last digit. */
  lemma {:induction false} CanonicalInit(s: string)
    requires Canonical(s) && |s| > 1
    ensures Canonical(s[..|s| - 1]) && NatOf(s[..|s| - 1]) > 0
  {
    CanonicalIsPositive(s[..|s| - 1]);
  }

  /** Two canonical numerals of the same number are the same text. */
  lemma {:induction false} CanonicalIsUnique(a: string, b: string)
    requires Canonical(a) && Canonical(b) && NatOf(a) == NatOf(b)
    ensures a == b
    decreases |a|
  {
    var a', b' := a[..|a| - 1], b[..|b| - 1];
    LastDigits(a);
    LastDigits(b);
    SameDigit(a[|a| - 1], b[|b| - 1]);
    assert a == a' + [a[|a| - 1]] && b == b' + [b[|b| - 1]];
    if |a| > 1 { CanonicalInit(a); }
    if |b| > 1 { CanonicalInit(b); }
    assert |a| == 1 ==> NatOf(a') == 0;
    assert |b| == 1 ==> NatOf(b') == 0;
    if |a| > 1 {
      CanonicalIsUnique(a', b');
    }
  }

  /** The whitespace characters of HOCON, the newline among them. */
  predicate IsSpace(c: char) {
    var r := c as int;
    || 0x09 <= r <= 0x0D || 0x1C <= r <= 0x20 || r == 0xA0 || r == 0xFEFF || r == 0x1680
    || 0x2000 <= r <= 0x200A || r == 0x2028 || r == 0x2029 || r == 0x202F || r == 0x205F || r == 0x3000
  }
}
