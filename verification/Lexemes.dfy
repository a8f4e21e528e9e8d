/**
 Lexical laws (internal/lexer/lexer.go): the numbers of the lexer against those of
 the unit readers (config.go), escapes against code points, and the characters that
 separate tokens.
 */
module Lexemes {
  import opened Paths
  import opened Numerals
  import opened Decimals
  import opened Lexing
  import Units

  // ---------- numbers ----------

  lemma {:induction false} DigitRunIs(s: string, t: string)
    requires AllDigits(s) && (t == "" || !IsDigit(t[0]))
    ensures DigitRun(s + t) == |s|
  {
    if s == "" {
      assert s + t == t;
    } else {
      assert (s + t)[1..] == s[1..] + t;
      DigitRunIs(s[1..], t);
    }
  }

  lemma {:induction false} DigitRunSplits(s: string)
    ensures var n := DigitRun(s); AllDigits(s[..n]) && (n < |s| ==> !IsDigit(s[n])) && s == s[..n] + s[n..]
  {
    if s != "" && IsDigit(s[0]) {
      DigitRunSplits(s[1..]);
      var n := DigitRun(s);
      assert s[..n] == [s[0]] + s[1..][..n - 1] && (n < |s| ==> s[n] == s[1..][n - 1]);
    }
  }

  /** How the lexer sees a numeral. */
  function KindOf(n: Numeral): Option<Kind> {
    if n.sign == "+" then None else Some(if n.dot || n.mark != "" then TFloat else TInt)
  }

  lemma {:induction false} PowerIsExponent(n: Numeral)
    requires Valid(n)
    ensures if n.mark == "" then Power(n) == "" else IsExponent(Power(n))
  {
    if n.mark != "" {
      var tail := Power(n);
      DigitRunIs(n.exp, "");
      assert n.exp + "" == n.exp && tail[0] == n.mark[0];
      if n.expSign == "" {
        assert tail[1..] == n.exp && tail[1] == n.exp[0];
      } else {
        assert tail[1] == n.expSign[0] && tail[2..] == n.exp;
      }
    }
  }

  lemma {:induction false} EndOf(n: Numeral)
    requires Valid(n)
    ensures NumberEnd(true, n.dot, Power(n)) == Some(if n.dot || n.mark != "" then TFloat else TInt)
    ensures Power(n) == "" || (!IsDigit(Power(n)[0]) && Power(n)[0] != '.')
  {
    PowerIsExponent(n);
  }

  lemma {:induction false} BehindPoint(digits: bool, frac: string, power: string)
    requires AllDigits(frac) && (power == "" || !IsDigit(power[0]))
    ensures NumberTail(digits, ("." + frac) + power) == NumberEnd(digits || frac != "", true, power)
  {
    var t := ("." + frac) + power;
    assert t[0] == '.' && t[1..] == frac + power;
    DigitRunIs(frac, power);
    assert (frac + power)[|frac|..] == power;
  }

  /** A numeral behind its whole digits. */
  function Fraction(n: Numeral): string {
    (if n.dot then "." + n.frac else "") + Power(n)
  }

  lemma {:induction false} TailOf(n: Numeral)
    requires Valid(n)
    ensures NumberTail(n.whole != "", Fraction(n)) == Some(if n.dot || n.mark != "" then TFloat else TInt)
    ensures Fraction(n) == "" || !IsDigit(Fraction(n)[0])
  {
    EndOf(n);
    if n.dot {
      BehindPoint(n.whole != "", n.frac, Power(n));
      assert Fraction(n)[0] == '.';
    } else {
      assert Fraction(n) == Power(n);
    }
  }

  lemma {:induction false} SpelledKind(n: Numeral)
    requires Valid(n) && n.sign != "+"
    ensures NumberRunType(Spell(n)) == KindOf(n)
  {
    var t := Fraction(n);
    var body := n.whole + t;
    TailOf(n);
    Assoc(n.whole, if n.dot then "." + n.frac else "", Power(n));
    assert Mantissa(n) + Power(n) == body;
    DigitRunIs(n.whole, t);
    assert body[|n.whole|..] == t;
    if n.sign == "-" {
      assert Spell(n)[0] == '-' && Spell(n)[1..] == body;
    } else {
      assert Spell(n) == body;
      if n.whole != "" { assert body[0] == n.whole[0]; } else { assert body == t && n.dot && t[0] == '.'; }
    }
  }

  /** The exponent of a text, taken apart. */
  function ExponentOf(tail: string): (string, string, string) {
    if tail == "" then ("", "", "")
    else if |tail| > 1 && (tail[1] == '+' || tail[1] == '-') then ([tail[0]], [tail[1]], tail[2..])
    else ([tail[0]], "", tail[1..])
  }

  lemma {:induction false} ExponentSplits(tail: string)
    requires tail == "" || IsExponent(tail)
    ensures var e := ExponentOf(tail);
            && tail == e.0 + (e.1 + e.2) && IsSign(e.1) && AllDigits(e.2)
            && (if tail == "" then e.0 == "" else (e.0 == "e" || e.0 == "E") && e.2 != "")
  {
    var e := ExponentOf(tail);
    if tail != "" {
      DigitRunSplits(e.2);
      assert e.2[..|e.2|] == e.2;
    }
  }

  function NumeralFrom(sign: string, whole: string, dot: bool, frac: string, tail: string): Numeral {
    var e := ExponentOf(tail);
    Numeral(sign, whole, dot, frac, e.0, e.1, e.2)
  }

  lemma {:induction false} FromIsValid(sign: string, whole: string, dot: bool, frac: string, tail: string)
    requires (sign == "" || sign == "-") && AllDigits(whole) && AllDigits(frac) && (whole != "" || frac != "")
    requires (frac != "" ==> dot) && (tail == "" || IsExponent(tail))
    ensures var n := NumeralFrom(sign, whole, dot, frac, tail); Valid(n) && n.sign == sign && Power(n) == tail
  {
    ExponentSplits(tail);
  }

  lemma {:induction false} FromSpells(sign: string, whole: string, frac: string, tail: string)
    requires Power(NumeralFrom(sign, whole, true, frac, tail)) == tail
    ensures Spell(NumeralFrom(sign, whole, true, frac, tail)) == sign + (whole + (("." + frac) + tail))
  {
    Assoc(whole, "." + frac, tail);
  }

  /** What stands behind a point. */
  lemma {:induction false} PointSplits(digits: bool, s: string) returns (frac: string, tail: string)
    requires s != "" && s[0] == '.' && NumberTail(digits, s).Some?
    ensures s == ("." + frac) + tail && AllDigits(frac) && (digits || frac != "") && (tail == "" || IsExponent(tail))
  {
    var m := DigitRun(s[1..]);
    DigitRunSplits(s[1..]);
    frac, tail := s[1..][..m], s[1..][m..];
  }

  lemma {:induction false} RunWithPoint(sign: string, whole: string, s: string)
    requires (sign == "" || sign == "-") && AllDigits(whole) && s != "" && s[0] == '.'
    requires NumberTail(whole != "", s).Some?
    ensures exists n: Numeral :: Valid(n) && n.sign == sign && Spell(n) == sign + (whole + s)
  {
    var frac, tail := PointSplits(whole != "", s);
    FromIsValid(sign, whole, true, frac, tail);
    FromSpells(sign, whole, frac, tail);
    var n := NumeralFrom(sign, whole, true, frac, tail);
    assert Valid(n) && n.sign == sign && Spell(n) == sign + (whole + s);
  }

  lemma {:induction false} RunWithoutPoint(sign: string, whole: string, s: string)
    requires (sign == "" || sign == "-") && AllDigits(whole) && (s == "" || s[0] != '.')
    requires NumberTail(whole != "", s).Some?
    ensures exists n: Numeral :: Valid(n) && n.sign == sign && Spell(n) == sign + (whole + s)
  {
    FromIsValid(sign, whole, false, "", s);
    var n := NumeralFrom(sign, whole, false, "", s);
    assert Mantissa(n) == whole by { assert whole + "" == whole; }
    assert Spell(n) == sign + (whole + s);
  }

  lemma {:induction false} RunIsSpelled(s: string)
    requires NumberRunType(s).Some?
    ensures exists n: Numeral :: Valid(n) && n.sign != "+" && Spell(n) == s
  {
    var sign := if s != "" && s[0] == '-' then "-" else "";
    var body := s[|sign|..];
    var d := DigitRun(body);
    DigitRunSplits(body);
    var whole, tail := body[..d], body[d..];
    assert s == sign + (whole + tail);
    if tail != "" && tail[0] == '.' {
      RunWithPoint(sign, whole, tail);
    } else {
      RunWithoutPoint(sign, whole, tail);
    }
  }

  /** The lexer takes for a number what the unit readers take for one, a leading plus
      aside, and for a float what has a point or an exponent. */
  lemma {:induction false} NumbersAgree(s: string)
    ensures var n := Units.ReadNumeral(s); NumberRunType(s) == if n.Some? then KindOf(n.value) else None
  {
    if NumberRunType(s).Some? {
      RunIsSpelled(s);
      var n: Numeral :| Valid(n) && n.sign != "+" && Spell(n) == s;
      Units.ReadsWhatIsSpelled(s, n);
      SpelledKind(n);
    } else if Units.ReadNumeral(s).Some? {
      var n := Units.ReadNumeral(s).value;
      Units.ReadsWhatIsSpelled(s, n);
      if n.sign != "+" { SpelledKind(n); }
    }
  }

  // ---------- escapes ----------

  const LOWER: string := "0123456789abcdef"

  const UPPER: string := "0123456789ABCDEF"

  predicate IsFigure(c: char, d: nat) {
    d < 16 && (c == LOWER[d] || c == UPPER[d])
  }

  /** Four hexadecimal digits, of either case. */
  predicate AreFigures(h: string, a: nat, b: nat, c: nat, d: nat) {
    |h| == 4 && IsFigure(h[0], a) && IsFigure(h[1], b) && IsFigure(h[2], c) && IsFigure(h[3], d)
  }

  lemma {:induction false} FigureIs(c: char, d: nat)
    requires IsFigure(c, d)
    ensures IsHex(c) && HexDigit(c) == d
  {
  }

  predicate Surrogate(code: nat) {
    0xD800 <= code <= 0xDFFF
  }

  /** A four-digit escape is the character with that code; a surrogate is an error. */
  lemma {:induction false} UnicodeEscape(h: string, a: nat, b: nat, c: nat, d: nat, rest: string)
    requires AreFigures(h, a, b, c, d)
    ensures var code := ((a * 16 + b) * 16 + c) * 16 + d;
            ReadBody("\\u" + (h + rest)) == if Surrogate(code) then BadBody else Prepend(code as char, ReadBody(rest))
  {
    var s := "\\u" + (h + rest);
    FigureIs(h[0], a);
    FigureIs(h[1], b);
    FigureIs(h[2], c);
    FigureIs(h[3], d);
    assert s[0] == '\\' && s[1] == 'u' && s[2..] == h + rest && s[6..] == rest;
    var t := s[2..];
    assert t[0] == h[0] && t[1] == h[1] && t[2] == h[2] && t[3] == h[3];
  }

  lemma {:induction false} HexIsFigure(c: char)
    requires IsHex(c)
    ensures c in LOWER || c in UPPER
  {
    assert IsFigure(c, HexDigit(c));
  }

  /** Anything else behind the mark is an error. */
  lemma {:induction false} BadUnicodeEscape(t: string)
    requires |t| < 4 || exists i | 0 <= i < 4 :: t[i] !in LOWER && t[i] !in UPPER
    ensures ReadBody("\\u" + t) == BadBody
  {
    var s := "\\u" + t;
    assert s[0] == '\\' && s[1] == 'u' && s[2..] == t;
    if HexChar(t).Some? {
      forall i | 0 <= i < 4 ensures t[i] in LOWER || t[i] in UPPER { HexIsFigure(t[i]); }
    }
  }

  /** The one-letter escapes: the last two digits of their code points. */
  function CodePoint(c: char): Option<(nat, nat)> {
    match c
    case '"' => Some((2, 2))
    case '\\' => Some((5, 12))
    case '/' => Some((2, 15))
    case 'b' => Some((0, 8))
    case 'f' => Some((0, 12))
    case 'n' => Some((0, 10))
    case 'r' => Some((0, 13))
    case 't' => Some((0, 9))
    case _ => None
  }

  lemma {:induction false} ReadsEscape(c: char, rest: string)
    requires c != 'u'
    ensures ReadBody("\\" + ([c] + rest)) ==
            if Escaped(c).None? then BadBody else Prepend(Escaped(c).value, ReadBody(rest))
  {
    var s := "\\" + ([c] + rest);
    assert s[0] == '\\' && s[1] == c && s[2..] == rest;
  }

  lemma {:induction false} EscapedIs(c: char)
    requires CodePoint(c).Some?
    ensures c != 'u' && CodePoint(c).value.0 < 16 && CodePoint(c).value.1 < 16
    ensures Escaped(c) == Some((16 * CodePoint(c).value.0 + CodePoint(c).value.1) as char)
  {
  }

  lemma {:induction false} LowCode(h: string, c: nat, d: nat, rest: string)
    requires AreFigures(h, 0, 0, c, d)
    ensures ReadBody("\\u" + (h + rest)) == Prepend((16 * c + d) as char, ReadBody(rest))
  {
    UnicodeEscape(h, 0, 0, c, d, rest);
  }

  /** A one-letter escape is read like the escape with its code point. */
  lemma {:induction false} NamedEscape(c: char, h: string, rest: string)
    requires CodePoint(c).Some? && AreFigures(h, 0, 0, CodePoint(c).value.0, CodePoint(c).value.1)
    ensures ReadBody("\\" + ([c] + rest)) == ReadBody("\\u" + (h + rest))
  {
    EscapedIs(c);
    ReadsEscape(c, rest);
    LowCode(h, CodePoint(c).value.0, CodePoint(c).value.1, rest);
  }

  /** Any other letter is an error. */
  lemma {:induction false} UnknownEscape(c: char, rest: string)
    requires c != 'u' && CodePoint(c).None?
    ensures ReadBody("\\" + ([c] + rest)) == BadBody
  {
    ReadsEscape(c, rest);
  }

  // ---------- characters ----------

  /** Code points of whitespace: the controls of ASCII, the byte order mark, and the
      space, line and paragraph separators of Unicode. */
  const SPACES: seq<int> := [
    0x09, 0x0A, 0x0B, 0x0C, 0x0D, 0x1C, 0x1D, 0x1E, 0x1F, 0x20, 0xFEFF, 0xA0, 0x1680, 0x2000, 0x2001, 0x2002,
    0x2003, 0x2004, 0x2005, 0x2006, 0x2007, 0x2008, 0x2009, 0x200A, 0x2028, 0x2029, 0x202F, 0x205F, 0x3000]

  lemma {:induction false} SpacesAre(c: char)
    ensures IsSpace(c) <==> c as int in SPACES
  {
  }

  /** The signs that unquoted text may hold besides letters and digits. */
  const SIGNS: string := "%'()-./;<>_|~"

  lemma {:induction false} SignsAre(c: char)
    ensures c in SIGNS <==> c as int == 0x25 || 0x27 <= c as int <= 0x29 || 0x2D <= c as int <= 0x2F ||
                            c as int in [0x3B, 0x3C, 0x3E, 0x5F, 0x7C, 0x7E]
  {
    assert SIGNS == ['%', '\'', '(', ')', '-', '.', '/', ';', '<', '>', '_', '|', '~'];
  }

  lemma {:induction false} ForbiddenAre(c: char)
    ensures c in FORBIDDEN <==> 0x21 <= c as int <= 0x24 || c as int == 0x26 || 0x2A <= c as int <= 0x2C ||
                                c as int in [0x3A, 0x3D, 0x3F, 0x40, 0x60, 0x7B, 0x7D] || 0x5B <= c as int <= 0x5E
  {
    assert FORBIDDEN ==
           ['$', '"', '{', '}', '[', ']', ':', '=', ',', '+', '#', '\\', '^', '?', '!', '@', '*', '&', '`'];
  }

  /** Of the graphic characters of ASCII only those may stand in unquoted text; beyond
      them everything may but whitespace. */
  lemma {:induction false} UnquotedAre(c: char)
    ensures if 0x21 <= c as int <= 0x7E
            then IsForbidden(c) <==> !(IsDigit(c) || Units.IsUnitLetter(c) || c in SIGNS)
            else IsForbidden(c) <==> IsSpace(c)
  {
    SignsAre(c);
    ForbiddenAre(c);
  }
}
