/**
 Exact decimal arithmetic: a unit value is a decimal numeral times a multiplier,
 truncated toward zero, or no value when that leaves int64 (truncProduct in
 config.go).
 */
module Decimals {
  import opened Paths
  import opened Numerals

  const MAX_INT64: int := 0x7fff_ffff_ffff_ffff
  const MIN_INT64: int := -0x8000_0000_0000_0000

  newtype Int64 = x: int | MIN_INT64 <= x <= MAX_INT64

  predicate InInt64(x: int) {
    MIN_INT64 <= x <= MAX_INT64
  }

  function Pow10(n: nat): (p: nat)
    ensures p >= 1
  {
    if n == 0 then 1 else 10 * Pow10(n - 1)
  }

  // ---------- numerals ----------

  /** The grammar of unitNumberRegex, a numeral taken apart. */
  datatype Numeral = Numeral(sign: string, whole: string, dot: bool, frac: string,
                             mark: string, expSign: string, exp: string)

  predicate IsSign(s: string) {
    s == "" || s == "+" || s == "-"
  }

  predicate Valid(n: Numeral) {
    && IsSign(n.sign) && AllDigits(n.whole) && AllDigits(n.frac)
    && (n.whole != "" || n.frac != "") && (n.frac != "" ==> n.dot)
    && (n.mark == "" || n.mark == "e" || n.mark == "E")
    && IsSign(n.expSign) && AllDigits(n.exp)
    && (if n.mark == "" then n.expSign == "" && n.exp == "" else n.exp != "")
  }

  function Mantissa(n: Numeral): string {
    n.whole + (if n.dot then "." + n.frac else "")
  }

  function Power(n: Numeral): string {
    n.mark + (n.expSign + n.exp)
  }

  function Spell(n: Numeral): string {
    n.sign + (Mantissa(n) + Power(n))
  }

  function Exponent(n: Numeral): int
    requires Valid(n)
  {
    if n.expSign == "-" then 0 - NatOf(n.exp) else NatOf(n.exp)
  }

  /** The numeral's value is its digits times ten to this power. */
  function Scale(n: Numeral): int
    requires Valid(n)
  {
    Exponent(n) - |n.frac|
  }

  function Digits(n: Numeral): (s: string)
    requires Valid(n)
    ensures AllDigits(s)
  {
    n.whole + n.frac
  }

  /** d times ten to the power scale times mult, as a fraction. */
  function Numerator(d: nat, scale: int, mult: nat): nat {
    d * mult * (if scale >= 0 then Pow10(scale) else 1)
  }

  function Denominator(scale: int): (d: nat)
    ensures d >= 1
  {
    if scale >= 0 then 1 else Pow10(-scale)
  }

  function Quotient(a: nat, b: nat): (q: nat)
    requires b >= 1
  {
    a / b
  }

  function Magnitude(d: nat, scale: int, mult: nat): nat {
    Quotient(Numerator(d, scale, mult), Denominator(scale))
  }

  function Fit(neg: bool, magnitude: nat): Option<int> {
    var q := if neg then 0 - magnitude else magnitude;
    if InInt64(q) then Some(q) else None
  }

  /** The product truncated toward zero, when it fits. */
  function Exact(n: Numeral, mult: nat): Option<int>
    requires Valid(n)
  {
    Fit(n.sign == "-", Magnitude(NatOf(Digits(n)), Scale(n), mult))
  }

  /** In cross-multiplied form: q is the result's magnitude exactly when it is the
      largest one not above the exact product. */
  lemma {:induction false} ExactMeans(n: Numeral, mult: nat, q: nat)
    requires Valid(n)
    ensures var num, den := Numerator(NatOf(Digits(n)), Scale(n), mult), Denominator(Scale(n));
            q * den <= num < (q + 1) * den <==> Magnitude(NatOf(Digits(n)), Scale(n), mult) == q
  {
    QuotientIs(Numerator(NatOf(Digits(n)), Scale(n), mult), Denominator(Scale(n)), q);
  }

  lemma {:induction false} QuotientIs(a: nat, b: nat, q: nat)
    requires b >= 1
    ensures Quotient(a, b) == q <==> q * b <= a < (q + 1) * b
  {
    var p := a / b;
    assert p * b <= a < p * b + b;
    if p < q {
      assert (p + 1) * b <= q * b by { MulMonotone(p + 1, q, b); }
    } else if q < p {
      assert (q + 1) * b <= p * b by { MulMonotone(q + 1, p, b); }
    }
  }

  lemma {:induction false} MulMonotone(a: int, b: int, c: nat)
    requires a <= b
    ensures a * c <= b * c
  {
  }

  // ---------- powers of ten and digit runs ----------

  lemma {:induction false} Pow10Add(a: nat, b: nat)
    ensures Pow10(a + b) == Pow10(a) * Pow10(b)
  {
    if a > 0 {
      Pow10Add(a - 1, b);
      assert Pow10(a) * Pow10(b) == 10 * (Pow10(a - 1) * Pow10(b));
    }
  }

  lemma {:induction false} Pow10Monotone(a: nat, b: nat)
    requires a <= b
    ensures Pow10(a) <= Pow10(b)
  {
    Pow10Add(a, b - a);
    MulMonotone(1, Pow10(b - a), Pow10(a));
  }

  lemma {:induction false} Pow10Values()
    ensures Pow10(5) == 100_000 && Pow10(10) == 10_000_000_000 && Pow10(18) == 1_000_000_000_000_000_000
    ensures Pow10(19) == 10_000_000_000_000_000_000 && Pow10(20) == 100_000_000_000_000_000_000
    ensures Pow10(25) == 10_000_000_000_000_000_000_000_000
  {
    assert Pow10(2) == 100 && Pow10(3) == 1000;
    assert Pow10(5) == 100_000 by { Pow10Add(2, 3); }
    assert Pow10(10) == 10_000_000_000 by { Pow10Add(5, 5); }
    assert Pow10(20) == 100_000_000_000_000_000_000 by { Pow10Add(10, 10); }
    assert Pow10(25) == 10_000_000_000_000_000_000_000_000 by { Pow10Add(20, 5); }
    assert Pow10(20) == 10 * Pow10(19) && Pow10(19) == 10 * Pow10(18);
  }

  lemma {:induction false} NatOfBound(s: string)
    requires AllDigits(s)
    ensures NatOf(s) < Pow10(|s|)
    ensures s != "" && s[0] != '0' ==> Pow10(|s| - 1) <= NatOf(s)
  {
    if s != "" {
      NatOfBound(s[..|s| - 1]);
    }
  }

  lemma {:induction false} NatOfZeroFirst(s: string)
    requires AllDigits(s)
    ensures NatOf("0" + s) == NatOf(s)
  {
    var t := "0" + s;
    if s == "" {
      assert t[..0] == "";
    } else {
      assert t[..|t| - 1] == "0" + s[..|s| - 1];
      NatOfZeroFirst(s[..|s| - 1]);
    }
  }

  function TrimZeros(s: string): string {
    if s != "" && s[0] == '0' then TrimZeros(s[1..]) else s
  }

  lemma {:induction false} TrimmedIsSame(s: string)
    requires AllDigits(s)
    ensures AllDigits(TrimZeros(s)) && NatOf(TrimZeros(s)) == NatOf(s) && |TrimZeros(s)| <= |s|
    ensures TrimZeros(s) != "" ==> TrimZeros(s)[0] != '0'
  {
    if s != "" && s[0] == '0' {
      TrimmedIsSame(s[1..]);
      NatOfZeroFirst(s[1..]);
      assert s == "0" + s[1..];
    }
  }

  // ---------- the early exits ----------

  /** The magnitude of the numeral lies in [10^(top-1), 10^top). */
  function Top(n: Numeral): int
    requires Valid(n)
  {
    |TrimZeros(Digits(n))| + Scale(n)
  }

  lemma {:induction false} Huge(d: nat, len: nat, scale: int, mult: nat, k: nat)
    requires len > 0 && Pow10(len - 1) <= d && mult >= 1 && len + scale > k
    ensures Pow10(k) <= Magnitude(d, scale, mult)
  {
    var high := len + scale - 1;
    Pow10Monotone(k, high);
    MulMonotone(1, mult, d);
    if scale >= 0 {
      Pow10Add(len - 1, scale);
      MulMonotone(Pow10(len - 1), d * mult, Pow10(scale));
      assert Numerator(d, scale, mult) == d * mult * Pow10(scale);
      AtLeast(Numerator(d, scale, mult), 1, Pow10(k));
    } else {
      Pow10Add(high, -scale);
      MulMonotone(Pow10(k), Pow10(high), Pow10(-scale));
      AtLeast(d * mult, Pow10(-scale), Pow10(k));
    }
  }

  lemma {:induction false} HighNeverFits(n: Numeral, mult: nat)
    requires Valid(n) && mult >= 1 && TrimZeros(Digits(n)) != "" && Top(n) > 20
    ensures Exact(n, mult) == None
  {
    var digits := TrimZeros(Digits(n));
    TrimmedIsSame(Digits(n));
    NatOfBound(digits);
    Pow10Values();
    Huge(NatOf(digits), |digits|, Scale(n), mult, 20);
  }

  lemma {:induction false} AtLeast(a: nat, b: nat, q: nat)
    requires b >= 1 && q * b <= a
    ensures q <= Quotient(a, b)
  {
    var p := a / b;
    assert a < (p + 1) * b;
    if p < q {
      MulMonotone(p + 1, q, b);
    }
  }

  lemma {:induction false} Tiny(d: nat, len: nat, scale: int, mult: nat, k: nat)
    requires d < Pow10(len) && mult <= Pow10(k) && len + scale + k < 0
    ensures Magnitude(d, scale, mult) == 0
  {
    Pow10Add(len, k);
    Pow10Monotone(len + k, -scale);
    ProductBelow(d, Pow10(len), mult, Pow10(k));
    assert Numerator(d, scale, mult) == d * mult;
    SmallQuotient(d * mult, Pow10(-scale));
  }

  lemma {:induction false} SmallQuotient(a: nat, b: nat)
    requires a < b
    ensures Quotient(a, b) == 0
  {
    QuotientIs(a, b, 0);
  }

  lemma {:induction false} LowIsZero(n: Numeral, mult: nat)
    requires Valid(n) && mult <= Pow10(25) && Top(n) < -25
    ensures Exact(n, mult) == Some(0)
  {
    var digits := TrimZeros(Digits(n));
    TrimmedIsSame(Digits(n));
    NatOfBound(digits);
    Tiny(NatOf(digits), |digits|, Scale(n), mult, 25);
  }

  lemma {:induction false} ProductBelow(a: nat, a': nat, b: nat, b': nat)
    requires a < a' && b <= b' && b' >= 1
    ensures a * b < a' * b'
  {
    MulMonotone(b, b', a);
    MulMonotone(a + 1, a', b');
  }

  lemma {:induction false} ZeroIsZero(n: Numeral, mult: nat)
    requires Valid(n) && TrimZeros(Digits(n)) == ""
    ensures Exact(n, mult) == Some(0)
  {
    TrimmedIsSame(Digits(n));
    assert Numerator(0, Scale(n), mult) == 0;
    QuotientIs(0, Denominator(Scale(n)), 0);
  }

  // ---------- taking a numeral apart ----------

  /** strings.IndexAny, with the length standing for "not found". */
  function IndexAny(s: string, chars: string): (i: nat)
    ensures i <= |s|
    ensures forall j | 0 <= j < i :: s[j] !in chars
    ensures i < |s| ==> s[i] in chars
  {
    if s == "" || s[0] in chars then 0 else 1 + IndexAny(s[1..], chars)
  }

  lemma {:induction false} IndexIs(s: string, chars: string, i: nat)
    requires i <= |s| && (forall j | 0 <= j < i :: s[j] !in chars) && (i < |s| ==> s[i] in chars)
    ensures IndexAny(s, chars) == i
  {
  }

  function TrimSigns(s: string): string {
    if s != "" && (s[0] == '+' || s[0] == '-') then TrimSigns(s[1..]) else s
  }

  function AfterSign(s: string): string {
    if s != "" && (s[0] == '+' || s[0] == '-') then s[1..] else s
  }

  lemma {:induction false} SignSplits(n: Numeral)
    requires Valid(n)
    ensures AfterSign(Spell(n)) == Mantissa(n) + Power(n)
    ensures n.sign == "-" <==> "-" <= Spell(n)
    ensures n.sign == "+" <==> "+" <= Spell(n)
  {
    var body := Mantissa(n) + Power(n);
    assert n.sign != "" ==> Spell(n)[1..] == body;
    assert n.sign == "" ==> Spell(n) == body;
    assert body != "" && (body[0] == '.' || IsDigit(body[0]));
  }

  lemma {:induction false} MarkSplits(n: Numeral)
    requires Valid(n)
    ensures var s := Mantissa(n) + Power(n);
            var i := IndexAny(s, "eE");
            && s[..i] == Mantissa(n)
            && (if i < |s| then n.mark != "" && s[i + 1..] == n.expSign + n.exp else n.mark == "")
  {
    var s, m := Mantissa(n) + Power(n), Mantissa(n);
    forall j | 0 <= j < |m| ensures s[j] !in "eE" {
      assert m[j] == '.' || IsDigit(m[j]);
    }
    IndexIs(s, "eE", |m|);
  }

  lemma {:induction false} DotSplits(n: Numeral)
    requires Valid(n)
    ensures var m := Mantissa(n);
            var i := IndexAny(m, ".");
            && m[..i] == n.whole
            && (if i < |m| then n.dot && m[i + 1..] == n.frac else !n.dot && n.frac == "")
  {
    IndexIs(Mantissa(n), ".", |n.whole|);
  }

  lemma {:induction false} SignsTrimmed(n: Numeral)
    requires Valid(n) && n.mark != ""
    ensures TrimSigns(n.expSign + n.exp) == n.exp
    ensures n.expSign == "-" <==> "-" <= n.expSign + n.exp
  {
    var s := n.expSign + n.exp;
    assert n.expSign != "" ==> s[1..] == n.exp;
    assert n.expSign == "" ==> s == n.exp;
    assert IsDigit(n.exp[0]);
  }

  // ---------- truncProduct ----------

  const TWO_80: nat := 0x1_0000_0000_0000_0000_0000

  /** Longer texts would make the saturated exponent visible. */
  const LONGEST: nat := 999_999_999_999_999_970

  const SATURATED: string := "1000000000000000000"

  lemma {:induction false} SaturatedIs()
    ensures AllDigits(SATURATED) && NatOf(SATURATED) == Pow10(18)
  {
    NatOfTenPower(18);
    assert SATURATED == "1" + Zeros(18) by {
      assert |SATURATED| == 19 && forall i | 0 < i < 19 :: SATURATED[i] == '0';
    }
  }

  function Zeros(n: nat): (s: string)
    ensures |s| == n && forall i | 0 <= i < n :: s[i] == '0'
  {
    seq(n, i => '0')
  }

  lemma {:induction false} NatOfTenPower(n: nat)
    ensures AllDigits("1" + Zeros(n)) && NatOf("1" + Zeros(n)) == Pow10(n)
  {
    var s := "1" + Zeros(n);
    if n == 0 {
      assert s[..0] == "";
    } else {
      assert s[..|s| - 1] == "1" + Zeros(n - 1);
      NatOfTenPower(n - 1);
    }
  }

  /** big.Int.Quo: division truncated toward zero. */
  function Quo(a: int, b: nat): int
    requires b >= 1
  {
    if a >= 0 then a / b else -((-a) / b)
  }

  /** The exponent as the code reads it: 10^18 for everything beyond. */
  method ReadExponent(expPart: string, ghost n: Numeral) returns (exp: Int64)
    requires Valid(n) && n.mark != "" && expPart == n.expSign + n.exp
    ensures if NatOf(n.exp) <= Pow10(18) then exp as int == Exponent(n)
            else exp as int == if n.expSign == "-" then 0 - Pow10(18) else Pow10(18)
    ensures 0 - Pow10(18) <= exp as int <= Pow10(18)
  {
    SignsTrimmed(n);
    Pow10Values();
    TrimmedIsSame(n.exp);
    var expNeg := "-" <= expPart;
    var expDigits := TrimZeros(TrimSigns(expPart));
    NatOfBound(expDigits);
    if |expDigits| > 18 {
      Pow10Monotone(18, |expDigits| - 1);
      SaturatedIs();
      expDigits := SATURATED;
    } else {
      Pow10Monotone(|expDigits|, 18);
    }
    exp := 0;
    if expDigits != "" {
      exp := NatOf(expDigits) as Int64;
    }
    if expNeg {
      exp := -exp;
    }
  }

  /** The text taken apart at its sign, its exponent mark and its dot. */
  method Split(text: string, ghost n: Numeral) returns (neg: bool, intPart: string, fracPart: string, expPart: string)
    requires Valid(n) && text == Spell(n)
    ensures neg <==> n.sign == "-"
    ensures intPart == n.whole && fracPart == n.frac && expPart == n.expSign + n.exp
    ensures expPart != "" <==> n.mark != ""
  {
    var num := text;
    neg := false;
    if "-" <= num {
      neg, num := true, num[1..];
    } else if "+" <= num {
      num := num[1..];
    }
    assert num == Mantissa(n) + Power(n) && (neg <==> n.sign == "-") by {
      SignSplits(n);
      assert num == AfterSign(text);
    }
    var mantissa;
    mantissa, expPart := SplitMark(num, n);
    intPart, fracPart := mantissa, "";
    var j := IndexAny(mantissa, ".");
    if j < |mantissa| {
      intPart, fracPart := mantissa[..j], mantissa[j + 1..];
    }
    DotSplits(n);
  }

  method SplitMark(num: string, ghost n: Numeral) returns (mantissa: string, expPart: string)
    requires Valid(n) && num == Mantissa(n) + Power(n)
    ensures mantissa == Mantissa(n) && expPart == n.expSign + n.exp
    ensures expPart != "" <==> n.mark != ""
  {
    mantissa, expPart := num, "";
    var i := IndexAny(num, "eE");
    if i < |num| {
      mantissa, expPart := num[..i], num[i + 1..];
    }
    MarkSplits(n);
    assert num[..|num|] == num;
  }

  lemma {:induction false} PartsAreShort(n: Numeral)
    requires Valid(n)
    ensures |n.frac| <= |Spell(n)| && |TrimZeros(Digits(n))| <= |Spell(n)|
  {
    TrimmedIsSame(Digits(n));
  }

  /** For every numeral and every multiplier up to the largest unit: the exact
      product truncated toward zero, or no value when it does not fit.  Neither
      early exit nor the saturation of the exponent changes the answer. */
  method TruncProduct(text: string, mult: nat, ghost n: Numeral) returns (r: Option<int>)
    requires Valid(n) && text == Spell(n) && 1 <= mult <= TWO_80 && |text| <= LONGEST
    ensures r == Exact(n, mult)
  {
    var neg, intPart, fracPart, expPart := Split(text, n);
    PartsAreShort(n);
    Pow10Values();
    var digits := TrimZeros(intPart + fracPart);
    TrimmedIsSame(Digits(n));
    if digits == "" {
      ZeroIsZero(n, mult);
      return Some(0);
    }
    var exp: Int64 := 0;
    if expPart != "" {
      exp := ReadExponent(expPart, n);
    }
    var scale := exp - |fracPart| as Int64;
    var top := |digits| as Int64 + scale;
    ghost var saturated := NatOf(n.exp) > Pow10(18);
    assert !saturated ==> scale as int == Scale(n) && top as int == Top(n);
    assert saturated ==> if n.expSign == "-" then Top(n) <= top as int < -25 else Top(n) >= top as int > 20;
    if top > 20 {
      HighNeverFits(n, mult);
      return None;
    } else if top < -25 {
      LowIsZero(n, mult);
      return Some(0);
    }
    r := Product(NatOf(digits), scale as int, mult, neg);
  }

  /** The part of truncProduct that works on big.Rat. */
  method Product(d: nat, scale: int, mult: nat, neg: bool) returns (r: Option<int>)
    ensures r == Fit(neg, Magnitude(d, scale, mult))
  {
    var num, den: nat := d, 1;
    if scale >= 0 {
      num := num * Pow10(scale);
    } else {
      den := den * Pow10(-scale);
    }
    num := num * mult;
    FactorsCommute(d, if scale >= 0 then Pow10(scale) else 1, mult);
    assert num == Numerator(d, scale, mult) && den == Denominator(scale);
    var q := Quo(if neg then 0 - num else num, den);
    QuoOfNegative(num, den);
    if !InInt64(q) {
      return None;
    }
    return Some(q);
  }

  lemma {:induction false} FactorsCommute(a: nat, b: nat, c: nat)
    ensures a * b * c == a * c * b
  {
  }

  lemma {:induction false} QuoOfNegative(a: nat, b: nat)
    requires b >= 1
    ensures Quo(0 - a, b) == 0 - Quotient(a, b) && Quo(a, b) == Quotient(a, b)
  {
    assert a == 0 ==> a / b == 0;
  }
}
