/**
 Whole numbers written as floats (wholeFloatToInt64 in unmarshal.go): "1e3" and
 "-9223372036854775808.0" read as integers, decided on the decimal text alone.
 */
module WholeFloats {
  import opened Paths
  import opened Numerals
  import opened Decimals
  import opened Units

  // ---------- the specification ----------

  /** unicode.IsSpace */
  predicate IsGoSpace(c: char) {
    var r := c as int;
    || 0x09 <= r <= 0x0D || r == 0x20 || r == 0x85 || r == 0xA0 || r == 0x1680 || 0x2000 <= r <= 0x200A
    || r == 0x2028 || r == 0x2029 || r == 0x202F || r == 0x205F || r == 0x3000
  }

  function TrimGoLeft(s: string): string {
    if s != "" && IsGoSpace(s[0]) then TrimGoLeft(s[1..]) else s
  }

  function TrimGoRight(s: string): string {
    if s != "" && IsGoSpace(s[|s| - 1]) then TrimGoRight(s[..|s| - 1]) else s
  }

  function TrimSpace(s: string): string {
    TrimGoRight(TrimGoLeft(s))
  }

  lemma {:induction false} TrimSpaceShortens(s: string)
    ensures |TrimGoLeft(s)| <= |s| && |TrimGoRight(s)| <= |s|
  {
    if s != "" {
      TrimSpaceShortens(s[1..]);
      TrimSpaceShortens(s[..|s| - 1]);
    }
  }

  predicate FloatLike(raw: string) {
    exists i | 0 <= i < |raw| :: raw[i] in ".eE"
  }

  predicate InInt32(x: int) {
    -0x8000_0000 <= x <= 0x7fff_ffff
  }

  /** The numeral's value, when that is an integer and fits int64. */
  function Whole(n: Numeral): Option<int>
    requires Valid(n)
  {
    var num, den := Numerator(NatOf(Digits(n)), Scale(n), 1), Denominator(Scale(n));
    if Divides(den, num) then Fit(n.sign == "-", Quotient(num, den)) else None
  }

  predicate Divides(b: nat, a: nat)
    requires b >= 1
  {
    Quotient(a, b) * b == a
  }

  function WholeFloat(raw: string): Option<int> {
    var n := ReadNumeral(TrimSpace(raw));
    if FloatLike(raw) && n.Some? && InInt32(Exponent(n.value)) then Whole(n.value) else None
  }

  // ---------- digit runs ----------

  lemma {:induction false} NatOfConcat(a: string, b: string)
    requires AllDigits(a) && AllDigits(b)
    ensures AllDigits(a + b) && NatOf(a + b) == NatOf(a) * Pow10(|b|) + NatOf(b)
  {
    if b == "" {
      assert a + b == a;
    } else {
      var b' := b[..|b| - 1];
      assert (a + b)[..|a + b| - 1] == a + b';
      NatOfConcat(a, b');
      Regroup(NatOf(a), Pow10(|b'|), NatOf(b'), Digit(b[|b| - 1]));
    }
  }

  lemma {:induction false} Regroup(a: nat, p: nat, b: nat, d: nat)
    ensures 10 * (a * p + b) + d == a * (10 * p) + (10 * b + d)
  {
  }

  predicate AllZero(s: string) {
    forall i | 0 <= i < |s| :: s[i] == '0'
  }

  lemma {:induction false} ZeroRun(s: string)
    requires AllDigits(s)
    ensures NatOf(s) == 0 <==> AllZero(s)
  {
    if s != "" {
      var init := s[..|s| - 1];
      ZeroRun(init);
      if AllZero(init) && s[|s| - 1] == '0' {
        forall i | 0 <= i < |s| ensures s[i] == '0' {
          assert i < |init| ==> s[i] == init[i];
        }
      }
    }
  }

  method AllDigitsScan(s: string) returns (all: bool)
    ensures all == AllDigits(s)
  {
    for i := 0 to |s|
      invariant AllDigits(s[..i])
    {
      if s[i] < '0' || s[i] > '9' {
        return false;
      }
      assert s[..i + 1] == s[..i] + [s[i]];
    }
    assert s[..|s|] == s;
    return true;
  }

  method AllZeroScan(s: string) returns (all: bool)
    ensures all == AllZero(s)
  {
    for i := 0 to |s|
      invariant AllZero(s[..i])
    {
      if s[i] != '0' {
        return false;
      }
      assert s[..i + 1] == s[..i] + [s[i]];
    }
    assert s[..|s|] == s;
    return true;
  }

  // ---------- the three ways out ----------

  lemma {:induction false} WholeAtScale(n: Numeral, digits: string)
    requires Valid(n) && digits == TrimZeros(Digits(n)) && Scale(n) >= 0
    ensures AllDigits(digits)
    ensures Whole(n) == Fit(n.sign == "-", NatOf(digits) * Pow10(Scale(n)))
  {
    TrimmedIsSame(Digits(n));
    var p := NatOf(digits) * Pow10(Scale(n));
    assert Numerator(NatOf(digits), Scale(n), 1) == NatOf(digits) * 1 * Pow10(Scale(n)) == p;
    TimesOne(p);
  }

  /** With 20 digits or more the value is out of range. */
  lemma {:induction false} TooLong(n: Numeral, digits: string)
    requires Valid(n) && digits == TrimZeros(Digits(n)) && digits != "" && Scale(n) >= 0 && |digits| + Scale(n) > 19
    ensures Whole(n) == None
  {
    WholeAtScale(n, digits);
    TrimmedIsSame(Digits(n));
    NatOfBound(digits);
    Pow10Values();
    LongProduct(NatOf(digits), |digits|, Scale(n), 19);
  }

  lemma {:induction false} LongProduct(d: nat, len: nat, scale: nat, k: nat)
    requires len > 0 && Pow10(len - 1) <= d && len + scale > k
    ensures Pow10(k) <= d * Pow10(scale)
  {
    Pow10Add(len - 1, scale);
    Pow10Monotone(k, len - 1 + scale);
    MulMonotone(Pow10(len - 1), d, Pow10(scale));
  }

  lemma {:induction false} MulStrict(a: nat, b: nat, c: nat)
    requires a < b && c >= 1
    ensures a * c < b * c
  {
    MulMonotone(a + 1, b, c);
  }

  lemma {:induction false} ShortProduct(d: nat, len: nat, scale: nat, k: nat)
    requires d < Pow10(len) && len + scale <= k
    ensures d * Pow10(scale) < Pow10(k)
  {
    Pow10Monotone(len + scale, k);
    MulStrict(d, Pow10(len), Pow10(scale));
    Pow10Add(len, scale);
  }

  lemma {:induction false} Fractions(n: Numeral, digits: string)
    requires Valid(n) && digits == TrimZeros(Digits(n)) && Scale(n) < 0
    ensures AllDigits(digits)
    ensures var den := Pow10(-Scale(n));
            Whole(n) == if Divides(den, NatOf(digits)) then Fit(n.sign == "-", Quotient(NatOf(digits), den)) else None
  {
    TrimmedIsSame(Digits(n));
    assert Numerator(NatOf(digits), Scale(n), 1) == NatOf(digits);
  }

  /** All digits are behind the point: not whole. */
  lemma {:induction false} BelowOne(n: Numeral, digits: string)
    requires Valid(n) && digits == TrimZeros(Digits(n)) && digits != "" && |digits| <= -Scale(n)
    ensures Whole(n) == None
  {
    Fractions(n, digits);
    TrimmedIsSame(Digits(n));
    NatOfBound(digits);
    Pow10Monotone(|digits|, -Scale(n));
    SmallQuotient(NatOf(digits), Pow10(-Scale(n)));
  }

  lemma {:induction false} QuotientSplit(a: nat, b: nat, c: nat)
    requires b >= 1 && c < b
    ensures Quotient(a * b + c, b) == a
    ensures Divides(b, a * b + c) <==> c == 0
  {
    QuotientIs(a * b + c, b, a);
  }

  /** The digits split at the point: whole exactly when those behind it are zeros. */
  lemma {:induction false} HeadAndTail(n: Numeral, digits: string, head: string, tail: string)
    requires Valid(n) && digits == TrimZeros(Digits(n)) && digits == head + tail && |tail| == -Scale(n) && |tail| > 0
    ensures AllDigits(head)
    ensures Whole(n) == if AllZero(tail) then Fit(n.sign == "-", NatOf(head)) else None
  {
    Fractions(n, digits);
    assert AllDigits(head) by { assert forall i | 0 <= i < |head| :: head[i] == digits[i]; }
    assert AllDigits(tail) by { assert forall i | 0 <= i < |tail| :: tail[i] == digits[|head| + i]; }
    NatOfConcat(head, tail);
    NatOfBound(tail);
    ZeroRun(tail);
    QuotientSplit(NatOf(head), Pow10(|tail|), NatOf(tail));
  }

  lemma {:induction false} WholeZero(n: Numeral)
    requires Valid(n) && TrimZeros(Digits(n)) == ""
    ensures Whole(n) == Some(0)
  {
    TrimmedIsSame(Digits(n));
    assert Numerator(0, Scale(n), 1) == 0;
    QuotientIs(0, Denominator(Scale(n)), 0);
  }

  // ---------- wholeFloatToInt64 ----------

  const MAX_UINT64: int := 0xffff_ffff_ffff_ffff

  /** strconv.ParseInt with bit size 32. */
  function ParseInt32(s: string): Option<int> {
    if IsInteger(s) && InInt32(IntegerOf(s)) then Some(IntegerOf(s)) else None
  }

  /** strconv.ParseUint on a digit run. */
  function ParseUint64(s: string): Option<nat>
    requires AllDigits(s)
  {
    if NatOf(s) <= MAX_UINT64 then Some(NatOf(s)) else None
  }

  /** The sign applied to a magnitude with an explicit range check. */
  method ApplySign(neg: bool, mag: nat) returns (r: Option<int>)
    requires mag <= MAX_UINT64
    ensures r == Fit(neg, mag)
  {
    if neg {
      if mag < MAX_INT64 + 1 {
        return Some(0 - mag);
      } else if mag == MAX_INT64 + 1 {
        return Some(MIN_INT64);
      }
      return None;
    }
    if mag > MAX_INT64 {
      return None;
    }
    return Some(mag);
  }

  lemma {:induction false} WithZeros(digits: string, zeros: nat)
    requires AllDigits(digits) && |digits| + zeros <= 19
    ensures var s := digits + Zeros(zeros);
            AllDigits(s) && NatOf(s) == NatOf(digits) * Pow10(zeros) && NatOf(s) <= MAX_UINT64
  {
    ZeroRun(Zeros(zeros));
    NatOfConcat(digits, Zeros(zeros));
    NatOfBound(digits);
    ShortProduct(NatOf(digits), |digits|, zeros, 19);
    assert Pow10(19) <= MAX_UINT64 by { Pow10Values(); }
  }

  /** The digits followed by zeros, for a numeral without digits behind the point. */
  method Shifted(digits: string, zeros: Int64, ghost n: Numeral) returns (magStr: Option<string>)
    requires Valid(n) && digits == TrimZeros(Digits(n)) && digits != ""
    requires zeros as int == Scale(n) && zeros >= 0 && |digits| <= LONGEST
    ensures if magStr.None? then Whole(n) == None
            else AllDigits(magStr.value) && Whole(n) == Fit(n.sign == "-", NatOf(magStr.value)) &&
                 NatOf(magStr.value) <= MAX_UINT64
  {
    if zeros > 19 || |digits| as Int64 + zeros > 19 {
      TooLong(n, digits);
      return None;
    }
    WholeAtScale(n, digits);
    WithZeros(digits, zeros as int);
    return Some(digits + Zeros(zeros as int));
  }

  /** The digits before the point, if those behind it are all zero. */
  method Cut(digits: string, r: Int64, ghost n: Numeral) returns (magStr: Option<string>)
    requires Valid(n) && digits == TrimZeros(Digits(n)) && digits != ""
    requires r as int == -Scale(n) && r > 0 && |digits| <= LONGEST
    ensures if magStr.None? then Whole(n) == None
            else AllDigits(magStr.value) && Whole(n) == Fit(n.sign == "-", NatOf(magStr.value))
  {
    if r >= |digits| as Int64 {
      BelowOne(n, digits);
      return None;
    }
    var rr := r as int;
    var head, tail := digits[..|digits| - rr], digits[|digits| - rr..];
    HeadAndTail(n, digits, head, tail);
    var zero := AllZeroScan(tail);
    return if zero then Some(head) else None;
  }

  /** The value of a numeral from its digits and the number of them behind the point. */
  method FromDigits(digits: string, r: Int64, neg: bool, ghost n: Numeral) returns (v: Option<int>)
    requires Valid(n) && digits == TrimZeros(Digits(n)) && digits != "" && r as int == -Scale(n)
    requires neg <==> n.sign == "-"
    requires |digits| <= LONGEST && 0 - LONGEST <= r as int
    ensures v == Whole(n)
  {
    var magStr;
    if r <= 0 {
      magStr := Shifted(digits, -r, n);
    } else {
      magStr := Cut(digits, r, n);
    }
    if magStr.None? {
      return None;
    }
    var mag := ParseUint64(magStr.value);
    if mag.None? {
      return None;
    }
    v := ApplySign(neg, mag.value);
  }

  lemma {:induction false} DigitsAreShort(s: string)
    ensures Valid(Apart(s)) ==> |TrimZeros(Digits(Apart(s)))| <= |s| && |Apart(s).frac| <= |s|
  {
    if Valid(Apart(s)) {
      ApartSpells(s);
      PartsAreShort(Apart(s));
    }
  }

  /** The exponent part is acceptable exactly when it reads as an int32. */
  lemma {:induction false} ExponentReads(n: Numeral, tail: string)
    requires n.expSign == SignOf(tail) && n.exp == AfterSign(tail)
    ensures IsInteger(tail) <==> n.exp != "" && AllDigits(n.exp)
    ensures IsInteger(tail) ==> IntegerOf(tail) == if n.expSign == "-" then 0 - NatOf(n.exp) else NatOf(n.exp)
  {
  }

  ghost predicate MantissaOf(n: Numeral, mantissa: string) {
    var j := IndexAny(mantissa, ".");
    && n.whole == mantissa[..j] && (n.dot <==> j < |mantissa|)
    && n.frac == if j < |mantissa| then mantissa[j + 1..] else ""
  }

  ghost predicate ExponentOf(n: Numeral, exp: int) {
    if n.mark == "" then exp == 0 && n.expSign == "" && n.exp == ""
    else n.exp != "" && AllDigits(n.exp) && exp == if n.expSign == "-" then 0 - NatOf(n.exp) else NatOf(n.exp)
  }

  ghost predicate Spelling(n: Numeral) {
    IsSign(n.sign) && IsSign(n.expSign) && (n.mark == "" || n.mark == "e" || n.mark == "E")
  }

  lemma {:induction false} AssembledPieces(sign: string, m: string, power: string)
    requires IsSign(sign) && (power == "" || power[0] == 'e' || power[0] == 'E')
    ensures var n := Assemble(sign, m, power);
            && Spelling(n) && MantissaOf(n, m) && n.sign == sign
            && (if power == "" then n.mark == "" && n.expSign == "" && n.exp == ""
                else n.mark != "" && n.expSign == SignOf(power[1..]) && n.exp == AfterSign(power[1..]))
  {
  }

  lemma {:induction false} Pieces(text: string)
    ensures var n, s := Apart(text), AfterSign(text);
            var i := IndexAny(s, "eE");
            && Spelling(n) && MantissaOf(n, s[..i]) && n.sign == SignOf(text)
            && (if i < |s| then n.mark != "" && n.expSign == SignOf(s[i + 1..]) && n.exp == AfterSign(s[i + 1..])
                else n.mark == "" && n.expSign == "" && n.exp == "")
  {
    var s := AfterSign(text);
    var i := IndexAny(s, "eE");
    var power := s[i..];
    if i < |s| {
      assert power[0] == s[i] && power[1..] == s[i + 1..];
      assert s[i] == 'e' || s[i] == 'E';
    }
    SignAndRest(text);
    AssembledPieces(SignOf(text), s[..i], power);
  }

  /** strings.HasPrefix and the slice after it. */
  method StripSign(text: string) returns (neg: bool, s: string)
    ensures s == AfterSign(text) && (neg <==> SignOf(text) == "-")
  {
    neg, s := false, text;
    if "-" <= s {
      neg, s := true, s[1..];
    } else if "+" <= s {
      s := s[1..];
    }
  }

  /** The mantissa and the exponent; no exponent when it is no int32. */
  method SplitExponent(s: string, ghost text: string) returns (mantissa: string, exp: Option<Int64>)
    requires s == AfterSign(text)
    ensures MantissaOf(Apart(text), mantissa)
    ensures exp.Some? ==> InInt32(exp.value as int) && ExponentOf(Apart(text), exp.value as int)
    ensures exp.None? ==> Valid(Apart(text)) ==> !InInt32(Exponent(Apart(text)))
  {
    Pieces(text);
    mantissa := s;
    var i := IndexAny(s, "eE");
    assert s[..|s|] == s;
    if i < |s| {
      mantissa := s[..i];
      ExponentReads(Apart(text), s[i + 1..]);
      var e := ParseInt32(s[i + 1..]);
      return mantissa, if e.None? then None else Some(e.value as Int64);
    }
    return mantissa, Some(0);
  }

  /** For every text: a value comes back exactly when the trimmed text is a numeral
      with a point or an exponent, the exponent fits int32, and the number is an
      integer in range; and it is that integer. */
  method WholeFloatToInt64(raw: string) returns (v: Option<int>)
    requires |raw| <= LONGEST - 0x8000_0000
    ensures v == WholeFloat(raw)
  {
    if IndexAny(raw, ".eE") == |raw| {
      return None;
    }
    assert FloatLike(raw);
    TrimSpaceShortens(raw);
    TrimSpaceShortens(TrimGoLeft(raw));
    var text := TrimSpace(raw);
    var neg, s := StripSign(text);
    Pieces(text);
    var mantissa, exp := SplitExponent(s, text);
    if exp.None? {
      return None;
    }
    v := FromMantissa(mantissa, exp.value, neg, text, Apart(text));
  }

  /** The rest of it, once sign and exponent are read. */
  method FromMantissa(mantissa: string, exp: Int64, neg: bool, ghost text: string, ghost n: Numeral)
    returns (v: Option<int>)
    requires n == Apart(text) && |text| <= LONGEST - 0x8000_0000 && InInt32(exp as int)
    requires Spelling(n) && MantissaOf(n, mantissa) && ExponentOf(n, exp as int) && (neg <==> n.sign == "-")
    ensures v == if Valid(n) then Whole(n) else None
  {
    var intPart, fracPart := mantissa, "";
    var j := IndexAny(mantissa, ".");
    if j < |mantissa| {
      intPart, fracPart := mantissa[..j], mantissa[j + 1..];
    }
    assert intPart == n.whole && fracPart == n.frac;
    if intPart == "" && fracPart == "" {
      return None;
    }
    var a := AllDigitsScan(intPart);
    var b := AllDigitsScan(fracPart);
    if !a || !b {
      return None;
    }
    DigitsAreShort(text);
    var digits := TrimZeros(intPart + fracPart);
    if digits == "" {
      WholeZero(n);
      return Some(0);
    }
    var r := |fracPart| as Int64 - exp;
    v := FromDigits(digits, r, neg, n);
  }

  /** An integer times den is a signed num. */
  predicate Denotes(v: int, neg: bool, num: nat, den: nat) {
    v * den == if neg then 0 - num else num
  }

  lemma {:induction false} DenotesIs(v: int, neg: bool, num: nat, den: nat)
    requires den >= 1
    ensures Denotes(v, neg, num, den) <==>
            Divides(den, num) && v == if neg then 0 - Quotient(num, den) else Quotient(num, den)
  {
    var q := if neg then 0 - v else v;
    assert q * den == if neg then 0 - (v * den) else v * den;
    if Denotes(v, neg, num, den) {
      assert q * den == num;
      assert (q + 1) * den == q * den + den;
      QuotientIs(num, den, q);
    }
  }

  /** A float spelling with an int32 exponent is read as the integer v exactly when it
      denotes v, its digits times the power of ten, and v is an int64. */
  lemma {:induction false} WholeMeans(raw: string, v: int)
    requires FloatLike(raw) && ReadNumeral(TrimSpace(raw)).Some? && InInt32(Exponent(ReadNumeral(TrimSpace(raw)).value))
    ensures var n := ReadNumeral(TrimSpace(raw)).value;
            WholeFloat(raw) == Some(v) <==>
            InInt64(v) && Denotes(v, n.sign == "-", Numerator(NatOf(Digits(n)), Scale(n), 1), Denominator(Scale(n)))
  {
    var n := ReadNumeral(TrimSpace(raw)).value;
    DenotesIs(v, n.sign == "-", Numerator(NatOf(Digits(n)), Scale(n), 1), Denominator(Scale(n)));
  }
}
