/**
 Durations and byte sizes: a number and a unit (splitUnitValue, parseDuration,
 parseBytes and readBytes in config.go).  Integers take a fast path; it agrees
 with the exact one in value and in overflow.
 */
module Units {
  import opened Paths
  import opened Numerals
  import opened Decimals

  datatype Failure = NoNumber | Unexpected | UnknownUnit | Overflow | Negative | Invalid

  datatype Outcome<+T> = Good(value: T) | Bad(why: Failure)

  // ---------- reading a numeral ----------

  function SignOf(s: string): string {
    if s != "" && (s[0] == '+' || s[0] == '-') then [s[0]] else ""
  }

  lemma {:induction false} SignAndRest(s: string)
    ensures SignOf(s) + AfterSign(s) == s && IsSign(SignOf(s))
  {
  }

  function Assemble(sign: string, m: string, power: string): Numeral {
    var j := IndexAny(m, ".");
    var tail := if power == "" then "" else power[1..];
    Numeral(sign, m[..j], j < |m|, if j < |m| then m[j + 1..] else "",
            if power == "" then "" else [power[0]], SignOf(tail), AfterSign(tail))
  }

  function Apart(s: string): Numeral {
    var body := AfterSign(s);
    var i := IndexAny(body, "eE");
    Assemble(SignOf(s), body[..i], body[i..])
  }

  /** unitNumberRegex: the numeral a text spells, if it spells one. */
  function ReadNumeral(s: string): Option<Numeral> {
    if Valid(Apart(s)) then Some(Apart(s)) else None
  }

  lemma {:induction false} MantissaBack(sign: string, m: string, power: string)
    ensures Mantissa(Assemble(sign, m, power)) == m
  {
    var j := IndexAny(m, ".");
    if j < |m| {
      assert m == m[..j] + ("." + m[j + 1..]);
    } else {
      assert m[..j] + "" == m;
    }
  }

  lemma {:induction false} PowerBack(sign: string, m: string, power: string)
    ensures Power(Assemble(sign, m, power)) == power
  {
    if power != "" {
      SignAndRest(power[1..]);
      assert power == [power[0]] + power[1..];
    }
  }

  lemma {:induction false} AssembleSpells(sign: string, m: string, power: string)
    ensures Spell(Assemble(sign, m, power)) == sign + (m + power)
  {
    MantissaBack(sign, m, power);
    PowerBack(sign, m, power);
  }

  lemma {:induction false} ApartSpells(s: string)
    ensures Spell(Apart(s)) == s
  {
    var body := AfterSign(s);
    var i := IndexAny(body, "eE");
    AssembleSpells(SignOf(s), body[..i], body[i..]);
    assert body[..i] + body[i..] == body;
    SignAndRest(s);
  }

  /** A text is read as a numeral exactly when it spells that numeral. */
  lemma {:induction false} ReadsWhatIsSpelled(s: string, n: Numeral)
    ensures ReadNumeral(s) == Some(n) <==> Valid(n) && Spell(n) == s
  {
    ApartSpells(s);
    if Valid(n) && Spell(n) == s {
      SpelledApart(n);
    }
  }

  lemma {:induction false} PowerApart(n: Numeral)
    requires Valid(n) && n.mark != ""
    ensures Power(n)[0] == n.mark[0] && Power(n)[1..] == n.expSign + n.exp
    ensures SignOf(n.expSign + n.exp) == n.expSign && AfterSign(n.expSign + n.exp) == n.exp
  {
    assert IsDigit(n.exp[0]);
    if n.expSign == "" {
      assert n.expSign + n.exp == n.exp;
    } else {
      assert (n.expSign + n.exp)[1..] == n.exp;
    }
  }

  lemma {:induction false} AssembleBack(n: Numeral)
    requires Valid(n)
    ensures Assemble(n.sign, Mantissa(n), Power(n)) == n
  {
    DotSplits(n);
    if n.mark != "" {
      PowerApart(n);
    }
  }

  lemma {:induction false} BodyApart(n: Numeral)
    requires Valid(n)
    ensures var body := Mantissa(n) + Power(n);
            var i := IndexAny(body, "eE");
            body[..i] == Mantissa(n) && body[i..] == Power(n)
  {
    var body := Mantissa(n) + Power(n);
    MarkSplits(n);
    assert |Mantissa(n)| == IndexAny(body, "eE");
    assert body[|Mantissa(n)|..] == Power(n);
  }

  lemma {:induction false} SpelledApart(n: Numeral)
    requires Valid(n)
    ensures Apart(Spell(n)) == n
  {
    SignSplits(n);
    BodyApart(n);
    AssembleBack(n);
  }

  // ---------- splitUnitValue ----------

  predicate IsUnitLetter(c: char) {
    'a' <= c <= 'z' || 'A' <= c <= 'Z'
  }

  predicate AllSpace(s: string) {
    forall i | 0 <= i < |s| :: IsSpace(s[i])
  }

  predicate AllUnitLetters(s: string) {
    forall i | 0 <= i < |s| :: IsUnitLetter(s[i])
  }

  function TrimLeft(s: string): string {
    if s != "" && IsSpace(s[0]) then TrimLeft(s[1..]) else s
  }

  function TrimRight(s: string): string {
    if s != "" && IsSpace(s[|s| - 1]) then TrimRight(s[..|s| - 1]) else s
  }

  function Trim(s: string): string {
    TrimRight(TrimLeft(s))
  }

  /** Where the trailing run of letters starts. */
  function UnitStart(s: string): (i: nat)
    ensures i <= |s|
  {
    if s != "" && IsUnitLetter(s[|s| - 1]) then UnitStart(s[..|s| - 1]) else |s|
  }

  datatype UnitValue = UnitValue(num: string, unit: string)

  function SplitUnitValue(s: string): Outcome<UnitValue> {
    var t := Trim(s);
    var i := UnitStart(t);
    var num := TrimRight(t[..i]);
    if num == "" then Bad(NoNumber)
    else if ReadNumeral(num).None? then Bad(Unexpected)
    else Good(UnitValue(num, t[i..]))
  }

  method SplitUnitValueScan(text: string) returns (r: Outcome<UnitValue>)
    ensures r == SplitUnitValue(text)
  {
    var s := Trim(text);
    var i := |s|;
    assert s[..i] == s;
    while i > 0 && IsUnitLetter(s[i - 1])
      invariant 0 <= i <= |s|
      invariant UnitStart(s[..i]) == UnitStart(s)
    {
      assert s[..i][..i - 1] == s[..i - 1];
      i := i - 1;
    }
    assert UnitStart(s[..i]) == i;
    var num, unit := TrimRight(s[..i]), s[i..];
    if num == "" {
      return Bad(NoNumber);
    }
    if ReadNumeral(num).None? {
      return Bad(Unexpected);
    }
    return Good(UnitValue(num, unit));
  }

  lemma {:induction false} TrimLeftDrops(a: string, b: string)
    requires AllSpace(a) && (b != "" ==> !IsSpace(b[0]))
    ensures TrimLeft(a + b) == b
  {
    if a == "" {
      assert a + b == b;
    } else {
      assert (a + b)[1..] == a[1..] + b;
      TrimLeftDrops(a[1..], b);
    }
  }

  lemma {:induction false} TrimRightDrops(a: string, b: string)
    requires AllSpace(b) && (a != "" ==> !IsSpace(a[|a| - 1]))
    ensures TrimRight(a + b) == a
  {
    if b == "" {
      assert a + b == a;
    } else {
      assert (a + b)[..|a + b| - 1] == a + b[..|b| - 1];
      TrimRightDrops(a, b[..|b| - 1]);
    }
  }

  lemma {:induction false} UnitStartIs(a: string, b: string)
    requires AllUnitLetters(b) && (a != "" ==> !IsUnitLetter(a[|a| - 1]))
    ensures UnitStart(a + b) == |a|
  {
    if b == "" {
      assert a + b == a;
    } else {
      assert (a + b)[..|a + b| - 1] == a + b[..|b| - 1];
      UnitStartIs(a, b[..|b| - 1]);
    }
  }

  lemma {:induction false} NumeralEnds(n: Numeral)
    requires Valid(n)
    ensures var s := Spell(n);
            s != "" && !IsSpace(s[0]) && !IsSpace(s[|s| - 1]) && !IsUnitLetter(s[|s| - 1])
  {
    var s := Spell(n);
    var last := if n.mark != "" then n.exp[|n.exp| - 1]
                else if n.frac != "" then n.frac[|n.frac| - 1]
                else if n.dot then '.' else n.whole[|n.whole| - 1];
    assert s[|s| - 1] == last && (last == '.' || IsDigit(last));
    var first := if n.sign != "" then n.sign[0] else if n.whole != "" then n.whole[0] else '.';
    assert s[0] == first && (first == '.' || first == '+' || first == '-' || IsDigit(first));
  }

  lemma {:induction false} TrimDrops(left: string, core: string, right: string)
    requires AllSpace(left) && AllSpace(right) && core != "" && !IsSpace(core[0]) && !IsSpace(core[|core| - 1])
    ensures Trim(left + (core + right)) == core
  {
    TrimLeftDrops(left, core + right);
    TrimRightDrops(core, right);
  }

  lemma {:induction false} HeadOfCore(n: Numeral, gap: string, unit: string)
    requires Valid(n) && AllUnitLetters(unit) && AllSpace(gap)
    ensures var head := Spell(n) + gap;
            && UnitStart(head + unit) == |head| && (head + unit)[..|head|] == head && (head + unit)[|head|..] == unit
            && TrimRight(head) == Spell(n)
  {
    var num := Spell(n);
    var head := num + gap;
    NumeralEnds(n);
    assert head[|head| - 1] == if gap == "" then num[|num| - 1] else gap[|gap| - 1];
    UnitStartIs(head, unit);
    TrimRightDrops(num, gap);
  }

  /** The split once the whitespace around is gone. */
  lemma {:induction false} CoreSplits(n: Numeral, gap: string, unit: string, s: string)
    requires Valid(n) && AllUnitLetters(unit) && AllSpace(gap) && Trim(s) == (Spell(n) + gap) + unit
    ensures SplitUnitValue(s) == Good(UnitValue(Spell(n), unit))
  {
    HeadOfCore(n, gap, unit);
    ReadsWhatIsSpelled(Spell(n), n);
    assert Spell(n) != "" by { NumeralEnds(n); }
  }

  /** A number, then a unit, with whitespace around and between: the split finds
      both, also where the unit starts like an exponent. */
  lemma {:induction false} NumberAndUnitSplit(n: Numeral, unit: string, left: string, gap: string, right: string)
    requires Valid(n) && AllUnitLetters(unit) && AllSpace(left) && AllSpace(gap) && AllSpace(right)
    ensures SplitUnitValue(left + (((Spell(n) + gap) + unit) + right)) == Good(UnitValue(Spell(n), unit))
  {
    var num := Spell(n);
    NumeralEnds(n);
    if unit == "" {
      assert (num + gap) + unit == num + gap && num + "" == num;
      Assoc(num, gap, right);
      TrimDrops(left, num, gap + right);
      CoreSplits(n, "", unit, left + (((num + gap) + unit) + right));
    } else {
      var core := (num + gap) + unit;
      assert core[0] == num[0] && core[|core| - 1] == unit[|unit| - 1];
      TrimDrops(left, core, right);
      CoreSplits(n, gap, unit, left + (core + right));
    }
  }

  // ---------- the fast paths ----------

  /** integerRegex */
  predicate IsInteger(s: string) {
    AfterSign(s) != "" && AllDigits(AfterSign(s))
  }

  function IntegerOf(s: string): int
    requires IsInteger(s)
  {
    if "-" <= s then 0 - NatOf(AfterSign(s)) else NatOf(AfterSign(s))
  }

  /** strconv.ParseInt on an integer; None is ErrRange. */
  function ParseInt64(s: string): Option<int>
    requires IsInteger(s)
  {
    if InInt64(IntegerOf(s)) then Some(IntegerOf(s)) else None
  }

  lemma {:induction false} IntegerNumeral(n: Numeral)
    requires Valid(n)
    ensures IsInteger(Spell(n)) <==> !n.dot && n.mark == ""
    ensures IsInteger(Spell(n)) ==>
            IntegerOf(Spell(n)) == (if n.sign == "-" then 0 - NatOf(n.whole) else NatOf(n.whole))
  {
    SignSplits(n);
    var body := AfterSign(Spell(n));
    if n.dot {
      assert body[|n.whole|] == '.';
    } else if n.mark != "" {
      assert body[|n.whole|] == n.mark[0] && !IsDigit(n.mark[0]);
    } else {
      assert body == n.whole;
    }
  }

  lemma {:induction false} TimesOne(a: nat)
    ensures Quotient(a * 1, 1) == a
  {
  }

  lemma {:induction false} IntegerMagnitude(d: nat, mult: nat)
    ensures Magnitude(d, 0, mult) == d * mult
  {
    TimesOne(d * mult);
    assert Numerator(d, 0, mult) == d * mult * 1;
  }

  function FitInt(p: int): Option<int> {
    if InInt64(p) then Some(p) else None
  }

  lemma {:induction false} FitSigned(neg: bool, d: nat, mult: nat)
    ensures Fit(neg, d * mult) == FitInt((if neg then 0 - d else d) * mult)
  {
    SignedTimes(neg, d, mult);
  }

  /** On integers the exact product is the integer product. */
  lemma {:induction false} IntegerExact(n: Numeral, mult: nat)
    requires Valid(n) && IsInteger(Spell(n))
    ensures Exact(n, mult) == FitInt(IntegerOf(Spell(n)) * mult)
  {
    IntegerNumeral(n);
    assert Digits(n) == n.whole && Scale(n) == 0;
    var d := NatOf(n.whole);
    IntegerMagnitude(d, mult);
    FitSigned(n.sign == "-", d, mult);
  }

  lemma {:induction false} SignedTimes(neg: bool, a: nat, b: nat)
    ensures (if neg then 0 - a else a) * b == if neg then 0 - a * b else a * b
  {
    NegativeProduct(a, b);
  }

  lemma {:induction false} NegativeProduct(a: nat, b: nat)
    ensures (0 - a) * b == 0 - a * b
  {
  }

  /** The division bound of durations detects overflow exactly. */
  lemma {:induction false} DivisionBound(n: int, mult: nat)
    requires mult >= 1
    ensures n > Quo(MAX_INT64, mult) || n < Quo(MIN_INT64, mult) <==> !InInt64(n * mult)
  {
    if n >= 0 {
      BoundAbove(n, mult, MAX_INT64);
    } else {
      BoundAbove(0 - n, mult, 0 - MIN_INT64);
      NegativeProduct(0 - n, mult);
    }
    assert MAX_INT64 / mult >= 0 && (0 - MIN_INT64) / mult >= 0 by {
      BoundAbove(0, mult, MAX_INT64);
      BoundAbove(0, mult, 0 - MIN_INT64);
    }
  }

  lemma {:induction false} BoundAbove(n: nat, mult: nat, max: nat)
    requires mult >= 1
    ensures n > max / mult <==> n * mult > max
  {
    var q := max / mult;
    assert q * mult <= max < (q + 1) * mult;
    if n > q {
      MulMonotone(q + 1, n, mult);
    } else {
      MulMonotone(n, q, mult);
    }
  }

  const TWO_64: int := 0x1_0000_0000_0000_0000

  /** int64 multiplication in Go wraps around. */
  function Wrap(x: int): (w: int)
    ensures InInt64(w)
  {
    (x - MIN_INT64) % TWO_64 + MIN_INT64
  }

  lemma {:induction false} WrapIs(x: int)
    ensures Wrap(x) == x <==> InInt64(x)
    ensures Wrap(x) != x ==> Wrap(x) - x >= TWO_64 || x - Wrap(x) >= TWO_64
  {
    var k := (x - MIN_INT64) / TWO_64;
    assert Wrap(x) == x - k * TWO_64;
  }

  lemma {:induction false} QuoIs(a: int, b: nat, q: int)
    requires b >= 1 && Quo(a, b) == q
    ensures 0 - b < a - q * b < b
  {
    if a >= 0 {
      assert a - q * b == a % b;
    } else {
      assert -a - (-q) * b == (-a) % b;
      NegativeFactor(q, b);
    }
  }

  lemma {:induction false} NegativeFactor(q: int, b: nat)
    ensures (-q) * b == -(q * b)
  {
  }

  lemma {:induction false} QuoExact(n: int, b: nat)
    requires b >= 1
    ensures Quo(n * b, b) == n
  {
    if n >= 0 {
      assert n * b >= 0;
      QuotientIs(n * b, b, n);
    } else {
      NegativeFactor(n, b);
      MulMonotone(1, -n, b);
      QuotientIs((-n) * b, b, -n);
    }
  }

  /** The wrap-then-divide test of byte sizes detects overflow exactly. */
  lemma {:induction false} WrapThenDivide(n: int, mult: nat)
    requires 1 <= mult <= MAX_INT64
    ensures Quo(Wrap(n * mult), mult) == n <==> InInt64(n * mult)
  {
    var p := n * mult;
    WrapIs(p);
    if InInt64(p) {
      QuoExact(n, mult);
    } else if Quo(Wrap(p), mult) == n {
      QuoIs(Wrap(p), mult, n);
      assert false;
    }
  }

  // ---------- units ----------

  function DurationUnit(unit: string): (mult: Option<nat>)
    ensures mult.Some? ==> 1 <= mult.value <= MAX_INT64
  {
    if unit == "" then Some(1_000_000)
    else if unit in ["ns", "nanosecond", "nanoseconds", "nano", "nanos"] then Some(1)
    else if unit in ["us", "micro", "micros", "microsecond", "microseconds"] then Some(1_000)
    else if unit in ["ms", "millisecond", "milliseconds"] then Some(1_000_000)
    else if unit in ["s", "second", "seconds"] then Some(1_000_000_000)
    else if unit in ["m", "minute", "minutes"] then Some(60_000_000_000)
    else if unit in ["h", "hour", "hours"] then Some(3_600_000_000_000)
    else if unit in ["d", "day", "days"] then Some(86_400_000_000_000)
    else None
  }

  /** The powers of 1000 that fit int64. */
  function DecimalUnit(unit: string): (mult: Option<nat>)
    ensures mult.Some? ==> 1 <= mult.value <= MAX_INT64
  {
    if unit in ["kB", "kilobyte", "kilobytes"] then Some(1_000)
    else if unit in ["MB", "megabyte", "megabytes"] then Some(1_000_000)
    else if unit in ["GB", "gigabyte", "gigabytes"] then Some(1_000_000_000)
    else if unit in ["TB", "terabyte", "terabytes"] then Some(1_000_000_000_000)
    else if unit in ["PB", "petabyte", "petabytes"] then Some(1_000_000_000_000_000)
    else if unit in ["EB", "exabyte", "exabytes"] then Some(1_000_000_000_000_000_000)
    else None
  }

  /** The powers of 1024 that fit int64. */
  function BinaryUnit(unit: string): (mult: Option<nat>)
    ensures mult.Some? ==> 1 <= mult.value <= MAX_INT64
  {
    if unit in ["K", "k", "Ki", "KiB", "kibibyte", "kibibytes"] then Some(0x400)
    else if unit in ["M", "m", "Mi", "MiB", "mebibyte", "mebibytes"] then Some(0x10_0000)
    else if unit in ["G", "g", "Gi", "GiB", "gibibyte", "gibibytes"] then Some(0x4000_0000)
    else if unit in ["T", "t", "Ti", "TiB", "tebibyte", "tebibytes"] then Some(0x100_0000_0000)
    else if unit in ["P", "p", "Pi", "PiB", "pebibyte", "pebibytes"] then Some(0x4_0000_0000_0000)
    else if unit in ["E", "e", "Ei", "EiB", "exbibyte", "exbibytes"] then Some(0x1000_0000_0000_0000)
    else None
  }

  /** The byte units whose multiplier fits int64. */
  function ByteUnit(unit: string): (mult: Option<nat>)
    ensures mult.Some? ==> 1 <= mult.value <= MAX_INT64
  {
    if unit in ["", "B", "b", "byte", "bytes"] then Some(1)
    else if DecimalUnit(unit).Some? then DecimalUnit(unit)
    else BinaryUnit(unit)
  }

  /** bigByteMultipliers */
  function BigByteUnit(unit: string): (mult: Option<nat>)
    ensures mult.Some? ==> 1 <= mult.value <= TWO_80
  {
    if unit in ["ZB", "zettabyte", "zettabytes"] then Some(1_000_000_000_000_000_000_000)
    else if unit in ["YB", "yottabyte", "yottabytes"] then Some(1_000_000_000_000_000_000_000_000)
    else if unit in ["Zi", "ZiB", "zebibyte", "zebibytes", "Z", "z"] then Some(0x40_0000_0000_0000_0000)
    else if unit in ["Yi", "YiB", "yobibyte", "yobibytes", "Y", "y"] then Some(TWO_80)
    else None
  }

  function AnyByteUnit(unit: string): (mult: Option<nat>)
    ensures mult.Some? ==> 1 <= mult.value <= TWO_80
  {
    if ByteUnit(unit).Some? then ByteUnit(unit) else BigByteUnit(unit)
  }

  datatype Kind = Duration | Size

  function Multiplier(kind: Kind, unit: string): (mult: Option<nat>)
    ensures mult.Some? ==> 1 <= mult.value <= TWO_80
  {
    if kind.Duration? then DurationUnit(unit) else AnyByteUnit(unit)
  }

  function Checked(r: Option<int>): Outcome<int> {
    if r.Some? then Good(r.value) else Bad(Overflow)
  }

  /** The value of a number in a unit: always the exact product. */
  function Measured(s: string, kind: Kind): Outcome<int> {
    match SplitUnitValue(s)
    case Bad(why) => Bad(why)
    case Good(v) =>
      var mult := Multiplier(kind, v.unit);
      if mult.None? then Bad(UnknownUnit) else Checked(Exact(ReadNumeral(v.num).value, mult.value))
  }

  lemma {:induction false} NumIsShort(s: string)
    ensures SplitUnitValue(s).Good? ==> |SplitUnitValue(s).value.num| <= |s|
  {
    TrimShortens(s);
    TrimRightShortens(TrimLeft(s));
    var t := Trim(s);
    TrimRightShortens(t[..UnitStart(t)]);
  }

  lemma {:induction false} NumIsNumeral(s: string)
    requires SplitUnitValue(s).Good?
    ensures var num := SplitUnitValue(s).value.num;
            && |num| <= |s| && ReadNumeral(num).Some?
            && Valid(ReadNumeral(num).value) && Spell(ReadNumeral(num).value) == num
  {
    NumIsShort(s);
    var num := SplitUnitValue(s).value.num;
    ReadsWhatIsSpelled(num, ReadNumeral(num).value);
  }

  lemma {:induction false} TrimShortens(s: string)
    ensures |TrimLeft(s)| <= |s|
  {
    if s != "" && IsSpace(s[0]) {
      TrimShortens(s[1..]);
    }
  }

  lemma {:induction false} TrimRightShortens(s: string)
    ensures |TrimRight(s)| <= |s|
  {
    if s != "" && IsSpace(s[|s| - 1]) {
      TrimRightShortens(s[..|s| - 1]);
    }
  }

  lemma {:induction false} OutOfRangeStays(n: int, mult: nat)
    requires !InInt64(n) && mult >= 1
    ensures !InInt64(n * mult)
  {
    DivisionBound(n, mult);
    QuoShrinks(MAX_INT64, mult);
    QuoShrinks(0 - MIN_INT64, mult);
  }

  lemma {:induction false} QuoShrinks(a: nat, b: nat)
    requires b >= 1
    ensures 0 <= a / b <= a
  {
    BoundAbove(a, b, a);
    MulMonotone(1, b, a);
  }

  /** The integer branch of parseDuration, in nanoseconds. */
  method IntegerDuration(numStr: string, mult: nat, ghost n: Numeral) returns (r: Option<int>)
    requires Valid(n) && Spell(n) == numStr && IsInteger(numStr) && 1 <= mult <= MAX_INT64
    ensures r == Exact(n, mult)
  {
    IntegerExact(n, mult);
    var v := ParseInt64(numStr);
    if v.None? {
      OutOfRangeStays(IntegerOf(numStr), mult);
      return None;
    }
    DivisionBound(v.value, mult);
    if v.value > Quo(MAX_INT64, mult) || v.value < Quo(MIN_INT64, mult) {
      return None;
    }
    return Some(v.value * mult);
  }

  /** The integer branch of parseBytes. */
  method IntegerBytes(numStr: string, mult: nat, ghost n: Numeral) returns (r: Option<int>)
    requires Valid(n) && Spell(n) == numStr && IsInteger(numStr) && 1 <= mult <= MAX_INT64
    ensures r == Exact(n, mult)
  {
    IntegerExact(n, mult);
    var v := ParseInt64(numStr);
    if v.None? {
      OutOfRangeStays(IntegerOf(numStr), mult);
      return None;
    }
    WrapThenDivide(v.value, mult);
    WrapIs(v.value * mult);
    var result := Wrap(v.value * mult);
    if v.value != 0 {
      if Quo(result, mult) != v.value {
        return None;
      }
      return Some(result);
    }
    return Some(result);
  }

  /** parseDuration: the integer fast path and the exact path give one answer. */
  method ParseDuration(s: string) returns (r: Outcome<int>)
    requires |s| <= LONGEST
    ensures r == Measured(s, Duration)
  {
    var v := SplitUnitValueScan(s);
    if v.Bad? {
      return Bad(v.why);
    }
    NumIsNumeral(s);
    var numStr, mult := v.value.num, DurationUnit(v.value.unit);
    if mult.None? {
      return Bad(UnknownUnit);
    }
    var ns;
    if IsInteger(numStr) {
      ns := IntegerDuration(numStr, mult.value, ReadNumeral(numStr).value);
    } else {
      ns := TruncProduct(numStr, mult.value, ReadNumeral(numStr).value);
    }
    return Checked(ns);
  }

  method ParseBytes(s: string) returns (r: Outcome<int>)
    requires |s| <= LONGEST
    ensures r == Measured(s, Size)
  {
    var v := SplitUnitValueScan(s);
    if v.Bad? {
      return Bad(v.why);
    }
    NumIsNumeral(s);
    var numStr, mult := v.value.num, ByteUnit(v.value.unit);
    var bytes;
    if mult.None? {
      var bigMult := BigByteUnit(v.value.unit);
      if bigMult.None? {
        return Bad(UnknownUnit);
      }
      bytes := TruncProduct(numStr, bigMult.value, ReadNumeral(numStr).value);
      return Checked(bytes);
    }
    if IsInteger(numStr) {
      bytes := IntegerBytes(numStr, mult.value, ReadNumeral(numStr).value);
    } else {
      bytes := TruncProduct(numStr, mult.value, ReadNumeral(numStr).value);
    }
    return Checked(bytes);
  }

  /** readBytes: a byte size is the exact product, and not negative. */
  method ReadBytes(s: string) returns (r: Outcome<int>)
    requires |s| <= LONGEST
    ensures match Measured(s, Size)
            case Bad(_) => r == Bad(Invalid)
            case Good(n) => r == if n < 0 then Bad(Negative) else Good(n)
  {
    var v := ParseBytes(s);
    if v.Bad? {
      return Bad(Invalid);
    }
    if v.value < 0 {
      return Bad(Negative);
    }
    return v;
  }

  /** What a number and a unit come to, however they are spaced. */
  lemma {:induction false} MeasuredIs(n: Numeral, unit: string, left: string, gap: string, right: string, kind: Kind)
    requires Valid(n) && AllUnitLetters(unit) && AllSpace(left) && AllSpace(gap) && AllSpace(right)
    ensures var mult := Multiplier(kind, unit);
            Measured(left + (((Spell(n) + gap) + unit) + right), kind) ==
            if mult.None? then Bad(UnknownUnit) else Checked(Exact(n, mult.value))
  {
    NumberAndUnitSplit(n, unit, left, gap, right);
    ReadsWhatIsSpelled(Spell(n), n);
  }

  // ---------- spelling an integer as a fraction ----------

  lemma {:induction false} TenthOfTen(a: nat)
    ensures Quotient(10 * a, 10) == a
  {
  }

  /** Appending ".0" to an integer never changes the product. */
  lemma {:induction false} PointZero(n: Numeral, mult: nat)
    requires Valid(n) && !n.dot && n.mark == ""
    ensures var m := n.(dot := true, frac := "0");
            Valid(m) && Spell(m) == Spell(n) + ".0" && Exact(m, mult) == Exact(n, mult)
  {
    var m, d := n.(dot := true, frac := "0"), NatOf(n.whole);
    assert Spell(m) == n.sign + ((n.whole + ("." + "0")) + ("" + ("" + "")));
    assert Spell(n) == n.sign + ((n.whole + "") + ("" + ("" + "")));
    assert Spell(m) == Spell(n) + ".0";
    assert Digits(n) == n.whole && Digits(m)[..|n.whole|] == n.whole;
    assert NatOf(Digits(m)) == 10 * d;
    assert Scale(m) == -1 && Pow10(1) == 10;
    IntegerMagnitude(d, mult);
    assert Numerator(10 * d, -1, mult) == 10 * (d * mult);
    TenthOfTen(d * mult);
  }

  /** So the integer and the fractional path of both readers agree. */
  lemma {:induction false} PointZeroMeasuresTheSame(n: Numeral, unit: string, left: string, gap: string, right: string,
                                                    kind: Kind)
    requires Valid(n) && !n.dot && n.mark == ""
    requires AllUnitLetters(unit) && AllSpace(left) && AllSpace(gap) && AllSpace(right)
    ensures Measured(left + ((((Spell(n) + ".0") + gap) + unit) + right), kind) ==
            Measured(left + (((Spell(n) + gap) + unit) + right), kind)
  {
    PointZero(n, 1);
    var mult := Multiplier(kind, unit);
    if mult.Some? { PointZero(n, mult.value); }
    MeasuredIs(n, unit, left, gap, right, kind);
    MeasuredIs(n.(dot := true, frac := "0"), unit, left, gap, right, kind);
  }
}
