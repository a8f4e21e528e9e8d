/**
 The number a numeral stands for, as a real number told digit by digit, and what the
 exact arithmetic of config.go and unmarshal.go makes of it.
 */
module Reals {
  import opened Paths
  import opened Numerals
  import opened Decimals
  import Units
  import WholeFloats

  // ---------- the number a text stands for ----------

  function Figure(c: char): real {
    (c as int - '0' as int) as real
  }

  /** Digits in front of the point: each next one counts ten times less. */
  function InFront(s: string): real {
    if s == "" then 0.0 else 10.0 * InFront(s[..|s| - 1]) + Figure(s[|s| - 1])
  }

  /** Digits behind the point. */
  function Behind(s: string): real {
    if s == "" then 0.0 else (Figure(s[0]) + Behind(s[1..])) / 10.0
  }

  /** The point moved n places to the right, or to the left. */
  function Moved(x: real, n: int): real
    decreases if n >= 0 then n else -n
  {
    if n == 0 then x else if n > 0 then 10.0 * Moved(x, n - 1) else Moved(x, n + 1) / 10.0
  }

  function Signed(sign: string, x: int): int {
    if sign == "-" then 0 - x else x
  }

  /** The magnitude of a numeral. */
  function Value(n: Numeral): real {
    Moved(InFront(n.whole) + Behind(n.frac), Signed(n.expSign, InFront(n.exp).Floor))
  }

  // ---------- arithmetic of reals ----------

  lemma {:induction false} Cast(a: nat, b: nat)
    ensures (a * b) as real == a as real * b as real
  {
  }

  lemma {:induction false} Group(x: real, y: real, z: real)
    ensures (x * y) * z == x * (y * z)
  {
  }

  lemma {:induction false} Swap(x: real, y: real, z: real)
    ensures (x * y) * z == (x * z) * y
  {
  }

  lemma {:induction false} Distribute(x: real, y: real, p: real)
    ensures (x + y) * p == x * p + y * p
  {
  }

  lemma {:induction false} TenthOf(x: real, p: real)
    ensures (x / 10.0) * (10.0 * p) == x * p
  {
    var z := x / 10.0;
    assert z * 10.0 == x;
    Group(z, 10.0, p);
  }

  lemma {:induction false} Compare(x: real, y: real, r: real)
    requires r > 0.0
    ensures (x < y <==> x * r < y * r) && (x == y <==> x * r == y * r)
  {
    if x < y { assert x * r < y * r; }
    if x > y { assert x * r > y * r; }
  }

  function Product(x: real, a: nat): real {
    x * a as real
  }

  /** x is y multiplied by a. */
  predicate IsTimes(x: real, y: real, a: nat) {
    x == Product(y, a)
  }

  lemma {:induction false} Between(x: real, num: nat, den: nat, q: nat)
    requires den >= 1 && IsTimes(num as real, x, den) && q * den <= num < (q + 1) * den
    ensures q as real <= x < (q + 1) as real && (q as real == x <==> q * den == num)
  {
    Cast(q, den);
    Cast(q + 1, den);
    Compare(x, q as real, den as real);
    Compare(x, (q + 1) as real, den as real);
  }

  lemma {:induction false} FloorOf(x: real, num: nat, den: nat)
    requires den >= 1 && IsTimes(num as real, x, den)
    ensures x >= 0.0 && x.Floor == Quotient(num, den) && (x.Floor as real == x <==> Quotient(num, den) * den == num)
  {
    var q := Quotient(num, den);
    QuotientIs(num, den, q);
    Between(x, num, den, q);
  }

  // ---------- digits ----------

  lemma {:induction false} InFrontIs(s: string)
    requires AllDigits(s)
    ensures InFront(s) == NatOf(s) as real
  {
    if s != "" { InFrontIs(s[..|s| - 1]); }
  }

  lemma {:induction false} Shifted(x: nat, y: nat, p: nat, d: nat)
    ensures 10 * (x * p + y) + d == x * (10 * p) + (10 * y + d)
  {
  }

  lemma {:induction false} NatOfConcat(a: string, b: string)
    requires AllDigits(a) && AllDigits(b)
    ensures NatOf(a + b) == NatOf(a) * Pow10(|b|) + NatOf(b)
  {
    if b == "" {
      assert a + b == a;
    } else {
      var t := b[..|b| - 1];
      assert (a + b)[..|a + b| - 1] == a + t && (a + b)[|a + b| - 1] == b[|b| - 1];
      NatOfConcat(a, t);
      Shifted(NatOf(a), NatOf(t), Pow10(|t|), Digit(b[|b| - 1]));
    }
  }

  lemma {:induction false} NatOfFirst(s: string)
    requires AllDigits(s) && s != ""
    ensures NatOf(s) == Digit(s[0]) * Pow10(|s| - 1) + NatOf(s[1..])
  {
    assert s == [s[0]] + s[1..];
    NatOfConcat([s[0]], s[1..]);
    assert [s[0]][..0] == "";
  }

  lemma {:induction false} BehindStep(x: real, b: real, p: nat, n: nat, d: nat)
    requires IsTimes(n as real, b, p) && x == (d as real + b) / 10.0
    ensures IsTimes((d * p + n) as real, x, 10 * p)
  {
    var r := p as real;
    assert (10 * p) as real == 10.0 * r;
    TenthOf(d as real + b, r);
    Distribute(d as real, b, r);
    Cast(d, p);
  }

  lemma {:induction false} BehindIs(s: string)
    requires AllDigits(s)
    ensures IsTimes(NatOf(s) as real, Behind(s), Pow10(|s|))
  {
    if s != "" {
      BehindIs(s[1..]);
      NatOfFirst(s);
      BehindStep(Behind(s), Behind(s[1..]), Pow10(|s| - 1), NatOf(s[1..]), Digit(s[0]));
    }
  }

  // ---------- the point ----------

  lemma {:induction false} RightStep(x: real, y: real, p: nat)
    requires IsTimes(y, x, p)
    ensures IsTimes(10.0 * y, x, 10 * p)
  {
    assert (10 * p) as real == 10.0 * p as real;
    Swap(x, p as real, 10.0);
    Group(x, 10.0, p as real);
  }

  lemma {:induction false} MovedRight(x: real, n: nat)
    ensures IsTimes(Moved(x, n), x, Pow10(n))
  {
    if n > 0 {
      MovedRight(x, n - 1);
      RightStep(x, Moved(x, n - 1), Pow10(n - 1));
    }
  }

  lemma {:induction false} LeftStep(x: real, y: real, p: nat)
    requires IsTimes(x, y, p)
    ensures IsTimes(x, y / 10.0, 10 * p)
  {
    assert (10 * p) as real == 10.0 * p as real;
    TenthOf(y, p as real);
  }

  lemma {:induction false} MovedLeft(x: real, n: int)
    requires n <= 0
    ensures IsTimes(x, Moved(x, n), Pow10(-n))
    decreases -n
  {
    if n < 0 {
      MovedLeft(x, n + 1);
      LeftStep(x, Moved(x, n + 1), Pow10(-n - 1));
    }
  }

  lemma {:induction false} TogetherStep(w: nat, f: nat, p: nat, x: real, y: real)
    requires x == w as real && IsTimes(f as real, y, p)
    ensures IsTimes((w * p + f) as real, x + y, p)
  {
    Cast(w, p);
    Distribute(x, y, p as real);
  }

  lemma {:induction false} DigitsAre(n: Numeral)
    requires Valid(n)
    ensures IsTimes(NatOf(Digits(n)) as real, InFront(n.whole) + Behind(n.frac), Pow10(|n.frac|))
  {
    NatOfConcat(n.whole, n.frac);
    InFrontIs(n.whole);
    BehindIs(n.frac);
    TogetherStep(NatOf(n.whole), NatOf(n.frac), Pow10(|n.frac|), InFront(n.whole), Behind(n.frac));
  }

  lemma {:induction false} ExponentIs(n: Numeral)
    requires Valid(n)
    ensures Signed(n.expSign, InFront(n.exp).Floor) == Exponent(n)
  {
    InFrontIs(n.exp);
  }

  lemma {:induction false} Regroup(x: real, y: real, a: nat, b: nat, c: nat)
    requires IsTimes(x, y, a) && a == b * c
    ensures IsTimes(x, y * b as real, c)
  {
    Cast(b, c);
    Group(y, b as real, c as real);
  }

  lemma {:induction false} UpStep(x: real, y: real, d: nat, a: nat, p: nat, m: nat)
    requires IsTimes(d as real, y, p) && IsTimes(x, y, a) && a == p * m
    ensures IsTimes((d * m) as real, x, 1)
  {
    Cast(d, m);
    Cast(p, m);
    Group(y, p as real, m as real);
  }

  lemma {:induction false} NumeratorUp(d: nat, n: nat)
    ensures Numerator(d, n, 1) == d * Pow10(n) && Denominator(n) == 1
  {
  }

  /** The digits times a power: d is y shifted by f places, x is y shifted by e. */
  lemma {:induction false} ScaledUp(y: real, d: nat, e: nat, f: nat)
    requires IsTimes(d as real, y, Pow10(f)) && e >= f
    ensures IsTimes(Numerator(d, e - f, 1) as real, Moved(y, e), Denominator(e - f))
  {
    MovedRight(y, e);
    Pow10Add(f, e - f);
    UpStep(Moved(y, e), y, d, Pow10(e), Pow10(f), Pow10(e - f));
    NumeratorUp(d, e - f);
  }

  lemma {:induction false} ScaledDown(y: real, d: nat, e: nat, f: nat)
    requires IsTimes(d as real, y, Pow10(f)) && e < f
    ensures IsTimes(Numerator(d, e - f, 1) as real, Moved(y, e), Denominator(e - f))
  {
    MovedRight(y, e);
    Pow10Add(e, f - e);
    Regroup(d as real, y, Pow10(f), Pow10(e), Pow10(f - e));
  }

  lemma {:induction false} ScaledNegative(y: real, d: nat, e: int, f: nat)
    requires IsTimes(d as real, y, Pow10(f)) && e < 0
    ensures IsTimes(Numerator(d, e - f, 1) as real, Moved(y, e), Denominator(e - f))
  {
    var x := Moved(y, e);
    MovedLeft(y, e);
    Pow10Add(-e, f);
    Cast(Pow10(-e), Pow10(f));
    Group(x, Pow10(-e) as real, Pow10(f) as real);
  }

  /** Numerator over denominator is the number the numeral stands for. */
  lemma {:induction false} NumeralMeans(n: Numeral)
    requires Valid(n)
    ensures IsTimes(Numerator(NatOf(Digits(n)), Scale(n), 1) as real, Value(n), Denominator(Scale(n)))
  {
    var y, d, e, f := InFront(n.whole) + Behind(n.frac), NatOf(Digits(n)), Exponent(n), |n.frac|;
    DigitsAre(n);
    ExponentIs(n);
    if e < 0 {
      ScaledNegative(y, d, e, f);
    } else if e < f {
      ScaledDown(y, d, e, f);
    } else {
      ScaledUp(y, d, e, f);
    }
  }

  // ---------- what the arithmetic gives ----------

  lemma {:induction false} Multiplied(d: nat, scale: int, mult: nat)
    ensures Numerator(d, scale, mult) == Numerator(d, scale, 1) * mult
  {
    if scale >= 0 { FactorsCommute(d, mult, Pow10(scale)); }
  }

  lemma {:induction false} TimesMore(x: real, num: nat, den: nat, mult: nat)
    requires IsTimes(num as real, x, den)
    ensures IsTimes((num * mult) as real, Product(x, mult), den)
  {
    Cast(num, mult);
    Swap(x, den as real, mult as real);
  }

  lemma {:induction false} MagnitudeIs(d: nat, scale: int, mult: nat, x: real)
    requires IsTimes(Numerator(d, scale, 1) as real, x, Denominator(scale))
    requires Numerator(d, scale, mult) == Numerator(d, scale, 1) * mult
    ensures Product(x, mult).Floor == Magnitude(d, scale, mult)
  {
    TimesMore(x, Numerator(d, scale, 1), Denominator(scale), mult);
    FloorOf(Product(x, mult), Numerator(d, scale, mult), Denominator(scale));
  }

  /** An integer with a sign, if it is an int64. */
  function Fitting(neg: bool, q: int): Option<int> {
    if InInt64(if neg then 0 - q else q) then Some(if neg then 0 - q else q) else None
  }

  lemma {:induction false} FitIs(neg: bool, q: nat)
    ensures Fit(neg, q) == Fitting(neg, q)
  {
  }

  /** A unit value is the number times the multiplier, cut to an integer towards
      zero, and nothing exactly when that is no int64. */
  lemma {:induction false} ExactIsTruncated(n: Numeral, mult: nat)
    requires Valid(n)
    ensures Exact(n, mult) == Fitting(n.sign == "-", Product(Value(n), mult).Floor)
  {
    NumeralMeans(n);
    Multiplied(NatOf(Digits(n)), Scale(n), mult);
    MagnitudeIs(NatOf(Digits(n)), Scale(n), mult, Value(n));
    FitIs(n.sign == "-", Magnitude(NatOf(Digits(n)), Scale(n), mult));
  }

  /** A whole float is the number itself, when it is an integer and an int64. */
  lemma {:induction false} WholeIsInteger(n: Numeral)
    requires Valid(n)
    ensures WholeFloats.Whole(n) ==
            if Value(n).Floor as real == Value(n) then Fitting(n.sign == "-", Value(n).Floor) else None
  {
    NumeralMeans(n);
    FloorOf(Value(n), Numerator(NatOf(Digits(n)), Scale(n), 1), Denominator(Scale(n)));
  }

  /** An integer without point and exponent. */
  lemma {:induction false} IntegerMeans(s: string)
    requires Units.IsInteger(s)
    ensures Units.IntegerOf(s) == Signed(if s[0] == '-' then "-" else "", InFront(AfterSign(s)).Floor)
  {
    InFrontIs(AfterSign(s));
  }
}
