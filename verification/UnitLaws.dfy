/**
 How the units measure against each other (parseDuration and parseBytes in
 config.go): every spelling of a unit, the steps from one unit to the next, the
 unit that everything is counted in, and the one that stands for a missing unit.
 */
module UnitLaws {
  import opened Paths
  import opened Numerals
  import opened Decimals
  import opened Units

  // ---------- the units, smallest first ----------

  datatype Family = Durations | DecimalSizes | BinarySizes

  function KindOf(f: Family): Kind {
    if f.Durations? then Duration else Size
  }

  /** How many units a family has. */
  function Count(f: Family): nat {
    if f.Durations? then 7 else 9
  }

  /** What a unit is of the next smaller one. */
  function StepTo(f: Family, i: nat): nat {
    match f
    case Durations => if i <= 3 then 1000 else if i <= 5 then 60 else 24
    case DecimalSizes => 1000
    case BinarySizes => 1024
  }

  function DurationNames(i: nat): seq<string>
    requires i < 7
  {
    match i
    case 0 => ["ns", "nanosecond", "nanoseconds", "nano", "nanos"]
    case 1 => ["us", "micro", "micros", "microsecond", "microseconds"]
    case 2 => ["", "ms", "millisecond", "milliseconds"]
    case 3 => ["s", "second", "seconds"]
    case 4 => ["m", "minute", "minutes"]
    case 5 => ["h", "hour", "hours"]
    case _ => ["d", "day", "days"]
  }

  function DecimalNames(i: nat): seq<string>
    requires i < 9
  {
    match i
    case 0 => ["", "B", "b", "byte", "bytes"]
    case 1 => ["kB", "kilobyte", "kilobytes"]
    case 2 => ["MB", "megabyte", "megabytes"]
    case 3 => ["GB", "gigabyte", "gigabytes"]
    case 4 => ["TB", "terabyte", "terabytes"]
    case 5 => ["PB", "petabyte", "petabytes"]
    case 6 => ["EB", "exabyte", "exabytes"]
    case 7 => ["ZB", "zettabyte", "zettabytes"]
    case _ => ["YB", "yottabyte", "yottabytes"]
  }

  function BinaryNames(i: nat): seq<string>
    requires i < 9
  {
    match i
    case 0 => ["", "B", "b", "byte", "bytes"]
    case 1 => ["K", "k", "Ki", "KiB", "kibibyte", "kibibytes"]
    case 2 => ["M", "m", "Mi", "MiB", "mebibyte", "mebibytes"]
    case 3 => ["G", "g", "Gi", "GiB", "gibibyte", "gibibytes"]
    case 4 => ["T", "t", "Ti", "TiB", "tebibyte", "tebibytes"]
    case 5 => ["P", "p", "Pi", "PiB", "pebibyte", "pebibytes"]
    case 6 => ["E", "e", "Ei", "EiB", "exbibyte", "exbibytes"]
    case 7 => ["Z", "z", "Zi", "ZiB", "zebibyte", "zebibytes"]
    case _ => ["Y", "y", "Yi", "YiB", "yobibyte", "yobibytes"]
  }

  function Names(f: Family, i: nat): seq<string>
    requires i < Count(f)
  {
    match f
    case Durations => DurationNames(i)
    case DecimalSizes => DecimalNames(i)
    case BinarySizes => BinaryNames(i)
  }

  /** A number and a unit as they are written. */
  datatype Quantity = Quantity(n: Numeral, left: string, gap: string, right: string)

  predicate Writable(q: Quantity) {
    Valid(q.n) && AllSpace(q.left) && AllSpace(q.gap) && AllSpace(q.right)
  }

  function InUnit(q: Quantity, unit: string): string {
    q.left + (((Spell(q.n) + q.gap) + unit) + q.right)
  }

  // ---------- numerals ----------

  /** m is r times n, both as fractions. */
  predicate Times(m: Numeral, n: Numeral, r: nat)
    requires Valid(m) && Valid(n)
  {
    && m.sign == n.sign
    && Numerator(NatOf(Digits(m)), Scale(m), 1) * Denominator(Scale(n)) ==
       r * Numerator(NatOf(Digits(n)), Scale(n), 1) * Denominator(Scale(m))
  }

  lemma {:induction false} Cancel(a: nat, b: nat, c: nat)
    requires c >= 1
    ensures a * c <= b * c <==> a <= b
  {
    if a <= b { MulMonotone(a, b, c); }
    if b < a { MulMonotone(b + 1, a, c); }
  }

  lemma {:induction false} SameQuotient(x: nat, b: nat, y: nat, d: nat)
    requires b >= 1 && d >= 1 && x * d == y * b
    ensures Quotient(x, b) == Quotient(y, d)
  {
    var q := Quotient(x, b);
    QuotientIs(x, b, q);
    Cancel(q * b, x, d);
    Cancel((q + 1) * b, x, d);
    assert (q * b) * d == (q * d) * b && ((q + 1) * b) * d == ((q + 1) * d) * b;
    Cancel(q * d, y, b);
    Cancel((q + 1) * d, y, b);
    QuotientIs(y, d, q);
  }

  lemma {:induction false} NumeratorTimes(d: nat, scale: int, mult: nat)
    ensures Numerator(d, scale, mult) == Numerator(d, scale, 1) * mult
  {
    var p := if scale >= 0 then Pow10(scale) else 1;
    assert d * mult * p == (d * 1 * p) * mult;
  }

  lemma {:induction false} Regroup(a: nat, b: nat, c: nat, d: nat, r: nat, mult: nat)
    requires a * d == r * c * b
    ensures (a * mult) * d == (c * (r * mult)) * b
  {
    assert (a * mult) * d == (a * d) * mult;
    assert (c * (r * mult)) * b == (r * c * b) * mult;
  }

  lemma {:induction false} TimesExact(m: Numeral, n: Numeral, r: nat, mult: nat)
    requires Valid(m) && Valid(n) && Times(m, n, r)
    ensures Exact(m, mult) == Exact(n, r * mult)
  {
    var a, b := Numerator(NatOf(Digits(m)), Scale(m), 1), Denominator(Scale(m));
    var c, d := Numerator(NatOf(Digits(n)), Scale(n), 1), Denominator(Scale(n));
    NumeratorTimes(NatOf(Digits(m)), Scale(m), mult);
    NumeratorTimes(NatOf(Digits(n)), Scale(n), r * mult);
    Regroup(a, b, c, d, r, mult);
    SameQuotient(a * mult, b, c * (r * mult), d);
  }

  // ---------- the table ----------

  /** The size of the unit with this number, in the smallest one. */
  function SizeOf(f: Family, i: nat): (n: nat) {
    if i == 0 then 1 else StepTo(f, i) * SizeOf(f, i - 1)
  }

  lemma {:induction false} Sizes(f: Family)
    requires !f.Durations?
    ensures var n := if f.DecimalSizes? then 1000 else 1024;
            && SizeOf(f, 1) == n && SizeOf(f, 2) == n * n && SizeOf(f, 3) == n * n * n
            && SizeOf(f, 4) == n * n * n * n && SizeOf(f, 5) == n * n * n * n * n
            && SizeOf(f, 6) == n * n * n * n * n * n && SizeOf(f, 7) == n * n * n * n * n * n * n
            && SizeOf(f, 8) == n * n * n * n * n * n * n * n
  {
    assert SizeOf(f, 3) == StepTo(f, 3) * SizeOf(f, 2) && SizeOf(f, 5) == StepTo(f, 5) * SizeOf(f, 4);
    assert SizeOf(f, 7) == StepTo(f, 7) * SizeOf(f, 6);
  }

  lemma {:induction false} DurationSizes()
    ensures SizeOf(Durations, 0) == 1 && SizeOf(Durations, 1) == 1_000 && SizeOf(Durations, 2) == 1_000_000
    ensures SizeOf(Durations, 3) == 1_000_000_000 && SizeOf(Durations, 4) == 60_000_000_000
    ensures SizeOf(Durations, 5) == 3_600_000_000_000 && SizeOf(Durations, 6) == 86_400_000_000_000
  {
    assert SizeOf(Durations, 3) == StepTo(Durations, 3) * SizeOf(Durations, 2);
    assert SizeOf(Durations, 5) == StepTo(Durations, 5) * SizeOf(Durations, 4);
  }

  lemma {:induction false} DurationTable(i: nat, u: string)
    requires i < 7 && u in DurationNames(i)
    ensures DurationUnit(u).Some? && DurationUnit(u).value == SizeOf(Durations, i)
  {
    DurationSizes();
  }

  /** Where the letter that begins a size unit stands, and what it stands for. */
  function LetterPlace(c: char): nat {
    match c
    case 'K' => 1
    case 'k' => 1
    case 'M' => 2
    case 'm' => 2
    case 'G' => 3
    case 'g' => 3
    case 'T' => 4
    case 't' => 4
    case 'P' => 5
    case 'p' => 5
    case 'E' => 6
    case 'e' => 6
    case 'Z' => 7
    case 'z' => 7
    case 'Y' => 8
    case 'y' => 8
    case _ => 0
  }

  predicate LooksDecimal(u: string) {
    (|u| == 2 && u[1] == 'B') || (|u| >= 7 && u[2] != 'b')
  }

  predicate LooksBinary(u: string) {
    1 <= |u| && !LooksDecimal(u)
  }

  lemma {:induction false} DecimalLooks(u: string)
    ensures DecimalUnit(u).Some? ==>
              && LooksDecimal(u) && 1 <= LetterPlace(u[0]) <= 6
              && DecimalUnit(u).value == SizeOf(DecimalSizes, LetterPlace(u[0]))
  {
    Sizes(DecimalSizes);
  }

  lemma {:induction false} BinaryLooks(u: string)
    ensures BinaryUnit(u).Some? ==> LooksBinary(u)
  {
  }

  lemma {:induction false} BinaryValue(u: string)
    ensures BinaryUnit(u).Some? ==>
              && 1 <= |u| && 1 <= LetterPlace(u[0]) <= 6
              && BinaryUnit(u).value == SizeOf(BinarySizes, LetterPlace(u[0]))
  {
    Sizes(BinarySizes);
  }

  lemma {:induction false} BigLooks(u: string)
    ensures BigByteUnit(u).Some? ==> 1 <= |u| && 7 <= LetterPlace(u[0]) <= 8
    ensures BigByteUnit(u).Some? && LetterPlace(u[0]) == 7 ==>
              BigByteUnit(u).value ==
                if LooksDecimal(u) then 1_000_000_000_000_000_000_000 else 0x40_0000_0000_0000_0000
    ensures BigByteUnit(u).Some? && LetterPlace(u[0]) == 8 ==>
              BigByteUnit(u).value == if LooksDecimal(u) then 1_000_000_000_000_000_000_000_000 else TWO_80
  {
  }

  /** What the names look like. */
  lemma {:induction false} DecimalNamesLook(i: nat, u: string)
    requires 1 <= i < 9 && u in DecimalNames(i)
    ensures LooksDecimal(u) && LetterPlace(u[0]) == i
  {
  }

  lemma {:induction false} LowBinaryNames(i: nat, u: string)
    requires 1 <= i <= 4 && u in BinaryNames(i)
    ensures LooksBinary(u) && LetterPlace(u[0]) == i
  {
  }

  lemma {:induction false} HighBinaryNames(i: nat, u: string)
    requires 5 <= i < 7 && u in BinaryNames(i)
    ensures LooksBinary(u) && LetterPlace(u[0]) == i
  {
  }

  lemma {:induction false} BigBinaryNames(i: nat, u: string)
    requires 7 <= i < 9 && u in BinaryNames(i)
    ensures LooksBinary(u) && LetterPlace(u[0]) == i
  {
  }

  lemma {:induction false} SmallDurationLetters(i: nat, u: string)
    requires i < 2 && u in DurationNames(i)
    ensures AllUnitLetters(u)
  {
  }

  lemma {:induction false} MiddleDurationLetters(i: nat, u: string)
    requires 2 <= i < 4 && u in DurationNames(i)
    ensures AllUnitLetters(u)
  {
  }

  lemma {:induction false} LargeDurationLetters(i: nat, u: string)
    requires 4 <= i < 7 && u in DurationNames(i)
    ensures AllUnitLetters(u)
  {
  }

  lemma {:induction false} SmallDecimalLetters(i: nat, u: string)
    requires i < 3 && u in DecimalNames(i)
    ensures AllUnitLetters(u)
  {
  }

  lemma {:induction false} MiddleDecimalLetters(i: nat, u: string)
    requires 3 <= i < 6 && u in DecimalNames(i)
    ensures AllUnitLetters(u)
  {
  }

  lemma {:induction false} LargeDecimalLetters(i: nat, u: string)
    requires 6 <= i < 9 && u in DecimalNames(i)
    ensures AllUnitLetters(u)
  {
  }

  lemma {:induction false} SmallBinaryLetters(i: nat, u: string)
    requires i < 3 && u in BinaryNames(i)
    ensures AllUnitLetters(u)
  {
  }

  lemma {:induction false} MiddleBinaryLetters(i: nat, u: string)
    requires 3 <= i < 5 && u in BinaryNames(i)
    ensures AllUnitLetters(u)
  {
  }

  lemma {:induction false} LargeBinaryLetters(i: nat, u: string)
    requires 5 <= i < 7 && u in BinaryNames(i)
    ensures AllUnitLetters(u)
  {
  }

  lemma {:induction false} HugeBinaryLetters(i: nat, u: string)
    requires 7 <= i < 9 && u in BinaryNames(i)
    ensures AllUnitLetters(u)
  {
  }

  lemma {:induction false} UnitLetters(f: Family, i: nat, u: string)
    requires i < Count(f) && u in Names(f, i)
    ensures AllUnitLetters(u)
  {
    match f
    case Durations =>
      if i < 2 { SmallDurationLetters(i, u); } else if i < 4 { MiddleDurationLetters(i, u); } else {
        LargeDurationLetters(i, u);
      }
    case DecimalSizes =>
      if i < 3 { SmallDecimalLetters(i, u); } else if i < 6 { MiddleDecimalLetters(i, u); } else {
        LargeDecimalLetters(i, u);
      }
    case BinarySizes =>
      if i < 3 { SmallBinaryLetters(i, u); } else if i < 5 { MiddleBinaryLetters(i, u); }
      else if i < 7 { LargeBinaryLetters(i, u); } else {
        HugeBinaryLetters(i, u);
      }
  }

  /** Each of them is in the table. */
  lemma {:induction false} NamesAreUnits(i: nat, u: string)
    requires 1 <= i < 9
    ensures u in DecimalNames(i) ==> (if i <= 6 then DecimalUnit(u) else BigByteUnit(u)).Some?
    ensures u in BinaryNames(i) ==> (if i <= 6 then BinaryUnit(u) else BigByteUnit(u)).Some?
  {
  }

  lemma {:induction false} DecimalTable(i: nat, u: string)
    requires 1 <= i < 9 && u in DecimalNames(i)
    ensures AnyByteUnit(u).Some? && AnyByteUnit(u).value == SizeOf(DecimalSizes, i)
  {
    DecimalNamesLook(i, u);
    NamesAreUnits(i, u);
    DecimalLooks(u);
    BinaryLooks(u);
    BigLooks(u);
    Sizes(DecimalSizes);
  }

  lemma {:induction false} BinaryTable(i: nat, u: string)
    requires 1 <= i < 7 && u in BinaryNames(i)
    ensures AnyByteUnit(u).Some? && AnyByteUnit(u).value == SizeOf(BinarySizes, i)
  {
    if i <= 4 { LowBinaryNames(i, u); } else { HighBinaryNames(i, u); }
    NamesAreUnits(i, u);
    DecimalLooks(u);
    BinaryValue(u);
  }

  lemma {:induction false} BigBinaryTable(i: nat, u: string)
    requires 7 <= i < 9 && u in BinaryNames(i)
    ensures AnyByteUnit(u).Some? && AnyByteUnit(u).value == SizeOf(BinarySizes, i)
  {
    BigBinaryNames(i, u);
    NamesAreUnits(i, u);
    DecimalLooks(u);
    BinaryValue(u);
    BigLooks(u);
    Sizes(BinarySizes);
  }

  lemma {:induction false} UnitTable(f: Family, i: nat, u: string)
    requires i < Count(f) && u in Names(f, i)
    ensures AllUnitLetters(u) && Multiplier(KindOf(f), u) == Some(SizeOf(f, i))
  {
    UnitLetters(f, i, u);
    if f.Durations? {
      DurationTable(i, u);
    } else if i > 0 {
      if f.DecimalSizes? { DecimalTable(i, u); } else if i < 7 { BinaryTable(i, u); } else { BigBinaryTable(i, u); }
    }
  }

  // ---------- the laws ----------

  /** All spellings of a unit measure the same. */
  lemma {:induction false} SpellingsAgree(f: Family, i: nat, u: string, v: string, q: Quantity)
    requires i < Count(f) && u in Names(f, i) && v in Names(f, i) && Writable(q)
    ensures Measured(InUnit(q, u), KindOf(f)) == Measured(InUnit(q, v), KindOf(f))
  {
    UnitTable(f, i, u);
    UnitTable(f, i, v);
    MeasuredIs(q.n, u, q.left, q.gap, q.right, KindOf(f));
    MeasuredIs(q.n, v, q.left, q.gap, q.right, KindOf(f));
  }

  lemma {:induction false} NextExact(f: Family, i: nat, m: Numeral, n: Numeral)
    requires Valid(m) && Valid(n) && Times(m, n, StepTo(f, i + 1))
    ensures Exact(m, SizeOf(f, i)) == Exact(n, SizeOf(f, i + 1))
  {
    TimesExact(m, n, StepTo(f, i + 1), SizeOf(f, i));
  }

  /** A number in a unit measures the same as 1000, 1024, 60 or 24 times that number in
      the next smaller one, however both are written. */
  lemma {:induction false} NextUnit(f: Family, i: nat, u: string, v: string, p: Quantity, q: Quantity)
    requires i + 1 < Count(f) && u in Names(f, i) && v in Names(f, i + 1)
    requires Writable(p) && Writable(q) && Times(p.n, q.n, StepTo(f, i + 1))
    ensures Measured(InUnit(p, u), KindOf(f)) == Measured(InUnit(q, v), KindOf(f))
  {
    UnitTable(f, i, u);
    UnitTable(f, i + 1, v);
    MeasuredIs(p.n, u, p.left, p.gap, p.right, KindOf(f));
    MeasuredIs(q.n, v, q.left, q.gap, q.right, KindOf(f));
    NextExact(f, i, p.n, q.n);
  }

  /** Durations are counted in nanoseconds and sizes in bytes: an integer in the
      smallest unit measures itself. */
  lemma {:induction false} SmallestUnit(f: Family, u: string, q: Quantity)
    requires u in Names(f, 0) && Writable(q) && IsInteger(Spell(q.n))
    ensures var v := IntegerOf(Spell(q.n));
            Measured(InUnit(q, u), KindOf(f)) == if InInt64(v) then Good(v) else Bad(Overflow)
  {
    UnitTable(f, 0, u);
    MeasuredIs(q.n, u, q.left, q.gap, q.right, KindOf(f));
    IntegerExact(q.n, 1);
  }

  /** A missing unit stands for milliseconds and for bytes. */
  lemma {:induction false} NoUnit(q: Quantity)
    requires Writable(q)
    ensures Measured(InUnit(q, ""), Duration) == Measured(InUnit(q, "ms"), Duration)
    ensures Measured(InUnit(q, ""), Size) == Measured(InUnit(q, "B"), Size)
  {
    SpellingsAgree(Durations, 2, "", "ms", q);
    SpellingsAgree(DecimalSizes, 0, "", "B", q);
  }

  ghost predicate Named(kind: Kind, u: string) {
    exists f: Family, i: nat :: KindOf(f) == kind && i < Count(f) && u in Names(f, i)
  }

  lemma {:induction false} NotNamed(kind: Kind, u: string)
    requires !Named(kind, u)
    ensures forall f: Family, i: nat | KindOf(f) == kind && i < Count(f) :: u !in Names(f, i)
  {
  }

  lemma {:induction false} NoOtherDuration(u: string)
    requires forall i | 0 <= i < 7 :: u !in DurationNames(i)
    ensures DurationUnit(u).None?
  {
    assert u !in DurationNames(0) && u !in DurationNames(1) && u !in DurationNames(2) && u !in DurationNames(3);
    assert u !in DurationNames(4) && u !in DurationNames(5) && u !in DurationNames(6);
  }

  lemma {:induction false} NoOtherSize(u: string)
    requires forall i | 0 <= i < 9 :: u !in DecimalNames(i) && u !in BinaryNames(i)
    ensures AnyByteUnit(u).None?
  {
    assert u !in DecimalNames(0) && u !in DecimalNames(1) && u !in DecimalNames(2) && u !in DecimalNames(3);
    assert u !in DecimalNames(4) && u !in DecimalNames(5) && u !in DecimalNames(6) && u !in DecimalNames(7);
    assert u !in DecimalNames(8) && u !in BinaryNames(8) && u !in BinaryNames(7) && u !in BinaryNames(6);
    assert u !in BinaryNames(1) && u !in BinaryNames(2) && u !in BinaryNames(3);
    assert u !in BinaryNames(4) && u !in BinaryNames(5);
  }

  /** There are no other units. */
  lemma {:induction false} OtherUnits(kind: Kind, u: string, q: Quantity)
    requires Writable(q) && AllUnitLetters(u) && !Named(kind, u)
    ensures Measured(InUnit(q, u), kind) == Bad(UnknownUnit)
  {
    MeasuredIs(q.n, u, q.left, q.gap, q.right, kind);
    NotNamed(kind, u);
    if kind.Duration? {
      forall i | 0 <= i < 7 ensures u !in DurationNames(i) { assert u !in Names(Durations, i); }
      NoOtherDuration(u);
    } else {
      forall i | 0 <= i < 9 ensures u !in DecimalNames(i) && u !in BinaryNames(i) {
        assert u !in Names(DecimalSizes, i) && u !in Names(BinarySizes, i);
      }
      NoOtherSize(u);
    }
  }
}
