/** parse_rfc3339 after its fields are split: validation and day arithmetic. */
module CivilTime {
  import opened Records

  datatype Date = Date(year: int, month: int, day: int)

  predicate IsLeap(y: int) {
    (y % 4 == 0 && y % 100 != 0) || y % 400 == 0
  }

  /** Length of a month; 0 for a month that does not exist. */
  function DaysInMonth(y: int, m: int): nat {
    if m == 1 || m == 3 || m == 5 || m == 7 || m == 8 || m == 10 || m == 12 then 31
    else if m == 4 || m == 6 || m == 9 || m == 11 then 30
    else if m == 2 then if IsLeap(y) then 29 else 28
    else 0
  }

  predicate ValidDate(d: Date) {
    1 <= d.year <= 9999 && 1 <= d.month <= 12 && 1 <= d.day <= DaysInMonth(d.year, d.month)
  }

  // ---- Counting days on the calendar ----

  /** The day after d. */
  function NextDay(d: Date): Date {
    if d.day < DaysInMonth(d.year, d.month) then d.(day := d.day + 1)
    else if d.month < 12 then Date(d.year, d.month + 1, 1)
    else Date(d.year + 1, 1, 1)
  }

  function DaysInYear(y: int): nat {
    if IsLeap(y) then 366 else 365
  }

  /** Days from 0001-01-01 to January 1 of year y. */
  function YearStart(y: int): nat
    requires y >= 1
  {
    if y == 1 then 0 else YearStart(y - 1) + DaysInYear(y - 1)
  }

  /** Days of year y before month m. */
  function MonthStart(y: int, m: int): nat
    requires 1 <= m <= 13
  {
    if m == 1 then 0 else MonthStart(y, m - 1) + DaysInMonth(y, m - 1)
  }

  /** Days counted off one by one from 0001-01-01. */
  function DayCount(d: Date): int
    requires d.year >= 1 && 1 <= d.month <= 12
  {
    YearStart(d.year) + MonthStart(d.year, d.month) + d.day - 1
  }

  lemma YearLength(y: int)
    ensures MonthStart(y, 13) == DaysInYear(y)
  {
    MonthTable(y);
  }

  /** One calendar day is one count. */
  lemma NextDayCountsOne(d: Date)
    requires ValidDate(d)
    ensures DayCount(NextDay(d)) == DayCount(d) + 1
    ensures d == Date(9999, 12, 31) || ValidDate(NextDay(d))
  {
    if d.day < DaysInMonth(d.year, d.month) {
    } else if d.month < 12 {
      assert MonthStart(d.year, d.month + 1) == MonthStart(d.year, d.month) + DaysInMonth(d.year, d.month);
    } else {
      YearLength(d.year);
      assert MonthStart(d.year, 13) == MonthStart(d.year, 12) + 31;
      assert YearStart(d.year + 1) == YearStart(d.year) + DaysInYear(d.year);
      assert MonthStart(d.year + 1, 1) == 0;
    }
  }

  // ---- The closed form ----

  /** The era arithmetic of the program, in its own order; years reach it from 0 on. */
  function EpochDay(d: Date): int
    requires ValidDate(d)
  {
    var y := if d.month <= 2 then d.year - 1 else d.year;
    var era := y / 400;
    var yoe := y - era * 400;
    var doy := (153 * (if d.month > 2 then d.month - 3 else d.month + 9) + 2) / 5 + d.day - 1;
    var doe := yoe * 365 + yoe / 4 - yoe / 100 + doy;
    era * 146097 + doe - 719468
  }

  lemma MonthTable(y: int)
    ensures MonthStart(y, 2) == 31
    ensures var l := if IsLeap(y) then 1 else 0;
      && MonthStart(y, 3) == 59 + l && MonthStart(y, 4) == 90 + l && MonthStart(y, 5) == 120 + l
      && MonthStart(y, 6) == 151 + l && MonthStart(y, 7) == 181 + l && MonthStart(y, 8) == 212 + l
      && MonthStart(y, 9) == 243 + l && MonthStart(y, 10) == 273 + l && MonthStart(y, 11) == 304 + l
      && MonthStart(y, 12) == 334 + l && MonthStart(y, 13) == 365 + l
  {
    assert MonthStart(y, 1) == 0;
    assert MonthStart(y, 2) == 31;
    var l := if IsLeap(y) then 1 else 0;
    assert MonthStart(y, 3) == 59 + l;
    assert MonthStart(y, 4) == 90 + l;
    assert MonthStart(y, 5) == 120 + l;
    assert MonthStart(y, 6) == 151 + l;
    assert MonthStart(y, 7) == 181 + l;
    assert MonthStart(y, 8) == 212 + l;
    assert MonthStart(y, 9) == 243 + l;
    assert MonthStart(y, 10) == 273 + l;
    assert MonthStart(y, 11) == 304 + l;
    assert MonthStart(y, 12) == 334 + l;
  }

  /** Leap days before year y, by the Gregorian rule. */
  lemma {:induction false} YearStartClosed(y: int)
    requires y >= 1
    ensures YearStart(y) == 365 * (y - 1) + (y - 1) / 4 - (y - 1) / 100 + (y - 1) / 400
    decreases y
  {
    if y > 1 {
      YearStartClosed(y - 1);
      LeapStep(y - 1);
    }
  }

  lemma LeapStep(y: int)
    requires y >= 1
    ensures y / 4 - y / 100 + y / 400 == (y - 1) / 4 - (y - 1) / 100 + (y - 1) / 400 + if IsLeap(y) then 1 else 0
  {
    DivStep(y, 4);
    DivStep(y, 100);
    DivStep(y, 400);
    assert y % 400 == 0 ==> y % 100 == 0;
    assert y % 100 == 0 ==> y % 4 == 0;
  }

  lemma DivStep(y: int, k: int)
    requires y >= 1 && k in {4, 100, 400}
    ensures y / k == (y - 1) / k + if y % k == 0 then 1 else 0
  {
  }

  /** The era decomposition of a year loses nothing. */
  lemma EraSum(y: int)
    requires y >= 0
    ensures var era := y / 400; var yoe := y - era * 400;
      era * 146097 + yoe * 365 + yoe / 4 - yoe / 100 == 365 * y + y / 4 - y / 100 + y / 400
  {
    var era := y / 400;
    var yoe := y - era * 400;
    assert 0 <= yoe < 400;
    assert y / 4 == 100 * era + yoe / 4;
    assert y / 100 == 4 * era + yoe / 100;
  }

  /** Days before month m within a year that starts in March, as the program computes them. */
  function MarchOffset(m: int): int
    requires 1 <= m <= 12
  {
    (153 * (if m > 2 then m - 3 else m + 9) + 2) / 5
  }

  lemma MarchOffsetIsMonthStart(y: int, m: int)
    requires 1 <= m <= 12
    ensures MarchOffset(m) == MonthStart(y, m) + if m <= 2 then 306 else -59 - (if IsLeap(y) then 1 else 0)
  {
    MonthTable(y);
  }

  lemma EpochDaySum(d: Date)
    requires ValidDate(d)
    ensures var y := if d.month <= 2 then d.year - 1 else d.year;
      EpochDay(d) == 365 * y + y / 4 - y / 100 + y / 400 + MarchOffset(d.month) + d.day - 1 - 719468
  {
    EraSum(if d.month <= 2 then d.year - 1 else d.year);
  }

  lemma EarlyInYear(d: Date)
    requires ValidDate(d) && d.month <= 2
    ensures EpochDay(d) == DayCount(d) - 719162
  {
    EpochDaySum(d);
    MarchOffsetIsMonthStart(d.year, d.month);
    YearStartClosed(d.year);
  }

  lemma LaterInYear(d: Date)
    requires ValidDate(d) && d.month > 2
    ensures EpochDay(d) == DayCount(d) - 719162
  {
    EpochDaySum(d);
    MarchOffsetIsMonthStart(d.year, d.month);
    YearStartClosed(d.year);
    LeapStep(d.year);
  }

  /** The closed form is the calendar count, with 1970-01-01 as day 0. */
  lemma EpochDayIsDayCount(d: Date)
    requires ValidDate(d)
    ensures EpochDay(d) == DayCount(d) - DayCount(Date(1970, 1, 1))
  {
    EpochCount();
    if d.month <= 2 {
      EarlyInYear(d);
    } else {
      LaterInYear(d);
    }
  }

  lemma EpochCount()
    ensures DayCount(Date(1970, 1, 1)) == 719162
  {
    YearStartClosed(1970);
    assert MonthStart(1970, 1) == 0;
  }

  /** The epoch is day 0 and each calendar day adds one, across months, leap days and centuries. */
  lemma EpochDaySteps(d: Date)
    requires ValidDate(d) && d != Date(9999, 12, 31)
    ensures ValidDate(NextDay(d)) && EpochDay(NextDay(d)) == EpochDay(d) + 1
    ensures EpochDay(Date(1970, 1, 1)) == 0
  {
    NextDayCountsOne(d);
    EpochDayIsDayCount(d);
    EpochDayIsDayCount(NextDay(d));
    EpochDayIsDayCount(Date(1970, 1, 1));
  }

  predicate Earlier(a: Date, b: Date) {
    a.year < b.year || (a.year == b.year && (a.month < b.month || (a.month == b.month && a.day < b.day)))
  }

  lemma {:induction false} YearStartGrows(a: int, b: int)
    requires 1 <= a < b
    ensures YearStart(a) + DaysInYear(a) <= YearStart(b)
    decreases b
  {
    if a < b - 1 {
      YearStartGrows(a, b - 1);
    }
  }

  lemma {:induction false} MonthStartGrows(y: int, a: int, b: int)
    requires 1 <= a < b <= 13
    ensures MonthStart(y, a) + DaysInMonth(y, a) <= MonthStart(y, b)
    decreases b
  {
    if a < b - 1 {
      MonthStartGrows(y, a, b - 1);
    }
  }

  /** Later dates have larger day numbers, so no two dates share one. */
  lemma EpochDayIncreases(a: Date, b: Date)
    requires ValidDate(a) && ValidDate(b) && Earlier(a, b)
    ensures EpochDay(a) < EpochDay(b)
  {
    EpochDayIsDayCount(a);
    EpochDayIsDayCount(b);
    MonthStartGrows(a.year, a.month, 13);
    YearLength(a.year);
    if a.year < b.year {
      YearStartGrows(a.year, b.year);
    } else if a.month < b.month {
      MonthStartGrows(a.year, a.month, b.month);
    }
  }

  // ---- Nanoseconds in 64 bits ----

  const U64: int := 0x1_0000_0000_0000_0000

  datatype Fields = Fields(date: Date, hour: int, minute: int, second: int, fraction: seq<int>)

  predicate ValidFields(f: Fields) {
    && ValidDate(f.date) && 0 <= f.hour <= 23 && 0 <= f.minute <= 59 && 0 <= f.second <= 59
    && forall i :: 0 <= i < |f.fraction| ==> 0 <= f.fraction[i] <= 9
  }

  /** The number a digit string denotes. */
  function Digits(s: seq<int>): int {
    if s == [] then 0 else 10 * Digits(s[..|s| - 1]) + s[|s| - 1]
  }

  function Zeros(n: int): (z: seq<int>)
    ensures |z| == if n < 0 then 0 else n
  {
    if n <= 0 then [] else Zeros(n - 1) + [0]
  }

  /** format!("{:0<9}"): padded on the right to nine digits, never cut. */
  function Padded(s: seq<int>): seq<int> {
    s + Zeros(9 - |s|)
  }

  function Seconds(f: Fields): int
    requires ValidDate(f.date)
  {
    EpochDay(f.date) * 86400 + (f.hour * 3600 + f.minute * 60 + f.second)
  }

  /** An i64 seen as a u64. */
  function AsU64(x: int): int {
    x % U64
  }

  /** The value returned, in arithmetic modulo 2^64; None for fields the parser refuses. */
  function Parse(f: Fields): Option<int> {
    if !ValidFields(f) then None
    else if Digits(Padded(f.fraction)) >= U64 then None
    else Some((AsU64(Seconds(f)) * 1_000_000_000 % U64 + Digits(Padded(f.fraction))) % U64)
  }

  function PowTen(n: nat): nat {
    if n == 0 then 1 else 10 * PowTen(n - 1)
  }

  /** The exact instant: whole seconds and the fraction 0.d1d2..., in nanoseconds times 10^|fraction|. */
  function ScaledInstant(f: Fields): int
    requires ValidDate(f.date)
  {
    Seconds(f) * 1_000_000_000 * PowTen(|f.fraction|) + Digits(f.fraction) * 1_000_000_000
  }

  /** The time one second later on the clock and the calendar. */
  function NextSecond(f: Fields): Fields {
    if f.second < 59 then f.(second := f.second + 1)
    else if f.minute < 59 then f.(minute := f.minute + 1, second := 0)
    else if f.hour < 23 then f.(hour := f.hour + 1, minute := 0, second := 0)
    else f.(date := NextDay(f.date), hour := 0, minute := 0, second := 0)
  }

  /** Seconds are counted from 1970-01-01T00:00:00, one for each second of the clock, over every midnight. */
  lemma SecondsCountTheClock(f: Fields)
    requires ValidFields(f) && NextSecond(f).date.year <= 9999
    ensures ValidFields(NextSecond(f)) && Seconds(NextSecond(f)) == Seconds(f) + 1
    ensures Seconds(Fields(Date(1970, 1, 1), 0, 0, 0, f.fraction)) == 0
    ensures ValidDate(Date(1, 1, 1)) && !ValidDate(Date(0, 12, 31)) && !ValidDate(Date(10000, 1, 1))
  {
    EpochDayIsDayCount(Date(1970, 1, 1));
    if f.date != Date(9999, 12, 31) {
      EpochDaySteps(f.date);
    }
  }

  lemma {:induction false} DigitsPad(s: seq<int>, n: nat)
    ensures Digits(s + Zeros(n)) == Digits(s) * PowTen(n)
  {
    if n == 0 {
      assert s + Zeros(0) == s;
    } else {
      DigitsPad(s, n - 1);
      var p := s + Zeros(n);
      assert p[..|p| - 1] == s + Zeros(n - 1);
    }
  }

  lemma {:induction false} DigitsBound(s: seq<int>)
    requires forall i :: 0 <= i < |s| ==> 0 <= s[i] <= 9
    ensures 0 <= Digits(s) < PowTen(|s|)
  {
    if s != [] {
      DigitsBound(s[..|s| - 1]);
    }
  }

  lemma {:induction false} PowTenSum(a: nat, b: nat)
    ensures PowTen(a + b) == PowTen(a) * PowTen(b) && PowTen(b) > 0
    decreases b
  {
    if b > 0 {
      PowTenSum(a, b - 1);
      assert PowTen(a) * (10 * PowTen(b - 1)) == 10 * (PowTen(a) * PowTen(b - 1));
    }
  }

  lemma PowTenNine()
    ensures PowTen(9) == 1_000_000_000
  {
    assert PowTen(3) == 1000;
    PowTenSum(3, 3);
    PowTenSum(6, 3);
  }

  lemma PaddedBound(s: seq<int>)
    requires |s| <= 9 && forall i :: 0 <= i < |s| ==> 0 <= s[i] <= 9
    ensures 0 <= Digits(Padded(s)) < 1_000_000_000
  {
    ZerosAreZero(9 - |s|);
    DigitsBound(Padded(s));
    PowTenNine();
  }

  lemma Reassociate(a: int, b: int, c: int)
    ensures a * b * c == a * (b * c)
  {
  }

  /** With at most nine digits, padding gives the fraction in nanoseconds exactly. */
  lemma {:induction false} FractionExact(s: seq<int>)
    requires |s| <= 9
    ensures Digits(Padded(s)) * PowTen(|s|) == Digits(s) * 1_000_000_000
  {
    var n := 9 - |s|;
    DigitsPad(s, n);
    PowTenSum(n, |s|);
    PowTenNine();
    Reassociate(Digits(s), PowTen(n), PowTen(|s|));
  }

  lemma ZerosAreZero(n: int)
    ensures forall i :: 0 <= i < |Zeros(n)| ==> Zeros(n)[i] == 0
  {
  }

  /** The instant in nanoseconds, for a fraction of at most nine digits. */
  function Instant(f: Fields): int
    requires ValidFields(f) && |f.fraction| <= 9
  {
    Seconds(f) * 1_000_000_000 + Digits(Padded(f.fraction))
  }

  lemma Distribute(a: int, b: int, c: int)
    ensures (a + b) * c == a * c + b * c
  {
  }

  lemma InstantIsExact(f: Fields)
    requires ValidFields(f) && |f.fraction| <= 9
    ensures Instant(f) * PowTen(|f.fraction|) == ScaledInstant(f)
  {
    FractionExact(f.fraction);
    Distribute(Seconds(f) * 1_000_000_000, Digits(Padded(f.fraction)), PowTen(|f.fraction|));
  }

  /** Adding nanoseconds to wrapped seconds is exact if and only if the sum needs no wrapping. */
  lemma WrapExactIff(seconds: int, frac: int)
    requires 0 <= frac < 1_000_000_000
    ensures (AsU64(seconds) * 1_000_000_000 % U64 + frac) % U64 == seconds * 1_000_000_000 + frac
       <==> 0 <= seconds * 1_000_000_000 + frac < U64
  {
    var x := seconds * 1_000_000_000 + frac;
    if 0 <= x < U64 {
      assert 0 <= seconds < U64;
      assert AsU64(seconds) == seconds;
      assert 0 <= seconds * 1_000_000_000 < U64;
    }
  }

  /** The parser gives the instant that the fields denote. */
  predicate IsExact(f: Fields)
    requires ValidFields(f)
  {
    Parse(f).Some? && Parse(f).value * PowTen(|f.fraction|) == ScaledInstant(f)
  }

  predicate AllZero(s: seq<int>) {
    forall i :: 0 <= i < |s| ==> s[i] == 0
  }

  lemma {:induction false} DigitsZeroIff(s: seq<int>)
    requires forall i :: 0 <= i < |s| ==> 0 <= s[i] <= 9
    ensures Digits(s) == 0 <==> AllZero(s)
  {
    if s != [] {
      DigitsZeroIff(s[..|s| - 1]);
      DigitsBound(s[..|s| - 1]);
    }
  }

  /** Wrapping takes away whole multiples of 2^64. */
  lemma Wrapped(seconds: int, frac: int) returns (q: int)
    ensures (AsU64(seconds) * 1_000_000_000 % U64 + frac) % U64 == seconds * 1_000_000_000 + frac - q * U64
  {
    var a := AsU64(seconds);
    q := seconds / U64 * 1_000_000_000 + a * 1_000_000_000 / U64 + (a * 1_000_000_000 % U64 + frac) / U64;
  }

  lemma Monotone(x: int, y: int, p: int)
    requires p > 0
    ensures x * p < y * p <==> x < y
  {
    if x < y {
      assert (y - x) * p > 0;
    } else {
      assert (x - y) * p >= 0;
    }
  }

  /** A fraction taken at more than its worth is right only if it is zero and nothing wraps. */
  lemma NoSurplus(d: int, q: int, p: int)
    requires 0 <= d < U64 && p > 1_000_000_000 && (d - q * U64) * p == d * 1_000_000_000
    ensures d == 0 && q == 0
  {
    var surplus := d * (p - 1_000_000_000);
    SurplusBound(d, p);
    assert q * (U64 * p) == surplus;
    Monotone(q, 1, U64 * p);
    Monotone(-1, q, U64 * p);
    assert q == 0 && surplus == 0;
  }

  lemma SurplusBound(d: int, p: int)
    requires 0 <= d < U64 && p > 1_000_000_000
    ensures 0 <= d * (p - 1_000_000_000) < U64 * p
    ensures d > 0 ==> d * (p - 1_000_000_000) > 0
  {
    Monotone(d, U64, p);
    assert d * (p - 1_000_000_000) == d * p - d * 1_000_000_000;
    assert d > 0 ==> d * (p - 1_000_000_000) > 0;
  }

  lemma PowTenLong(n: nat)
    requires n > 9
    ensures PowTen(n) > 1_000_000_000
  {
    PowTenSum(9, n - 9);
    PowTenNine();
    PowTenSum(0, n - 10);
    assert PowTen(n - 9) == 10 * PowTen(n - 10);
  }

  /** More than nine digits are read as that many whole nanoseconds, so only zeros are read right. */
  lemma {:induction false} LongExactIff(f: Fields)
    requires ValidFields(f) && |f.fraction| > 9
    ensures IsExact(f) <==> AllZero(f.fraction) && 0 <= Seconds(f) * 1_000_000_000 < U64
  {
    var d, p, whole := Digits(f.fraction), PowTen(|f.fraction|), Seconds(f) * 1_000_000_000;
    DigitsZeroIff(f.fraction);
    DigitsBound(f.fraction);
    PowTenLong(|f.fraction|);
    assert Padded(f.fraction) == f.fraction;
    if d < U64 {
      var q := Wrapped(Seconds(f), d);
      assert Parse(f) == Some(whole + (d - q * U64));
      Distribute(whole, d - q * U64, p);
      if IsExact(f) {
        NoSurplus(d, q, p);
      } else if d == 0 {
        WrapExactIff(Seconds(f), 0);
      }
    }
  }

  lemma SameScale(a: int, b: int, p: int)
    requires p > 0
    ensures a * p == b * p <==> a == b
  {
    if a < b {
      assert (b - a) * p > 0;
    } else if b < a {
      assert (a - b) * p > 0;
    }
  }

  /**
   * The parser is exact on exactly these fields: with at most nine fraction digits those whose
   * instant lies from 1970 up to the 64-bit limit, with more those whose fraction is all zeros as well.
   */
  lemma ParseExactIff(f: Fields)
    requires ValidFields(f)
    ensures IsExact(f) <==>
      if |f.fraction| <= 9 then 0 <= Instant(f) < U64
      else AllZero(f.fraction) && 0 <= Seconds(f) * 1_000_000_000 < U64
    ensures 0 <= Seconds(f) <==> f.date.year >= 1970
  {
    SinceEpoch(f);
    if |f.fraction| <= 9 {
      PaddedBound(f.fraction);
      WrapExactIff(Seconds(f), Digits(Padded(f.fraction)));
      InstantIsExact(f);
      PowTenSum(0, |f.fraction|);
      SameScale(Parse(f).value, Instant(f), PowTen(|f.fraction|));
    } else {
      LongExactIff(f);
    }
  }

  /** Only fractions of twenty digits and more are ever refused, and exactly those that overflow 64 bits. */
  lemma RefusedIff(f: Fields)
    requires ValidFields(f)
    ensures Parse(f).None? <==> |f.fraction| >= 20 && Digits(f.fraction) >= U64
  {
    if |f.fraction| <= 9 {
      PaddedBound(f.fraction);
    } else {
      assert Padded(f.fraction) == f.fraction;
      if |f.fraction| < 20 {
        DigitsBound(f.fraction);
        PowTenGrows(|f.fraction|, 19);
        PowTenNineteen();
      }
    }
  }

  lemma {:induction false} PowTenGrows(a: nat, b: nat)
    requires a <= b
    ensures PowTen(a) <= PowTen(b)
    decreases b
  {
    if a < b {
      PowTenGrows(a, b - 1);
      PowTenSum(0, b - 1);
    }
  }

  lemma PowTenNineteen()
    ensures PowTen(19) < U64
  {
    PowTenNine();
    PowTenSum(9, 9);
    assert PowTen(19) == 10 * PowTen(18);
  }

  lemma SinceEpoch(f: Fields)
    requires ValidFields(f)
    ensures Seconds(f) >= 0 <==> f.date.year >= 1970
  {
    var epoch := Date(1970, 1, 1);
    EpochDayIsDayCount(epoch);
    if f.date != epoch {
      if Earlier(epoch, f.date) {
        EpochDayIncreases(epoch, f.date);
      } else {
        EpochDayIncreases(f.date, epoch);
      }
    }
  }

  lemma HalfSecondDigits()
    ensures var s := [5] + Zeros(9);
      |s| == 10 && Digits(s) == 5_000_000_000 && Padded(s) == s && forall i :: 0 <= i < |s| ==> 0 <= s[i] <= 9
  {
    ZerosAreZero(9);
    DigitsPad([5], 9);
    PowTenNine();
    assert Digits([5]) == 5 by { assert [5][..0] == []; }
  }

  /** For instance, half a second written with ten digits is read as five seconds. */
  lemma {:induction false} LongFractionIsWrong()
    ensures var f := Fields(Date(1970, 1, 1), 0, 0, 0, [5] + Zeros(9));
      && ValidFields(f) && !IsExact(f)
      && Parse(f) == Some(5_000_000_000) && ScaledInstant(f) == 500_000_000 * PowTen(|f.fraction|)
  {
    HalfSecondDigits();
    EpochDayIsDayCount(Date(1970, 1, 1));
    PowTenNine();
    assert PowTen(10) == 10 * PowTen(9);
  }

  predicate Before(a: Fields, b: Fields)
    requires |a.fraction| <= 9 && |b.fraction| <= 9
  {
    || Earlier(a.date, b.date)
    || (a.date == b.date
        && (a.hour < b.hour || (a.hour == b.hour
        && (a.minute < b.minute || (a.minute == b.minute
        && (a.second < b.second || (a.second == b.second
        && Digits(Padded(a.fraction)) < Digits(Padded(b.fraction)))))))))
  }

  /** Later fields parse to larger values throughout the exact span. */
  lemma ParseIncreases(a: Fields, b: Fields)
    requires ValidFields(a) && ValidFields(b) && |a.fraction| <= 9 && |b.fraction| <= 9
    requires Before(a, b) && a.date.year >= 1970 && Instant(b) < U64
    ensures Parse(a).Some? && Parse(b).Some? && Parse(a).value < Parse(b).value
  {
    PaddedBound(a.fraction);
    PaddedBound(b.fraction);
    if Earlier(a.date, b.date) {
      EpochDayIncreases(a.date, b.date);
    }
    assert Instant(a) < Instant(b);
    ExactInstant(a);
    ExactInstant(b);
  }

  lemma ExactInstant(f: Fields)
    requires ValidFields(f) && |f.fraction| <= 9
    ensures Parse(f) == Some(Instant(f)) <==> 0 <= Instant(f) < U64
    ensures 0 <= Instant(f) <==> f.date.year >= 1970
  {
    SinceEpoch(f);
    PaddedBound(f.fraction);
    WrapExactIff(Seconds(f), Digits(Padded(f.fraction)));
  }

  /** a denotes an earlier instant than b, whatever the lengths of their fractions. */
  predicate Sooner(a: Fields, b: Fields)
    requires ValidFields(a) && ValidFields(b)
  {
    ScaledInstant(a) * PowTen(|b.fraction|) < ScaledInstant(b) * PowTen(|a.fraction|)
  }

  /** Wherever the parser is exact it keeps the order of instants, both ways and for fractions of any length. */
  lemma ExactKeepsOrder(a: Fields, b: Fields)
    requires ValidFields(a) && ValidFields(b) && IsExact(a) && IsExact(b)
    ensures Sooner(a, b) <==> Parse(a).value < Parse(b).value
  {
    PowTenSum(0, |a.fraction|);
    PowTenSum(0, |b.fraction|);
    CrossOrder(Parse(a).value, Parse(b).value, PowTen(|a.fraction|), PowTen(|b.fraction|));
  }

  lemma CrossOrder(x: int, y: int, p: int, q: int)
    requires p > 0 && q > 0
    ensures x * p * q < y * q * p <==> x < y
  {
    Reassociate(x, p, q);
    Reassociate(y, q, p);
    Monotone(x, y, p * q);
  }
}
