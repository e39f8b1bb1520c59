/** Billing periods: the YYYY-MM arithmetic of packages/shared/src/date.ts and the due date of a batch
    (apps/api/src/modules/billing/invoice.service.ts).

    An instant counts milliseconds since the epoch; Bangkok is seven hours ahead. The calendar is that of
    ECMAScript ("Year Number" and "Month Number" of its Time Values section).
  */
module Periods {
  import opened Numerals

  // ----- the strings ------------------------------------------------------------------------

  /** /^\d{4}-(0[1-9]|1[0-2])$/ */
  predicate IsPeriod(s: string) {
    && |s| == 7 && AllDigits(s[..4]) && s[4] == '-'
    && ((s[5] == '0' && '1' <= s[6] <= '9') || (s[5] == '1' && '0' <= s[6] <= '2'))
  }

  type Period = s: string | IsPeriod(s) witness "2026-04"

  /** `s.split('-').map(Number)`, for a string of digits, a dash and digits. */
  function YearOf(s: string): nat {
    Value(s[..DashAt(s)], 10)
  }

  function MonthOf(s: string): nat {
    if DashAt(s) == |s| then 0 else Value(s[DashAt(s) + 1..], 10)
  }

  /** `String(n)` */
  function Str(n: int): string {
    if n < 0 then "-" + Numeral(-n, 10) else Numeral(n, 10)
  }

  /** `n % d` of JavaScript: the sign is that of `n`. */
  function Remainder(n: int, d: nat): int
    requires d > 0
  {
    if n >= 0 then n % d else -((-n) % d)
  }

  function Show(year: int, month: int): string {
    PadStart(Str(year), 4) + "-" + PadStart(Str(month), 2)
  }

  function ShowTotal(total: int): string {
    Show(total / 12, Remainder(total, 12) + 1)
  }

  /** Months since year 0. */
  function Index(period: string): int {
    YearOf(period) * 12 + (MonthOf(period) - 1)
  }

  function AddPeriod(period: string, months: int): string {
    ShowTotal(Index(period) + months)
  }

  lemma TwoCharacters(a: char, b: char)
    ensures Value([a, b], 10) == 10 * DigitValue(a) + DigitValue(b)
  {
    assert [a, b][..1] == [a] && [a][..0] == [];
    assert Value([a], 10) == 10 * Value([], 10) + DigitValue(a);
  }

  lemma PeriodParts(s: string)
    requires IsPeriod(s)
    ensures DashAt(s) == 4
    ensures YearOf(s) == Value(s[..4], 10) <= 9999
    ensures MonthOf(s) == Value(s[5..], 10) && 1 <= MonthOf(s) <= 12
  {
    assert s[..4][0] == s[0] && s[..4][1] == s[1] && s[..4][2] == s[2] && s[..4][3] == s[3];
    assert DashAt(s) == 4;
    assert s[5..] == [s[5], s[6]];
    TwoCharacters(s[5], s[6]);
    FourDigits(s[..4]);
  }

  lemma IndexBounds(p: Period)
    ensures 0 <= Index(p) < 120_000 && YearOf(p) == Index(p) / 12 && MonthOf(p) == Index(p) % 12 + 1
  {
    PeriodParts(p);
  }

  lemma FourDigits(s: string)
    requires |s| == 4 && AllDigits(s)
    ensures Value(s, 10) <= 9999
  {
    assert s[..3][..2] == s[..2] && s[..2][..1] == s[..1] && s[..1][..0] == "";
    assert Value(s[..1], 10) == DigitValue(s[0]) && Value(s[..2], 10) <= 99 && Value(s[..3], 10) <= 999;
  }

  // ----- printing and reading back -------------------------------------------------------------

  lemma MonthText(m: nat)
    requires 1 <= m <= 12
    ensures PadStart(Numeral(m, 10), 2) == if m < 10 then ['0', Digit(m)] else ['1', Digit(m - 10)]
    ensures Value(PadStart(Numeral(m, 10), 2), 10) == m
  {
    PaddedNumeral(m, 10, 2);
    if m < 10 {
      assert PadStart([Digit(m)], 2) == PadStart("0" + [Digit(m)], 2);
    } else {
      assert Numeral(m, 10) == Numeral(m / 10, 10) + [Digit(m % 10)];
    }
  }

  lemma YearText(y: nat)
    ensures var a := PadStart(Numeral(y, 10), 4);
      AllDigits(a) && Value(a, 10) == y && |a| >= 4 && (|a| == 4 <==> y <= 9999)
  {
    assert Power(10, 2) == 100;
    assert Power(10, 4) == 10_000;
    NumeralDigits(y);
    PadStartDigits(Numeral(y, 10), 4);
    PaddedNumeral(y, 10, 4);
  }

  lemma ReadsBack(a: string, b: string)
    requires AllDigits(a)
    ensures YearOf(a + "-" + b) == Value(a, 10) && MonthOf(a + "-" + b) == Value(b, 10)
  {
    var s := a + "-" + b;
    DashAfter(a, b);
    assert s[..|a|] == a && s[|a| + 1..] == b;
  }

  lemma IsPeriodWhen(a: string, m: nat)
    requires AllDigits(a) && |a| >= 4 && 1 <= m <= 12
    ensures IsPeriod(a + "-" + PadStart(Numeral(m, 10), 2)) <==> |a| == 4
  {
    MonthText(m);
    MonthDigits(m);
    WithMonth(a, PadStart(Numeral(m, 10), 2));
  }

  predicate IsMonth(b: string) {
    |b| == 2 && ((b[0] == '0' && '1' <= b[1] <= '9') || (b[0] == '1' && '0' <= b[1] <= '2'))
  }

  lemma MonthDigits(m: nat)
    requires 1 <= m <= 12
    ensures IsMonth(if m < 10 then ['0', Digit(m)] else ['1', Digit(m - 10)])
  {
  }

  lemma WithMonth(a: string, b: string)
    requires AllDigits(a) && IsMonth(b)
    ensures IsPeriod(a + "-" + b) <==> |a| == 4
  {
    var s := a + "-" + b;
    assert |s| == |a| + 3;
    assert |a| == 4 ==> s[..4] == a && s[4] == '-' && s[5] == b[0] && s[6] == b[1];
  }

  /** A year that is not negative is read back as it was printed, however many digits it has. */
  lemma ShowReadsBack(y: nat, m: nat)
    requires 1 <= m <= 12
    ensures YearOf(Show(y, m)) == y && MonthOf(Show(y, m)) == m
    ensures IsPeriod(Show(y, m)) <==> y <= 9999
  {
    var a, b := PadStart(Numeral(y, 10), 4), PadStart(Numeral(m, 10), 2);
    YearText(y);
    MonthText(m);
    ReadsBack(a, b);
    IsPeriodWhen(a, m);
  }

  /** Only totals from 0 to 119999 print as periods. */
  lemma TotalShown(total: int)
    ensures IsPeriod(ShowTotal(total)) <==> 0 <= total < 120_000
    ensures total >= 0 ==>
      && YearOf(ShowTotal(total)) == total / 12 && MonthOf(ShowTotal(total)) == total % 12 + 1
      && Index(ShowTotal(total)) == total
  {
    if total < 0 {
      NegativeYear(total / 12, Remainder(total, 12) + 1);
    } else {
      ShowReadsBack(total / 12, total % 12 + 1);
    }
  }

  lemma {:induction false} DashStays(s: string, width: nat)
    requires '-' in s
    ensures '-' in PadStart(s, width)
    decreases width - |s|
  {
    if |s| < width {
      assert ("0" + s)[1..] == s;
      DashStays("0" + s, width);
    }
  }

  lemma NegativeYear(y: int, m: int)
    requires y < 0
    ensures !IsPeriod(Show(y, m))
  {
    var a, b, s := PadStart(Str(y), 4), PadStart(Str(m), 2), Show(y, m);
    assert Str(y)[0] == '-';
    DashStays(Str(y), 4);
    if |a| == 4 {
      assert s[..4] == a;
      var k :| 0 <= k < 4 && a[k] == '-';
      assert s[..4][k] == '-';
    }
  }

  lemma TensAndUnits(u: nat, x: nat, v: nat, y: nat)
    requires x < 10 && y < 10 && 10 * u + x == 10 * v + y
    ensures u == v && x == y
  {
  }

  lemma {:induction false} SameDigits(a: string, b: string)
    requires AllDigits(a) && AllDigits(b) && |a| == |b| && Value(a, 10) == Value(b, 10)
    ensures a == b
    decreases |a|
  {
    if a != "" {
      var n := |a| - 1;
      TensAndUnits(Value(a[..n], 10), DigitValue(a[n]), Value(b[..n], 10), DigitValue(b[n]));
      SameDigits(a[..n], b[..n]);
      assert a == a[..n] + [a[n]] && b == b[..n] + [b[n]];
    }
  }

  lemma SamePeriod(p: Period, q: Period)
    requires YearOf(p) == YearOf(q) && MonthOf(p) == MonthOf(q)
    ensures p == q
  {
    PeriodParts(p);
    PeriodParts(q);
    SameDigits(p[..4], q[..4]);
    SameDigits(p[5..], q[5..]);
    assert p == p[..4] + "-" + p[5..] && q == q[..4] + "-" + q[5..];
  }

  /** A period is determined by its index, and printing the index gives it back. */
  lemma ShowIndex(p: Period)
    ensures ShowTotal(Index(p)) == p
  {
    IndexBounds(p);
    TotalShown(Index(p));
    SamePeriod(ShowTotal(Index(p)), p);
  }

  lemma ShownIs(s: string, total: int)
    requires s == ShowTotal(total)
    ensures IsPeriod(s) <==> 0 <= total < 120_000
    ensures IsPeriod(s) ==> Index(s) == total
  {
    TotalShown(total);
  }

  /** Adding months stays within YYYY-MM exactly between the years 0 and 9999, and then moves the index. */
  lemma AddPeriodIsValid(p: Period, months: int)
    ensures IsPeriod(AddPeriod(p, months)) <==> 0 <= Index(p) + months < 120_000
    ensures IsPeriod(AddPeriod(p, months)) ==> Index(AddPeriod(p, months)) == Index(p) + months
  {
    ShownIs(AddPeriod(p, months), Index(p) + months);
  }

  lemma SameIndex(p: Period, q: Period)
    requires Index(p) == Index(q)
    ensures p == q
  {
    IndexBounds(p);
    IndexBounds(q);
    SamePeriod(p, q);
  }

  /** While in range, months add up. */
  lemma AddPeriodTwice(p: Period, a: int, b: int)
    requires 0 <= Index(p) + a < 120_000 && 0 <= Index(p) + a + b < 120_000
    ensures AddPeriod(AddPeriod(p, a), b) == AddPeriod(p, a + b)
  {
    AddPeriodIsValid(p, a);
    AddPeriodIsValid(AddPeriod(p, a), b);
    AddPeriodIsValid(p, a + b);
    SameIndex(AddPeriod(AddPeriod(p, a), b), AddPeriod(p, a + b));
  }

  /** Which period a step leads to. */
  lemma AddPeriodReaches(p: Period, months: int, q: Period)
    ensures AddPeriod(p, months) == q <==> Index(q) == Index(p) + months
  {
    IndexBounds(q);
    AddPeriodIsValid(p, months);
    if Index(q) == Index(p) + months {
      SameIndex(AddPeriod(p, months), q);
    }
  }

  /** A step can be taken back. */
  lemma AddPeriodBack(p: Period, q: Period, a: int, back: int)
    requires a + back == 0
    ensures AddPeriod(p, a) == q <==> AddPeriod(q, back) == p
  {
    AddPeriodReaches(p, a, q);
    AddPeriodReaches(q, back, p);
  }

  // ----- the order of the strings ----------------------------------------------------------------

  /** `a < b` on strings. */
  predicate Less(a: string, b: string) {
    b != "" && (a == "" || a[0] < b[0] || (a[0] == b[0] && Less(a[1..], b[1..])))
  }

  lemma {:induction false} LessAppend(a: string, b: string, c: string, d: string)
    requires |a| == |b|
    ensures Less(a + c, b + d) <==> Less(a, b) || (a == b && Less(c, d))
    decreases |a|
  {
    if a == "" {
      assert a + c == c && b + d == d;
    } else {
      assert (a + c)[0] == a[0] && (a + c)[1..] == a[1..] + c;
      assert (b + d)[0] == b[0] && (b + d)[1..] == b[1..] + d;
      LessAppend(a[1..], b[1..], c, d);
      assert a == [a[0]] + a[1..] && b == [b[0]] + b[1..];
    }
  }

  lemma LessCharacter(a: char, b: char)
    ensures Less([a], [b]) <==> a < b
  {
    assert [a][1..] == [] && [b][1..] == [];
  }

  /** Strings of digits of one length compare as the numbers they stand for. */
  lemma {:induction false} LessIsNumeric(a: string, b: string)
    requires AllDigits(a) && AllDigits(b) && |a| == |b|
    ensures Less(a, b) <==> Value(a, 10) < Value(b, 10)
    decreases |a|
  {
    if a != "" {
      var n := |a| - 1;
      LessIsNumeric(a[..n], b[..n]);
      LessAppend(a[..n], b[..n], [a[n]], [b[n]]);
      LessCharacter(a[n], b[n]);
      assert a == a[..n] + [a[n]] && b == b[..n] + [b[n]];
      if Value(a[..n], 10) == Value(b[..n], 10) {
        SameDigits(a[..n], b[..n]);
      }
    }
  }

  /** The order of the strings is the order of the months. */
  lemma PeriodOrder(p: Period, q: Period)
    ensures Less(p, q) <==> Index(p) < Index(q)
  {
    PeriodParts(p);
    PeriodParts(q);
    assert p == p[..4] + ("-" + p[5..]) && q == q[..4] + ("-" + q[5..]);
    LessAppend(p[..4], q[..4], "-" + p[5..], "-" + q[5..]);
    LessAppend("-", "-", p[5..], q[5..]);
    LessCharacter('-', '-');
    LessIsNumeric(p[..4], q[..4]);
    LessIsNumeric(p[5..], q[5..]);
    if YearOf(p) == YearOf(q) {
      SameDigits(p[..4], q[..4]);
    }
  }

  // ----- the calendar ------------------------------------------------------------------------------

  predicate IsLeap(y: int) {
    y % 4 == 0 && (y % 100 != 0 || y % 400 == 0)
  }

  /** The number of the first day of a year, from 1 January 1970. */
  function DayFromYear(y: int): int {
    365 * (y - 1970) + (y - 1969) / 4 - (y - 1901) / 100 + (y - 1601) / 400
  }

  lemma YearLength(y: int)
    ensures DayFromYear(y + 1) - DayFromYear(y) == if IsLeap(y) then 366 else 365
  {
    EveryFourth(y);
    EveryHundredth(y);
    EveryFourHundredth(y);
    Centuries(y);
  }

  lemma Centuries(y: int)
    ensures y % 100 == 0 ==> y % 4 == 0
    ensures y % 400 == 0 ==> y % 100 == 0
  {
    if y % 100 == 0 {
      QuotientUnique(y, 4, 25 * (y / 100), 0);
    }
    if y % 400 == 0 {
      QuotientUnique(y, 100, 4 * (y / 400), 0);
    }
  }

  lemma EveryFourth(y: int)
    ensures (y - 1968) / 4 - (y - 1969) / 4 == if y % 4 == 0 then 1 else 0
  {
  }

  lemma EveryHundredth(y: int)
    ensures (y - 1900) / 100 - (y - 1901) / 100 == if y % 100 == 0 then 1 else 0
  {
  }

  lemma EveryFourHundredth(y: int)
    ensures (y - 1600) / 400 - (y - 1601) / 400 == if y % 400 == 0 then 1 else 0
  {
  }

  lemma {:induction false} YearsApart(a: int, b: int)
    requires a < b
    ensures DayFromYear(a) < DayFromYear(a + 1) <= DayFromYear(b)
    decreases b - a
  {
    YearLength(a);
    if a + 1 < b {
      YearsApart(a + 1, b);
    }
  }

  function YearUp(d: int, y: int): (year: int)
    requires DayFromYear(y) <= d
    ensures DayFromYear(year) <= d < DayFromYear(year + 1)
    decreases d - DayFromYear(y)
  {
    YearLength(y);
    if d < DayFromYear(y + 1) then y else YearUp(d, y + 1)
  }

  function YearDown(d: int, y: int): (year: int)
    requires d < DayFromYear(y + 1)
    ensures DayFromYear(year) <= d < DayFromYear(year + 1)
    decreases DayFromYear(y + 1) - d
  {
    YearLength(y);
    if DayFromYear(y) <= d then y else YearDown(d, y - 1)
  }

  /** The year a day belongs to. */
  function YearFromDay(d: int): (year: int)
    ensures DayFromYear(year) <= d < DayFromYear(year + 1)
  {
    if d >= 0 then YearUp(d, 1970) else YearDown(d, 1969)
  }

  lemma YearUnique(d: int, y: int)
    ensures YearFromDay(d) == y <==> DayFromYear(y) <= d < DayFromYear(y + 1)
  {
    var year := YearFromDay(d);
    if year < y {
      YearsApart(year, y);
    } else if y < year {
      YearsApart(y, year);
    }
  }

  /** Days of the year before the first of a month (0 for January); month 12 is the end of the year. */
  function DaysBefore(m: nat, leap: bool): nat
    requires m <= 12
  {
    [0, 31, 59, 90, 120, 151, 181, 212, 243, 273, 304, 334, 365][m] + if leap && m >= 2 then 1 else 0
  }

  function MonthOfYearDay(n: nat, leap: bool, m: nat): (month: nat)
    requires m <= 11 && DaysBefore(m, leap) <= n < DaysBefore(12, leap)
    ensures m <= month <= 11 && DaysBefore(month, leap) <= n < DaysBefore(month + 1, leap)
    decreases 12 - m
  {
    if n < DaysBefore(m + 1, leap) then m else MonthOfYearDay(n, leap, m + 1)
  }

  /** The number of a day within its year, from 0. */
  function DayOfYear(d: int): (n: nat)
    ensures n < DaysBefore(12, IsLeap(YearFromDay(d)))
  {
    YearLength(YearFromDay(d));
    d - DayFromYear(YearFromDay(d))
  }

  /** The month a day belongs to, 0 for January. */
  function MonthFromDay(d: int): (month: nat)
    ensures month <= 11
  {
    MonthOfYearDay(DayOfYear(d), IsLeap(YearFromDay(d)), 0)
  }

  /** The number of the first day of a month. */
  function MonthStart(y: int, m: nat): int
    requires m <= 12
  {
    DayFromYear(y) + DaysBefore(m, IsLeap(y))
  }

  lemma {:induction false} MonthsApart(a: nat, b: nat, leap: bool)
    requires a < b <= 12
    ensures DaysBefore(a, leap) + 28 <= DaysBefore(b, leap)
    decreases b - a
  {
    if a + 1 < b {
      MonthsApart(a + 1, b, leap);
    }
  }

  lemma MonthUnique(n: nat, leap: bool, m: nat)
    requires m <= 11 && n < DaysBefore(12, leap)
    ensures MonthOfYearDay(n, leap, 0) == m <==> DaysBefore(m, leap) <= n < DaysBefore(m + 1, leap)
  {
    var month := MonthOfYearDay(n, leap, 0);
    if month < m {
      MonthInOrder(month, m, leap);
    } else if m < month {
      MonthInOrder(m, month, leap);
    }
  }

  lemma MonthInOrder(a: nat, b: nat, leap: bool)
    requires a < b <= 11
    ensures DaysBefore(a + 1, leap) <= DaysBefore(b, leap)
  {
    if a + 1 < b {
      MonthsApart(a + 1, b, leap);
    }
  }

  lemma MonthWithinYear(y: int, m: nat)
    requires m <= 11
    ensures DayFromYear(y) <= MonthStart(y, m) && MonthStart(y, m) + 28 <= MonthStart(y, m + 1) <= DayFromYear(y + 1)
  {
    YearLength(y);
    MonthsApart(m, m + 1, IsLeap(y));
    if m + 1 < 12 {
      MonthsApart(m + 1, 12, IsLeap(y));
    }
  }

  /** Months have their usual lengths, and the count of days starts on 1 January 1970. */
  lemma MonthLength(y: int, m: nat)
    requires m <= 11
    ensures MonthStart(y, m + 1) - MonthStart(y, m)
         == if m == 1 then (if IsLeap(y) then 29 else 28)
            else if m == 3 || m == 5 || m == 8 || m == 10 then 30 else 31
    ensures MonthStart(1970, 0) == 0
  {
  }

  lemma MonthOfYear(d: int, m: nat)
    requires m <= 11
    ensures MonthFromDay(d) == m <==> MonthStart(YearFromDay(d), m) <= d < MonthStart(YearFromDay(d), m + 1)
  {
    MonthUnique(DayOfYear(d), IsLeap(YearFromDay(d)), m);
  }

  lemma DayInMonth(d: int, y: int, m: nat)
    requires m <= 11
    ensures YearFromDay(d) == y && MonthFromDay(d) == m <==> MonthStart(y, m) <= d < MonthStart(y, m + 1)
  {
    YearUnique(d, y);
    MonthWithinYear(y, m);
    if YearFromDay(d) == y {
      MonthOfYear(d, m);
    }
  }

  // ----- instants -----------------------------------------------------------------------------------

  const MS_PER_DAY := 86_400_000

  const OFFSET := 7 * 3_600_000

  function BangkokDay(instant: int): int {
    (instant + OFFSET) / MS_PER_DAY
  }

  function CurrentPeriod(now: int): string {
    Show(YearFromDay(BangkokDay(now)), MonthFromDay(BangkokDay(now)) + 1)
  }

  /** The year `new Date(y, ...)` takes: 0 to 99 mean the twentieth century. */
  function DateYear(y: nat): nat {
    if y <= 99 then 1900 + y else y
  }

  /** `fromBangkok(new Date(y, m - 1, day, 0, 0, 0, 0))`, `m` from 1. */
  function Midnight(y: nat, m: nat, day: int): int
    requires 1 <= m <= 12
  {
    (MonthStart(DateYear(y), m - 1) + day - 1) * MS_PER_DAY - OFFSET
  }

  predicate Readable(s: string) {
    1 <= MonthOf(s) <= 12
  }

  function PeriodStartUtc(period: string): int
    requires Readable(period)
  {
    Midnight(YearOf(period), MonthOf(period), 1)
  }

  lemma NextIsReadable(p: Period)
    ensures Readable(p)
    ensures Readable(AddPeriod(p, 1))
    ensures YearOf(AddPeriod(p, 1)) == (Index(p) + 1) / 12 && MonthOf(AddPeriod(p, 1)) == (Index(p) + 1) % 12 + 1
    ensures Index(p) >= 0 && YearOf(p) == Index(p) / 12 && MonthOf(p) == Index(p) % 12 + 1
  {
    IndexBounds(p);
    TotalShown(Index(p) + 1);
  }

  function PeriodEndUtc(p: Period): int {
    NextIsReadable(p);
    PeriodStartUtc(AddPeriod(p, 1))
  }

  predicate InPeriod(instant: int, p: Period) {
    NextIsReadable(p);
    PeriodStartUtc(p) <= instant < PeriodEndUtc(p)
  }

  /** A month ends where the next begins. */
  lemma NextMonthStart(y: int, m: nat)
    requires m == 11
    ensures MonthStart(y, m + 1) == MonthStart(y + 1, 0)
  {
    YearLength(y);
  }

  lemma DayBounds(instant: int, first: int, last: int)
    ensures first <= BangkokDay(instant) < last
       <==> first * MS_PER_DAY - OFFSET <= instant < last * MS_PER_DAY - OFFSET
  {
  }

  lemma ShownMonth(y: int, m: nat, p: Period)
    requires m <= 11
    ensures Show(y, m + 1) == p <==> y == Index(p) / 12 && m == Index(p) % 12
  {
    IndexBounds(p);
    ShowIndex(p);
    if y < 0 {
      NegativeYear(y, m + 1);
    } else {
      ShowReadsBack(y, m + 1);
    }
  }

  lemma ShownDay(d: int, p: Period)
    ensures Show(YearFromDay(d), MonthFromDay(d) + 1) == p <==>
      YearFromDay(d) == Index(p) / 12 && MonthFromDay(d) == Index(p) % 12
  {
    ShownMonth(YearFromDay(d), MonthFromDay(d), p);
  }

  /** The current period is the one whose calendar month the Bangkok day belongs to. */
  lemma CurrentPeriodIs(instant: int, p: Period)
    ensures CurrentPeriod(instant) == p <==>
      YearFromDay(BangkokDay(instant)) == Index(p) / 12 && MonthFromDay(BangkokDay(instant)) == Index(p) % 12
  {
    ShownDay(BangkokDay(instant), p);
  }

  lemma StartIs(s: string, y: nat, m: nat)
    requires y >= 100 && m <= 11 && YearOf(s) == y && MonthOf(s) == m + 1
    ensures Readable(s) && PeriodStartUtc(s) == MonthStart(y, m) * MS_PER_DAY - OFFSET
  {
    MidnightIs(y, m);
  }

  lemma NextStartIs(s: string, y: nat, m: nat)
    requires y >= 100 && m <= 11
    requires YearOf(s) == (y * 12 + m + 1) / 12 && MonthOf(s) == (y * 12 + m + 1) % 12 + 1
    ensures Readable(s) && PeriodStartUtc(s) == MonthStart(y, m + 1) * MS_PER_DAY - OFFSET
  {
    if m == 11 {
      StartIs(s, y + 1, 0);
      NextMonthStart(y, m);
    } else {
      StartIs(s, y, m + 1);
    }
  }

  lemma PeriodBounds(p: Period)
    requires Index(p) >= 1200
    ensures Readable(p)
    ensures PeriodStartUtc(p) == MonthStart(Index(p) / 12, Index(p) % 12) * MS_PER_DAY - OFFSET
    ensures PeriodEndUtc(p) == MonthStart(Index(p) / 12, Index(p) % 12 + 1) * MS_PER_DAY - OFFSET
  {
    NextIsReadable(p);
    StartIs(p, Index(p) / 12, Index(p) % 12);
    NextStartIs(AddPeriod(p, 1), Index(p) / 12, Index(p) % 12);
  }

  lemma MidnightIs(y: nat, m: nat)
    requires y >= 100 && m <= 11
    ensures Midnight(y, m + 1, 1) == MonthStart(y, m) * MS_PER_DAY - OFFSET
  {
  }

  lemma InPeriodIs(p: Period, instant: int)
    requires Index(p) >= 1200
    ensures InPeriod(instant, p) <==>
      MonthStart(Index(p) / 12, Index(p) % 12) <= BangkokDay(instant)
      < MonthStart(Index(p) / 12, Index(p) % 12 + 1)
  {
    PeriodBounds(p);
    DayBounds(instant, MonthStart(Index(p) / 12, Index(p) % 12), MonthStart(Index(p) / 12, Index(p) % 12 + 1));
  }

  /** From the year 100 on, periods tile time: an instant lies in a period exactly if the period is current. */
  lemma PeriodsTile(p: Period, instant: int)
    requires Index(p) >= 1200
    ensures InPeriod(instant, p) <==> CurrentPeriod(instant) == p
  {
    InPeriodIs(p, instant);
    CurrentPeriodIs(instant, p);
    DayInMonth(BangkokDay(instant), Index(p) / 12, Index(p) % 12);
  }

  /** Before the year 100 they do not: at the first instant of the month its period is current, but the
      interval of the period starts in the twentieth century. */
  lemma EarlyPeriodsMoved(p: Period, instant: int)
    requires Index(p) < 1200 && instant == MonthStart(Index(p) / 12, Index(p) % 12) * MS_PER_DAY - OFFSET
    ensures CurrentPeriod(instant) == p && !InPeriod(instant, p)
  {
    var y, m := Index(p) / 12, Index(p) % 12;
    NextIsReadable(p);
    assert BangkokDay(instant) == MonthStart(y, m);
    MonthWithinYear(y, m);
    DayInMonth(MonthStart(y, m), y, m);
    CurrentPeriodIs(instant, p);
    LaterYear(y, m);
  }

  /** Periods tile time exactly from the year 100 on. */
  lemma PeriodsTileIff(p: Period)
    ensures (forall instant :: InPeriod(instant, p) <==> CurrentPeriod(instant) == p) <==> Index(p) >= 1200
  {
    if Index(p) >= 1200 {
      forall instant
        ensures InPeriod(instant, p) <==> CurrentPeriod(instant) == p
      {
        PeriodsTile(p, instant);
      }
    } else {
      IndexBounds(p);
      EarlyPeriodsMoved(p, MonthStart(Index(p) / 12, Index(p) % 12) * MS_PER_DAY - OFFSET);
    }
  }

  lemma LaterYear(y: nat, m: nat)
    requires y <= 99 && m <= 11
    ensures MonthStart(y, m) < MonthStart(1900 + y, m)
  {
    YearsApart(y + 1, 1900 + y);
    YearLength(y);
  }

  // ----- the due date of a batch -----------------------------------------------------------------------

  function ComputeDueDate(period: Period, dueDayOfMonth: int): int {
    var next := AddPeriod(period, 1);
    NextIsReadable(period);
    Midnight(YearOf(next), MonthOf(next), dueDayOfMonth)
  }

  lemma MidnightMonth(y: nat, m: nat, day: int)
    requires m <= 11 && 1 <= day <= 28
    ensures BangkokDay(Midnight(y, m + 1, day)) == MonthStart(DateYear(y), m) + day - 1
    ensures CurrentPeriod(Midnight(y, m + 1, day)) == Show(DateYear(y), m + 1)
  {
    var d := MonthStart(DateYear(y), m) + day - 1;
    assert BangkokDay(Midnight(y, m + 1, day)) == d;
    MonthsApart(m, m + 1, IsLeap(DateYear(y)));
    DayInMonth(d, DateYear(y), m);
  }

  lemma DueMonth(p: Period, dueDayOfMonth: int)
    requires 1 <= dueDayOfMonth <= 28
    ensures var due, y, m := ComputeDueDate(p, dueDayOfMonth), (Index(p) + 1) / 12, (Index(p) + 1) % 12;
      && Index(p) >= 0
      && due == Midnight(y, m + 1, dueDayOfMonth) && PeriodEndUtc(p) == Midnight(y, m + 1, 1)
      && CurrentPeriod(due) == Show(DateYear(y), m + 1) && AddPeriod(p, 1) == Show(y, m + 1)
  {
    NextIsReadable(p);
    MidnightMonth((Index(p) + 1) / 12, (Index(p) + 1) % 12, dueDayOfMonth);
  }

  lemma SameShow(y: nat, z: nat, m: nat)
    requires 1 <= m <= 12
    ensures Show(y, m) == Show(z, m) <==> y == z
  {
    ShowReadsBack(y, m);
    ShowReadsBack(z, m);
  }

  lemma DueDay(p: Period, dueDayOfMonth: int)
    requires 1 <= dueDayOfMonth <= 28
    ensures BangkokDay(ComputeDueDate(p, dueDayOfMonth)) == BangkokDay(PeriodEndUtc(p)) + dueDayOfMonth - 1
    ensures !InPeriod(ComputeDueDate(p, dueDayOfMonth), p)
  {
    var y, m := (Index(p) + 1) / 12, (Index(p) + 1) % 12;
    DueMonth(p, dueDayOfMonth);
    MidnightMonth(y, m, dueDayOfMonth);
    MidnightMonth(y, m, 1);
  }

  /** A due day from 1 to 28 falls in the period after the billing period if and only if that one is in the year
      100 or later; otherwise it falls in the same month 1900 years on. */
  lemma DueInNextPeriod(p: Period, dueDayOfMonth: int)
    requires 1 <= dueDayOfMonth <= 28
    ensures CurrentPeriod(ComputeDueDate(p, dueDayOfMonth)) == AddPeriod(p, 1) <==> Index(p) + 1 >= 1200
    ensures Index(p) + 1 < 1200 ==>
      var next := AddPeriod(p, 1);
      CurrentPeriod(ComputeDueDate(p, dueDayOfMonth)) == Show(YearOf(next) + 1900, MonthOf(next))
    ensures BangkokDay(ComputeDueDate(p, dueDayOfMonth)) == BangkokDay(PeriodEndUtc(p)) + dueDayOfMonth - 1
    ensures !InPeriod(ComputeDueDate(p, dueDayOfMonth), p)
  {
    var y, m := (Index(p) + 1) / 12, (Index(p) + 1) % 12;
    DueMonth(p, dueDayOfMonth);
    SameShow(y, DateYear(y), m + 1);
    NextIsReadable(p);
    DueDay(p, dueDayOfMonth);
  }

  // ----- the documented examples -----------------------------------------------------------------------

  lemma FourDigitYear(s: string)
    requires s == "2026"
    ensures Value(s, 10) == 2026
  {
    TwoCharacters('2', '0');
    ValueSnoc("20", '2', 10);
    ValueSnoc("202", '6', 10);
    assert "20" == ['2', '0'] && "20" + ['2'] == "202" && "202" + ['6'] == s;
  }

  lemma MonthOfExample(p: Period, month: char)
    requires p == "2026-0" + [month] && '1' <= month <= '9'
    ensures Index(p) == 2026 * 12 + DigitValue(month) - 1
  {
    PeriodParts(p);
    FourDigitYear(p[..4]);
    TwoCharacters('0', month);
    assert p[5..] == ['0', month];
  }

  /** Three months after January 2026 is April 2026, which starts on 31 March at 17:00 UTC. */
  lemma Examples(january: Period, april: Period)
    requires january == "2026-01" && april == "2026-04"
    ensures AddPeriod(january, 3) == april
    ensures Readable(april) && PeriodStartUtc(april) == 1_774_976_400_000
  {
    MonthOfExample(january, '1');
    MonthOfExample(april, '4');
    AddPeriodReaches(january, 3, april);
    StartOfExample(april);
  }

  lemma StartOfExample(p: Period)
    requires Index(p) == 2026 * 12 + 3
    ensures Readable(p) && PeriodStartUtc(p) == 1_774_976_400_000
  {
    IndexBounds(p);
    StartIs(p, 2026, 3);
    DayOfExample(2026);
  }

  lemma DayOfExample(y: int)
    requires y == 2026
    ensures MonthStart(y, 3) == 20_544
  {
    assert DayFromYear(y) == 20_454;
  }
}
