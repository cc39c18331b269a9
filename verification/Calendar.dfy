/** Calendar dates, the layout `2006-01-02` (the full-date of section 5.6 of RFC 3339), and instants.

    An instant is a count of nanoseconds from 0000-01-01T00:00:00Z, a day is the number of whole days
    since that origin. */
module Calendar {
  import opened Text
  import opened Decimal

  datatype Date = Date(year: nat, month: nat, day: nat)

  /** Nanoseconds in a day; UTC has no other day length in Go's `time`. */
  const DAY := 86_400_000_000_000

  // ---------- the calendar ----------

  predicate IsLeap(y: nat) {
    y % 4 == 0 && (y % 100 != 0 || y % 400 == 0)
  }

  function DaysIn(m: nat, y: nat): nat {
    if m == 2 then if IsLeap(y) then 29 else 28
    else if m == 4 || m == 6 || m == 9 || m == 11 then 30
    else 31
  }

  predicate ValidDate(d: Date) {
    1 <= d.month <= 12 && 1 <= d.day <= DaysIn(d.month, d.year)
  }

  function YearLength(y: nat): nat {
    if IsLeap(y) then 366 else 365
  }

  function DaysBeforeYear(y: nat): nat {
    if y == 0 then 0 else DaysBeforeYear(y - 1) + YearLength(y - 1)
  }

  function DaysBeforeMonth(m: nat, y: nat): nat {
    if m <= 1 then 0 else DaysBeforeMonth(m - 1, y) + DaysIn(m - 1, y)
  }

  /** Whole days between 0000-01-01 and `d`. */
  function DayNumber(d: Date): nat
    requires ValidDate(d)
  {
    DaysBeforeYear(d.year) + DaysBeforeMonth(d.month, d.year) + d.day - 1
  }

  function NextDate(d: Date): Date {
    if d.day < DaysIn(d.month, d.year) then d.(day := d.day + 1)
    else if d.month < 12 then Date(d.year, d.month + 1, 1)
    else Date(d.year + 1, 1, 1)
  }

  /** The date of a day, found by stepping through the calendar. */
  function DateOf(day: nat): Date {
    if day == 0 then Date(0, 1, 1) else NextDate(DateOf(day - 1))
  }

  /** The months of a year add up to its length. */
  lemma MonthsFillYear(y: nat)
    ensures DaysBeforeMonth(12, y) + DaysIn(12, y) == YearLength(y)
  {
    assert DaysBeforeMonth(1, y) == 0;
    assert DaysBeforeMonth(2, y) == 31;
    assert DaysBeforeMonth(3, y) == 31 + DaysIn(2, y);
    assert DaysBeforeMonth(4, y) == 62 + DaysIn(2, y);
    assert DaysBeforeMonth(5, y) == 92 + DaysIn(2, y);
    assert DaysBeforeMonth(6, y) == 123 + DaysIn(2, y);
    assert DaysBeforeMonth(7, y) == 153 + DaysIn(2, y);
    assert DaysBeforeMonth(8, y) == 184 + DaysIn(2, y);
    assert DaysBeforeMonth(9, y) == 215 + DaysIn(2, y);
    assert DaysBeforeMonth(10, y) == 245 + DaysIn(2, y);
    assert DaysBeforeMonth(11, y) == 276 + DaysIn(2, y);
  }

  lemma NextDateFollows(d: Date)
    requires ValidDate(d)
    ensures ValidDate(NextDate(d)) && DayNumber(NextDate(d)) == DayNumber(d) + 1
  {
    if d.day == DaysIn(d.month, d.year) {
      if d.month == 12 {
        MonthsFillYear(d.year);
        assert DaysBeforeYear(d.year + 1) == DaysBeforeYear(d.year) + YearLength(d.year);
      } else {
        assert DaysBeforeMonth(d.month + 1, d.year) == DaysBeforeMonth(d.month, d.year) + DaysIn(d.month, d.year);
      }
    }
  }

  lemma {:induction false} DateOfDay(day: nat)
    ensures ValidDate(DateOf(day)) && DayNumber(DateOf(day)) == day
  {
    if day > 0 {
      DateOfDay(day - 1);
      NextDateFollows(DateOf(day - 1));
    }
  }

  predicate Earlier(a: Date, b: Date) {
    a.year < b.year || (a.year == b.year && (a.month < b.month || (a.month == b.month && a.day < b.day)))
  }

  lemma {:induction false} MonthsGrow(m: nat, n: nat, y: nat)
    requires 1 <= m < n
    ensures DaysBeforeMonth(m, y) + DaysIn(m, y) <= DaysBeforeMonth(n, y)
  {
    if m + 1 < n { MonthsGrow(m, n - 1, y); }
  }

  lemma {:induction false} YearsGrow(x: nat, y: nat)
    requires x < y
    ensures DaysBeforeYear(x) + YearLength(x) <= DaysBeforeYear(y)
  {
    if x + 1 < y { YearsGrow(x, y - 1); }
  }

  lemma EarlierIsSmaller(a: Date, b: Date)
    requires ValidDate(a) && ValidDate(b) && Earlier(a, b)
    ensures DayNumber(a) < DayNumber(b)
  {
    if a.year < b.year {
      YearsGrow(a.year, b.year);
      MonthsFillYear(a.year);
      if a.month < 12 { MonthsGrow(a.month, 12, a.year); }
    } else if a.month < b.month {
      MonthsGrow(a.month, b.month, a.year);
    }
  }

  /** Counting days orders dates exactly as year, month, day do, and no two dates share a number. */
  lemma DayNumberOrders(a: Date, b: Date)
    requires ValidDate(a) && ValidDate(b)
    ensures Earlier(a, b) <==> DayNumber(a) < DayNumber(b)
    ensures a == b <==> DayNumber(a) == DayNumber(b)
  {
    if Earlier(a, b) {
      EarlierIsSmaller(a, b);
    } else if Earlier(b, a) {
      EarlierIsSmaller(b, a);
    }
  }

  // ---------- the layout 2006-01-02 ----------

  function Zeros(n: nat): string {
    seq(n, _ => '0')
  }

  /** Zero-padded to at least `width` digits, as Go prints years, months and days. */
  function Pad(n: nat, width: nat): string {
    var digits := Dec(n);
    if |digits| >= width then digits else Zeros(width - |digits|) + digits
  }

  /** `t.Format("2006-01-02")`. */
  function Format(d: Date): string {
    Pad(d.year, 4) + "-" + Pad(d.month, 2) + "-" + Pad(d.day, 2)
  }

  predicate DateShape(s: string) {
    && |s| == 10 && s[4] == '-' && s[7] == '-'
    && (forall i :: 0 <= i < 10 && i != 4 && i != 7 ==> IsDigit(s[i]))
  }

  function TwoDigits(s: string, i: nat): nat
    requires i + 1 < |s| && IsDigit(s[i]) && IsDigit(s[i+1])
  {
    10 * DigitValue(s[i]) + DigitValue(s[i+1])
  }

  function FieldsOf(s: string): Date
    requires DateShape(s)
  {
    Date(100 * TwoDigits(s, 0) + TwoDigits(s, 2), TwoDigits(s, 5), TwoDigits(s, 8))
  }

  /** `time.Parse("2006-01-02", s)`: four digits, two and two, and a day the month has. */
  function Parse(s: string): (r: Option<Date>)
    ensures r.Some? ==> ValidDate(r.value)
  {
    if DateShape(s) && ValidDate(FieldsOf(s)) then Some(FieldsOf(s)) else None
  }

  predicate IsDate(s: string) {
    Parse(s).Some?
  }

  /** The day a date directory stands for. */
  function DayOf(s: string): nat
    requires IsDate(s)
  {
    DayNumber(Parse(s).value)
  }

  /** For accepted strings the first differing character decides both orders. */
  lemma FieldsOrderAt(s: string, t: string, i: nat)
    requires DateShape(s) && DateShape(t)
    requires i < 10 && (forall j :: 0 <= j < i ==> s[j] == t[j]) && s[i] != t[i]
    ensures Earlier(FieldsOf(s), FieldsOf(t)) <==> s[i] < t[i]
    ensures FieldsOf(s) != FieldsOf(t)
  {
    assert i != 4 && i != 7;
    assert IsDigit(s[i]) && IsDigit(t[i]);
  }

  lemma FirstDifference(s: string, t: string) returns (i: nat)
    requires |s| == |t| && s != t
    ensures i < |s| && s[i] != t[i] && s[..i] == t[..i]
  {
    i := 0;
    while s[i] == t[i]
      invariant i < |s| && s[..i] == t[..i]
      decreases |s| - i
    {
      assert s[..i+1] == s[..i] + [s[i]] && t[..i+1] == t[..i] + [t[i]];
      assert s[..|s|] == s && t[..|s|] == t;
      i := i + 1;
    }
  }

  /** String order is calendar order on everything the date filter accepts. */
  lemma StringOrderIsDayOrder(s: string, t: string)
    requires IsDate(s) && IsDate(t)
    ensures Less(s, t) <==> DayOf(s) < DayOf(t)
    ensures s == t <==> DayOf(s) == DayOf(t)
  {
    DayNumberOrders(FieldsOf(s), FieldsOf(t));
    LessTotal(s, t);
    if s != t {
      var i := FirstDifference(s, t);
      forall j | 0 <= j < i ensures s[j] == t[j] {
        assert s[..i][j] == t[..i][j];
      }
      LessAtDifference(s, t, i);
      FieldsOrderAt(s, t, i);
    }
  }

  lemma PadTwo(n: nat)
    requires n < 100
    ensures Pad(n, 2) == [DigitChar(n / 10), DigitChar(n % 10)]
  {
    if n >= 10 {
      assert Dec(n) == Dec(n / 10) + [DigitChar(n % 10)];
    } else {
      assert Zeros(1) == [DigitChar(0)];
    }
  }

  lemma DecHundreds(n: nat)
    requires n >= 100
    ensures Dec(n) == Dec(n / 100) + Pad(n % 100, 2)
  {
    PadTwo(n % 100);
    assert n / 10 / 10 == n / 100 && n % 100 / 10 == n / 10 % 10 && n % 100 % 10 == n % 10;
    assert Dec(n) == Dec(n / 10) + [DigitChar(n % 10)];
    assert Dec(n / 10) == Dec(n / 100) + [DigitChar(n / 10 % 10)];
  }

  lemma PadFour(n: nat)
    requires n < 10000
    ensures Pad(n, 4) == Pad(n / 100, 2) + Pad(n % 100, 2)
  {
    PadTwo(n / 100);
    if n < 100 {
      var tail := Dec(n);
      assert n >= 10 ==> tail == Dec(n / 10) + [DigitChar(n % 10)];
      assert Zeros(4 - |tail|) == Zeros(2) + Zeros(2 - |tail|);
      assert Zeros(2) == [DigitChar(0), DigitChar(0)];
    } else {
      DecHundreds(n);
      PadTwo(n % 100);
      assert |Dec(n / 100)| <= 2;
    }
  }

  lemma {:induction false} LongYear(n: nat)
    requires n >= 10000
    ensures |Dec(n)| >= 5
  {
    assert |Dec(n)| == |Dec(n / 10)| + 1;
    assert |Dec(n / 10)| == |Dec(n / 10 / 10)| + 1;
    assert |Dec(n / 10 / 10)| == |Dec(n / 10 / 10 / 10)| + 1;
    assert |Dec(n / 10 / 10 / 10)| == |Dec(n / 10 / 10 / 10 / 10)| + 1;
    NumDec(n / 10 / 10 / 10 / 10);
  }

  lemma FieldsOfDigits(y: nat, m: nat, d: nat, s: string)
    requires y < 10000 && m < 100 && d < 100
    requires s == [DigitChar(y / 100 / 10), DigitChar(y / 100 % 10), DigitChar(y % 100 / 10), DigitChar(y % 100 % 10),
                   '-', DigitChar(m / 10), DigitChar(m % 10), '-', DigitChar(d / 10), DigitChar(d % 10)]
    ensures DateShape(s) && FieldsOf(s) == Date(y, m, d)
  {
    assert TwoDigits(s, 0) == y / 100 && TwoDigits(s, 2) == y % 100;
  }

  lemma FormatShort(d: Date)
    requires ValidDate(d) && d.year <= 9999
    ensures DateShape(Format(d)) && FieldsOf(Format(d)) == d
  {
    PadTwo(d.month);
    PadTwo(d.day);
    PadFour(d.year);
    PadTwo(d.year / 100);
    PadTwo(d.year % 100);
    FieldsOfDigits(d.year, d.month, d.day, Format(d));
  }

  /** What the two producers print is accepted by the date filter exactly up to the year 9999,
      and then reads back as the date printed. */
  lemma FormatParse(d: Date)
    requires ValidDate(d)
    ensures IsDate(Format(d)) <==> d.year <= 9999
    ensures d.year <= 9999 ==> Parse(Format(d)) == Some(d)
  {
    if d.year <= 9999 {
      FormatShort(d);
    } else {
      LongYear(d.year);
      PadTwo(d.month);
      PadTwo(d.day);
      assert |Format(d)| >= 11;
    }
  }

  /** The directory name a producer uses at the instant `now`. */
  function Prefix(now: nat): string {
    Format(DateOf(now / DAY))
  }

  /** The date filter accepts the prefix a producer prints exactly up to the year 9999, and reads it
      back as the UTC day it was printed on. */
  lemma PrefixIsToday(now: nat)
    ensures IsDate(Prefix(now)) <==> DateOf(now / DAY).year <= 9999
    ensures IsDate(Prefix(now)) ==> DayOf(Prefix(now)) == now / DAY
  {
    DateOfDay(now / DAY);
    FormatParse(DateOf(now / DAY));
  }

  // ---------- known dates ----------

  /** Days before a year, with the leap years counted: every fourth, but for centuries, but for every fourth century. */
  lemma {:induction false} DaysBeforeYearClosed(y: nat)
    ensures DaysBeforeYear(y) == 365 * y + (y + 3) / 4 - (y + 99) / 100 + (y + 399) / 400
  {
    if y > 0 {
      DaysBeforeYearClosed(y - 1);
      FourthYears(y);
      Centuries(y);
      FourthCenturies(y);
      LeapYears(y - 1);
    }
  }

  lemma LeapYears(y: nat)
    ensures YearLength(y) == 365 + (if y % 4 == 0 then 1 else 0) - (if y % 100 == 0 then 1 else 0) + if y % 400 == 0 then 1 else 0
  {
    Multiples(y);
  }

  lemma Multiples(y: nat)
    ensures y % 400 == 0 ==> y % 100 == 0
    ensures y % 100 == 0 ==> y % 4 == 0
  {
    if y % 100 == 0 {
      assert y == 4 * (25 * (y / 100));
    }
    if y % 400 == 0 {
      assert y == 100 * (4 * (y / 400));
    }
  }

  lemma FourthYears(y: nat)
    requires y > 0
    ensures (y + 3) / 4 == (y + 2) / 4 + if (y - 1) % 4 == 0 then 1 else 0
  {
  }

  lemma Centuries(y: nat)
    requires y > 0
    ensures (y + 99) / 100 == (y + 98) / 100 + if (y - 1) % 100 == 0 then 1 else 0
  {
  }

  lemma FourthCenturies(y: nat)
    requires y > 0
    ensures (y + 399) / 400 == (y + 398) / 400 + if (y - 1) % 400 == 0 then 1 else 0
  {
  }

  lemma YearsCycle(y: nat)
    ensures DaysBeforeYear(y + 400) == DaysBeforeYear(y) + 146_097
  {
    DaysBeforeYearClosed(y);
    DaysBeforeYearClosed(y + 400);
    CycleShift(y);
  }

  lemma CycleShift(y: nat)
    ensures (y + 403) / 4 == (y + 3) / 4 + 100
    ensures (y + 499) / 100 == (y + 99) / 100 + 4
    ensures (y + 799) / 400 == (y + 399) / 400 + 1
    ensures IsLeap(y + 400) == IsLeap(y)
  {
  }

  /** The calendar repeats every 400 years, which are 146097 days. */
  lemma Cycle(d: Date)
    requires ValidDate(d)
    ensures ValidDate(d.(year := d.year + 400)) && DayNumber(d.(year := d.year + 400)) == DayNumber(d) + 146_097
  {
    YearsCycle(d.year);
    CycleShift(d.year);
    SameMonths(d.month, d.year, d.year + 400);
  }

  lemma {:induction false} SameMonths(m: nat, x: nat, y: nat)
    requires IsLeap(x) == IsLeap(y)
    ensures DaysBeforeMonth(m, x) == DaysBeforeMonth(m, y)
  {
    if m > 1 { SameMonths(m - 1, x, y); }
  }

  /** The lengths of the months in a common year and in a leap year. */
  lemma MonthLengths(m: nat)
    requires 1 <= m <= 12
    ensures DaysIn(m, 2023) == [31, 28, 31, 30, 31, 30, 31, 31, 30, 31, 30, 31][m - 1]
    ensures DaysIn(m, 2024) == [31, 29, 31, 30, 31, 30, 31, 31, 30, 31, 30, 31][m - 1]
  {
  }

  /** What the filter makes of ten characters with these digits. */
  lemma ReadFields(s: string, y: nat, m: nat, d: nat)
    requires |s| == 10 && y < 10000 && m < 100 && d < 100
    requires s[0] == DigitChar(y / 100 / 10) && s[1] == DigitChar(y / 100 % 10)
    requires s[2] == DigitChar(y % 100 / 10) && s[3] == DigitChar(y % 100 % 10) && s[4] == '-'
    requires s[5] == DigitChar(m / 10) && s[6] == DigitChar(m % 10) && s[7] == '-'
    requires s[8] == DigitChar(d / 10) && s[9] == DigitChar(d % 10)
    ensures IsDate(s) <==> ValidDate(Date(y, m, d))
  {
    assert TwoDigits(s, 0) == y / 100 && TwoDigits(s, 2) == y % 100;
    assert DateShape(s) && FieldsOf(s) == Date(y, m, d);
  }

  /** Names that the date filter takes. */
  lemma KnownDates()
    ensures IsDate("2024-02-29") && IsDate("2000-02-29") && IsDate("2024-05-31") && IsDate("2024-04-30")
  {
    ReadFields("2024-02-29", 2024, 2, 29);
    ReadFields("2000-02-29", 2000, 2, 29);
    ReadFields("2024-05-31", 2024, 5, 31);
    ReadFields("2024-04-30", 2024, 4, 30);
  }

  /** Names that it does not. */
  lemma KnownRefusals()
    ensures !IsDate("2023-02-29") && !IsDate("1900-02-29") && !IsDate("2024-04-31") && !IsDate("2024-13-01")
    ensures !IsDate("2024-1-01") && !IsDate("2024-01-00") && !IsDate("backups")
  {
    ReadFields("2023-02-29", 2023, 2, 29);
    ReadFields("1900-02-29", 1900, 2, 29);
    ReadFields("2024-04-31", 2024, 4, 31);
    ReadFields("2024-13-01", 2024, 13, 1);
    ReadFields("2024-01-00", 2024, 1, 0);
  }

  lemma WholeDays(day: nat, within: nat)
    requires within < DAY
    ensures (day * DAY + within) / DAY == day
  {
  }

  /** The prefix is the same from midnight to midnight, 24 hours of 3600 seconds later. */
  lemma PrefixAllDay(day: nat, within: nat)
    requires within < DAY
    ensures DAY == 24 * 3600 * 1_000_000_000
    ensures Prefix(day * DAY + within) == Format(DateOf(day))
  {
    WholeDays(day, within);
  }

  lemma DayIs(day: nat, d: Date)
    requires ValidDate(d) && DayNumber(d) == day
    ensures DateOf(day) == d
  {
    DateOfDay(day);
    DayNumberOrders(DateOf(day), d);
  }

  /** 1970-01-01, the first day of Unix time, is day 719528. */
  lemma Epoch(d: Date)
    requires ValidDate(d)
    ensures DayNumber(d) == 719_528 <==> d == Date(1970, 1, 1)
  {
    var first := Date(d.year, 1, 1).(year := 1970);
    DaysBeforeYearClosed(first.year);
    DayNumberOrders(d, first);
  }

  lemma EpochText()
    ensures Format(Date(1970, 1, 1)) == "1970-01-01"
  {
    PadTwo(1);
    PadFour(1970);
    PadTwo(19);
    PadTwo(70);
  }
}
