/**
 * Week arithmetic of the statistics page: formatting a day as `YYYY-MM-DD`,
 * the Monday that starts a day's week, the `YYYY-Www` value the page selects
 * by default, and the Monday-to-Sunday range of a selected week value.
 * A JavaScript `Date` kept at UTC midnight is a `UtcDate` whose `time` is a
 * day number (see module Civil).
 */
module Week {
  import opened Civil
  import opened Text

  /** A day whose year has four digits, so that its ISO text compares chronologically. */
  predicate FourDigitYear(n: int)
  {
    YearStart(1000) <= n < YearStart(10000)
  }

  lemma FourDigitYearOf(n: int)
    requires FourDigitYear(n)
    ensures 1000 <= CivilFromDays(n).year <= 9999
  {
    var c := CivilFromDays(n);
    DateInYear(c);
    YearStep(c.year);
    if c.year < 1000 {
      YearStartBounds(c.year + 1, 1000 - c.year - 1);
    } else if c.year > 9999 {
      YearStartBounds(10000, c.year - 10000);
    }
  }

  /** `YYYY-MM-DD`: a date whose fields fit their widths, zero-padded. */
  function IsoText(c: CivilDate): (text: string)
    requires 0 <= c.year < 10000 && 0 <= c.month < 100 && 0 <= c.day < 100
  {
    Pad(c.year, 4) + "-" + Pad(c.month, 2) + "-" + Pad(c.day, 2)
  }

  /** ISO texts compare, as strings, in the chronological order of their fields. */
  lemma IsoTextOrder(a: CivilDate, b: CivilDate)
    requires 0 <= a.year < 10000 && 0 <= a.month < 100 && 0 <= a.day < 100
    requires 0 <= b.year < 10000 && 0 <= b.month < 100 && 0 <= b.day < 100
    ensures StrLt(IsoText(a), IsoText(b)) <==> CivilLt(a, b)
  {
    var ya, yb := Pad(a.year, 4), Pad(b.year, 4);
    var ma, mb := Pad(a.month, 2), Pad(b.month, 2);
    var da, db := Pad(a.day, 2), Pad(b.day, 2);
    assert IsoText(a) == ya + ("-" + (ma + ("-" + da)));
    assert IsoText(b) == yb + ("-" + (mb + ("-" + db)));
    StrLtConcat(ya, "-" + (ma + ("-" + da)), yb, "-" + (mb + ("-" + db)));
    StrLtConcat("-", ma + ("-" + da), "-", mb + ("-" + db));
    StrLtConcat(ma, "-" + da, mb, "-" + db);
    StrLtConcat("-", da, "-", db);
    StrLtIrreflexive("-");
    PadOrder(a.year, b.year, 4);
    PadInjective(a.year, b.year, 4);
    PadOrder(a.month, b.month, 2);
    PadInjective(a.month, b.month, 2);
    PadOrder(a.day, b.day, 2);
  }

  /**
   * `date.toISOString().slice(0, 10)` for a date at UTC midnight: the year,
   * month and day zero-padded to four, two and two digits and joined by
   * `-`, so that the text reads back as the day's date.
   */
  function FormatDateISO(n: int): (s: string)
    requires FourDigitYear(n)
    ensures |s| == 10 && s[4] == '-' && s[7] == '-'
    ensures AllDigits(s[..4]) && AllDigits(s[5..7]) && AllDigits(s[8..])
    ensures CivilDate(DigitsValue(s[..4]), DigitsValue(s[5..7]), DigitsValue(s[8..])) == CivilFromDays(n)
  {
    FourDigitYearOf(n);
    var c := CivilFromDays(n);
    PadValue(c.year, 4);
    PadValue(c.month, 2);
    PadValue(c.day, 2);
    var s := IsoText(c);
    assert s[..4] == Pad(c.year, 4) && s[5..7] == Pad(c.month, 2) && s[8..] == Pad(c.day, 2);
    s
  }

  /**
   * The ISO texts of two days compare, as strings, exactly as the days do.
   * This is why the page may filter dates by plain string comparison.
   */
  lemma FormatDateISOOrder(a: int, b: int)
    requires FourDigitYear(a) && FourDigitYear(b)
    ensures StrLt(FormatDateISO(a), FormatDateISO(b)) <==> a < b
  {
    var ca, cb := CivilFromDays(a), CivilFromDays(b);
    FourDigitYearOf(a);
    FourDigitYearOf(b);
    IsoTextOrder(ca, cb);
    DaysOrder(ca, cb);
  }

  /** ISO day of the week, 1 = Monday .. 7 = Sunday: `getUTCDay() || 7`. */
  function IsoDay(n: int): (d: int)
    ensures 1 <= d <= 7 && (d == 7 <==> UtcDay(n) == 0)
  {
    if UtcDay(n) == 0 then 7 else UtcDay(n)
  }

  /** The Monday that starts the week of day `n` (weeks run Monday to Sunday). */
  function MondayOnOrBefore(n: int): (r: int)
    ensures UtcDay(r) == 1 && r <= n < r + 7
  {
    n - IsoDay(n) + 1
  }

  /** The Monday of ISO week 1 of `year`: the Monday of the week that holds 4 January. */
  function Week1Monday(year: int): (r: int)
  {
    MondayOnOrBefore(DaysFromCivil(year, 1, 4))
  }

  /** The first day of week `week` of `year` as the range computation counts weeks. */
  function WeekStart(year: int, week: int): (monday: int)
  {
    Week1Monday(year) + (week - 1) * 7
  }

  /**
   * Week 1 starts on a Monday between 29 December of the year before and
   * 4 January, and holds 4 January.
   */
  lemma Week1MondayFacts(year: int)
    ensures UtcDay(Week1Monday(year)) == 1
    ensures Days(CivilDate(year - 1, 12, 29)) <= Week1Monday(year) <= Days(CivilDate(year, 1, 4))
    ensures Week1Monday(year) <= Days(CivilDate(year, 1, 4)) < Week1Monday(year) + 7
  {
    YearStep(year - 1);
  }

  lemma UtcDayPeriodic(n: int, k: int)
    ensures UtcDay(n + 7 * k) == UtcDay(n)
  {
    var q, r := (n + 4) / 7, (n + 4) % 7;
    assert n + 7 * k + 4 == 7 * (q + k) + r;
  }

  lemma SameWeekday(a: int, b: int)
    requires UtcDay(a) == UtcDay(b)
    ensures (b - a) % 7 == 0
  {
    var qa, qb := (a + 4) / 7, (b + 4) / 7;
    assert b - a == 7 * (qb - qa);
  }

  /** The days seven apart from a Monday are Mondays, and six days after a Monday is a Sunday. */
  lemma MondayWeeks(m: int, k: int)
    requires UtcDay(m) == 1
    ensures UtcDay(m + 7 * k) == 1 && UtcDay(m + 7 * k + 6) == 0
  {
    UtcDayPeriodic(m, k);
    UtcDayPeriodic(m + 6, k);
  }

  lemma Week1MondayNearYearStart(year: int)
    ensures UtcDay(Week1Monday(year)) == 1
    ensures YearStart(year) - 3 <= Week1Monday(year) <= YearStart(year) + 3
  {
  }

  /** Two Mondays between 358 and 373 days apart are 52 or 53 weeks apart. */
  lemma MondaysApart(m1: int, m2: int)
    requires UtcDay(m1) == 1 && UtcDay(m2) == 1 && 358 <= m2 - m1 <= 373
    ensures m2 - m1 == 7 * 52 || m2 - m1 == 7 * 53
  {
    SameWeekday(m1, m2);
  }

  /** Every week is seven days from Monday to Sunday, and the next one starts the day after it ends. */
  lemma WeeksAdjoin(year: int, week: int)
    ensures UtcDay(WeekStart(year, week)) == 1 && UtcDay(WeekStart(year, week) + 6) == 0
    ensures WeekStart(year, week + 1) == WeekStart(year, week) + 6 + 1
  {
    var m := Week1Monday(year);
    MondayWeeks(m, week - 1);
  }

  /** Number of weeks of `year`: from its week 1 to the next year's week 1. */
  function WeeksInYear(year: int): (weeks: int)
  {
    (Week1Monday(year + 1) - Week1Monday(year)) / 7
  }

  /**
   * A year has 52 or 53 weeks, and the week after its last one is week 1 of
   * the next year: no gap and no overlap at a year boundary.
   */
  lemma YearBoundary(year: int)
    ensures WeeksInYear(year) == 52 || WeeksInYear(year) == 53
    ensures WeekStart(year, WeeksInYear(year) + 1) == WeekStart(year + 1, 1)
  {
    var m1, m2 := Week1Monday(year), Week1Monday(year + 1);
    Week1MondayNearYearStart(year);
    Week1MondayNearYearStart(year + 1);
    YearStep(year);
    MondaysApart(m1, m2);
  }

  /** Week 1 starts on the Monday of the week of the year's fourth day. */
  lemma Week1MondayOfYear(year: int)
    ensures Week1Monday(year) == MondayOnOrBefore(YearStart(year) + 3)
  {
  }

  /** Week 1 of the next year starts exactly `WeeksInYear(year)` weeks after week 1 of `year`. */
  lemma YearWeeks(year: int)
    ensures 52 <= WeeksInYear(year) <= 53
    ensures Week1Monday(year) + 7 * WeeksInYear(year) == Week1Monday(year + 1)
  {
    YearBoundary(year);
  }

  /** A week value as the week input produces it: `YYYY-Www`. */
  predicate WellFormedWeekValue(s: string)
  {
    |s| == 8 && AllDigits(s[..4]) && s[4] == '-' && s[5] == 'W' && AllDigits(s[6..])
  }

  /** `${year}-W${String(week).padStart(2, '0')}` for a four-digit year and a week below 100. */
  function WeekValueText(year: nat, week: nat): (s: string)
    ensures WellFormedWeekValue(s)
  {
    var s := Pad(year, 4) + "-W" + Pad(week, 2);
    PadDigits(year, 4);
    PadDigits(week, 2);
    assert s[..4] == Pad(year, 4) && s[6..] == Pad(week, 2);
    s
  }

  /** `weekValue.split('-W')` and `Number` of both halves, for a well-formed week value. */
  function ParseWeekValue(s: string): (yw: (nat, nat))
    requires WellFormedWeekValue(s)
    ensures yw.0 < 10000 && yw.1 < 100
  {
    DigitsValueBound(s[..4]);
    DigitsValueBound(s[6..]);
    (DigitsValue(s[..4]), DigitsValue(s[6..]))
  }

  lemma WeekValueRoundTrip(year: nat, week: nat)
    requires year < 10000 && week < 100
    ensures ParseWeekValue(WeekValueText(year, week)) == (year, week)
  {
    var s := WeekValueText(year, week);
    assert s[..4] == Pad(year, 4) && s[6..] == Pad(week, 2);
    PadValue(year, 4);
    PadValue(week, 2);
  }

  lemma ParseWeekValueInverse(s: string)
    requires WellFormedWeekValue(s)
    ensures WeekValueText(ParseWeekValue(s).0, ParseWeekValue(s).1) == s
  {
    PadOfDigits(s[..4]);
    PadOfDigits(s[6..]);
    assert s == s[..4] + "-W" + s[6..];
  }

  /** A JavaScript `Date` at UTC midnight, as the week functions mutate it. */
  class UtcDate {
    var time: int

    constructor (t: int)
      ensures time == t
    {
      time := t;
    }

    function GetUTCFullYear(): (year: int)
      reads this
    {
      CivilFromDays(time).year
    }

    function GetUTCDate(): (day: int)
      reads this
    {
      CivilFromDays(time).day
    }

    function GetUTCDay(): (weekday: int)
      reads this
    {
      UtcDay(time)
    }

    /** `setUTCDate(d)`: day `d` of the current month, rolling over into neighbouring months. */
    method SetUTCDate(d: int)
      modifies this
      ensures time == old(time) + d - old(GetUTCDate())
    {
      var c := CivilFromDays(time);
      time := DaysFromCivil(c.year, c.month, d);
    }
  }

  /**
   * `getISOWeekStart`: the calendar day of the local date, taken at UTC
   * midnight and moved back to the Monday of its week.
   */
  method GetISOWeekStart(date: CivilDate) returns (r: UtcDate)
    requires ValidDate(date)
    ensures fresh(r)
    ensures r.time == MondayOnOrBefore(Days(date))
    ensures UtcDay(r.time) == 1 && r.time <= Days(date) < r.time + 7
  {
    r := new UtcDate(DaysFromCivil(date.year, date.month, date.day));
    var day := r.GetUTCDay();
    if day == 0 {
      day := 7;
    }
    r.SetUTCDate(r.GetUTCDate() - day + 1);
  }

  /**
   * The week value `getISOWeekValue` gives the week starting `monday`: the
   * Monday's calendar year and ceil(day-of-year / 7) of the Monday, counting
   * 1 January as day 1. This is not the ISO 8601 week number (see
   * CalendarWeekRange and IsoWeekOf).
   */
  function CalendarWeekOf(monday: int): (yw: (int, int))
    ensures 1 <= yw.1 <= 53
    ensures YearStart(yw.0) <= monday < YearStart(yw.0 + 1)
    ensures 7 * (yw.1 - 1) < monday - YearStart(yw.0) + 1 <= 7 * yw.1
  {
    var y := CivilFromDays(monday).year;
    DateInYear(CivilFromDays(monday));
    YearStep(y);
    (y, CeilSevenths(monday - YearStart(y) + 1))
  }

  /** `Math.ceil(x / 7)` for an integer `x`. */
  function CeilSevenths(x: int): (q: int)
    ensures 7 * (q - 1) < x <= 7 * q
  {
    (x + 6) / 7
  }

  /** `getISOWeekValue(date)` for a local date from 1001 to 9999. */
  method GetISOWeekValue(date: CivilDate) returns (s: string)
    requires ValidDate(date) && 1001 <= date.year <= 9999
    ensures var yw := CalendarWeekOf(MondayOnOrBefore(Days(date)));
      1000 <= yw.0 <= 9999 && s == WeekValueText(yw.0, yw.1)
  {
    var weekStart := GetISOWeekStart(date);
    MondayYear(date);
    var year := weekStart.GetUTCFullYear();
    var yearStart := DaysFromCivil(year, 1, 1);
    var week := CeilSevenths(weekStart.time - yearStart + 1);
    s := Pad(year, 4) + "-W" + Pad(week, 2);
  }

  /** The Monday of a date from 1001 to 9999 lies in a year from 1000 to 9999. */
  lemma MondayYear(date: CivilDate)
    requires ValidDate(date) && 1001 <= date.year <= 9999
    ensures var monday := MondayOnOrBefore(Days(date));
      var year := CivilFromDays(monday).year;
      1000 <= year <= 9999 && CalendarWeekOf(monday) == (year, CeilSevenths(monday - DaysFromCivil(year, 1, 1) + 1))
  {
    var monday := MondayOnOrBefore(Days(date));
    DateInYear(date);
    YearStartBounds(1000, 1);
    YearStartBounds(date.year + 1, 10000 - date.year - 1);
    YearStartBounds(1001, date.year - 1001);
    FourDigitYearOf(monday);
  }

  /** The days of week `week` of `year` all have four-digit years. */
  predicate FourDigitWeek(year: int, week: int)
  {
    FourDigitYear(WeekStart(year, week)) && FourDigitYear(WeekStart(year, week) + 6)
  }

  /**
   * The `Date` steps of `getWeekRange` for a parsed year and week: 4 January,
   * back to its Monday, forward `week - 1` weeks, and six days on.
   */
  method WeekDates(year: int, week: int) returns (startDate: UtcDate, endDate: UtcDate)
    ensures fresh(startDate) && fresh(endDate)
    ensures startDate.time == WeekStart(year, week) && endDate.time == WeekStart(year, week) + 6
  {
    var week1Monday := Week1MondayDate(year);
    startDate := new UtcDate(week1Monday.time);
    startDate.SetUTCDate(week1Monday.GetUTCDate() + (week - 1) * 7);
    endDate := new UtcDate(startDate.time);
    endDate.SetUTCDate(startDate.GetUTCDate() + 6);
  }

  /** 4 January of `year`, moved back to the Monday of its week. */
  method Week1MondayDate(year: int) returns (week1Monday: UtcDate)
    ensures fresh(week1Monday) && week1Monday.time == Week1Monday(year)
  {
    var jan4 := new UtcDate(DaysFromCivil(year, 1, 4));
    var jan4Day := jan4.GetUTCDay();
    if jan4Day == 0 {
      jan4Day := 7;
    }
    week1Monday := new UtcDate(jan4.time);
    week1Monday.SetUTCDate(jan4.GetUTCDate() - jan4Day + 1);
  }

  /** `getWeekRange(weekValue)`: the ISO texts of the Monday and the Sunday of the selected week. */
  method GetWeekRange(weekValue: string) returns (start: string, end: string)
    requires WellFormedWeekValue(weekValue)
    requires FourDigitWeek(ParseWeekValue(weekValue).0, ParseWeekValue(weekValue).1)
    ensures var (year, week) := ParseWeekValue(weekValue);
      start == FormatDateISO(WeekStart(year, week)) && end == FormatDateISO(WeekStart(year, week) + 6)
  {
    var (year, week) := ParseWeekValue(weekValue);
    var startDate, endDate := WeekDates(year, week);
    start := FormatDateISO(startDate.time);
    end := FormatDateISO(endDate.time);
  }

  /** The ISO text of a valid date with a four-digit year spells out its year, month and day. */
  lemma FormatDateISOOf(y: int, m: int, d: int, n: int)
    requires ValidDate(CivilDate(y, m, d)) && 1000 <= y <= 9999 && n == DaysFromCivil(y, m, d)
    ensures FourDigitYear(n)
    ensures FormatDateISO(n) == IsoText(CivilDate(y, m, d))
  {
    var c := CivilDate(y, m, d);
    DateInYear(c);
    YearStep(c.year);
    YearStartBounds(1000, c.year - 1000);
    YearStartBounds(c.year + 1, 9999 - c.year);
    CivilRoundTrip(c);
    assert CivilFromDays(n) == c;
  }

  lemma Week1Monday2024()
    ensures Week1Monday(2024) == 19723
  {
    assert YearStart(2024) == 19723;
    assert DaysFromCivil(2024, 1, 4) == 19726;
    assert IsoDay(19726) == 4;
  }

  lemma Week1Monday2023()
    ensures Week1Monday(2023) == 19359
  {
    assert YearStart(2023) == 19358;
    assert DaysFromCivil(2023, 1, 4) == 19361;
    assert IsoDay(19361) == 3;
  }

  lemma Jan2024Days()
    ensures DaysFromCivil(2024, 1, 1) == 19723 && DaysFromCivil(2024, 1, 7) == 19729
  {
    assert YearStart(2024) == 19723;
  }

  lemma Dec2023Days()
    ensures DaysFromCivil(2023, 12, 31) == 19722
  {
    assert YearStart(2023) == 19358;
    assert MonthStart(2023, 12) == 334;
  }

  lemma PadExamples()
    ensures Pad(2024, 4) == "2024" && Pad(2023, 4) == "2023"
    ensures Pad(1, 2) == "01" && Pad(7, 2) == "07" && Pad(12, 2) == "12" && Pad(31, 2) == "31"
  {
    assert Pad(2, 1) == "2" && Pad(20, 2) == "20" && Pad(202, 3) == "202";
    assert Pad(0, 1) == "0" && Pad(1, 1) == "1" && Pad(3, 1) == "3";
  }

  lemma BoundaryDateTexts()
    ensures IsoText(CivilDate(2024, 1, 1)) == "2024-01-01"
    ensures IsoText(CivilDate(2024, 1, 7)) == "2024-01-07"
    ensures IsoText(CivilDate(2023, 12, 31)) == "2023-12-31"
  {
    PadExamples();
  }

  /** Week 2024-W01 runs from 2024-01-01 to 2024-01-07. */
  lemma Week2024W01(start: int, end: int)
    requires start == WeekStart(2024, 1) && end == start + 6
    ensures FourDigitYear(start) && FourDigitYear(end)
    ensures FormatDateISO(start) == "2024-01-01" && FormatDateISO(end) == "2024-01-07"
  {
    Week1Monday2024();
    Jan2024Texts(start, end);
  }

  lemma Jan2024Texts(first: int, seventh: int)
    requires first == 19723 && seventh == 19729
    ensures FourDigitYear(first) && FourDigitYear(seventh)
    ensures FormatDateISO(first) == "2024-01-01" && FormatDateISO(seventh) == "2024-01-07"
  {
    Jan1Text(first);
    Jan7Text(seventh);
  }

  lemma Jan1Text(first: int)
    requires first == 19723
    ensures FourDigitYear(first) && FormatDateISO(first) == "2024-01-01"
  {
    Jan2024Days();
    FormatDateISOOf(2024, 1, 1, first);
    BoundaryDateTexts();
  }

  lemma Jan7Text(seventh: int)
    requires seventh == 19729
    ensures FourDigitYear(seventh) && FormatDateISO(seventh) == "2024-01-07"
  {
    Jan2024Days();
    FormatDateISOOf(2024, 1, 7, seventh);
    BoundaryDateTexts();
  }

  /** Week 2023-W52 ends on 2023-12-31, and 2024-W01 starts the next day. */
  lemma Week2023W52(end: int)
    requires end == WeekStart(2023, 52) + 6
    ensures FourDigitYear(end) && FormatDateISO(end) == "2023-12-31"
    ensures WeekStart(2024, 1) == end + 1
  {
    Week1Monday2023();
    Week1Monday2024();
    Dec2023Text(end);
  }

  lemma Dec2023Text(last: int)
    requires last == 19722
    ensures FourDigitYear(last) && FormatDateISO(last) == "2023-12-31"
  {
    Dec2023Days();
    FormatDateISOOf(2023, 12, 31, last);
    BoundaryDateTexts();
  }
}
