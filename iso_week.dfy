/**
 * How the default week value of the statistics page relates to the week its
 * range computation selects, and the ISO 8601 week that was evidently meant.
 * The default value counts weeks from 1 January of the Monday's year, while
 * the range counts them from the Monday of the week holding 4 January; in a
 * year that starts on a Tuesday, Wednesday or Thursday the two disagree by
 * one week, so the default week does not contain the current day.
 */
module IsoWeek {
  import opened Civil
  import opened Text
  import opened Week

  /** The Monday of any day of the week that a Monday starts is that Monday. */
  lemma MondayOfItsWeek(m: int, k: int)
    requires UtcDay(m) == 1 && 0 <= k < 7
    ensures MondayOnOrBefore(m + k) == m
  {
    var r := MondayOnOrBefore(m + k);
    SameWeekday(m, r);
  }

  lemma UtcDayShift(n: int, k: int)
    requires 0 <= k < 7
    ensures UtcDay(n + k) == (UtcDay(n) + k) % 7
  {
    var q := (n + 4) / 7;
    assert n + k + 4 == 7 * q + UtcDay(n) + k;
  }

  /**
   * Counting from a year's first day `j`, the week `w` that holds Monday
   * `monday`: week 1 starting on the Monday of the week of `j + 3` lands on
   * `monday` itself when `j` falls on Friday to Monday, and a week earlier
   * when it falls on Tuesday to Thursday.
   */
  lemma CalendarWeekShift(monday: int, j: int, w: int)
    requires UtcDay(monday) == 1 && 7 * (w - 1) <= monday - j < 7 * w
    ensures MondayOnOrBefore(j + 3) + 7 * (w - 1) == if 2 <= UtcDay(j) <= 4 then monday - 7 else monday
  {
    var r := monday - j - 7 * (w - 1);
    var first := j + r;
    UtcDayPeriodic(first, w - 1);
    assert UtcDay(first) == 1;
    UtcDayShift(j, r);
    if r <= 3 {
      assert !(2 <= UtcDay(j) <= 4);
      MondayOfItsWeek(first, 3 - r);
    } else {
      assert 2 <= UtcDay(j) <= 4;
      MondayWeeks(first, -1);
      MondayOfItsWeek(first - 7, 10 - r);
    }
  }

  /**
   * The week `getWeekRange` selects for the value `getISOWeekValue` gives a
   * Monday: the Monday's own week exactly when 1 January of its year is a
   * Friday, Saturday, Sunday or Monday, and the week before it otherwise.
   */
  lemma CalendarWeekRange(monday: int)
    requires UtcDay(monday) == 1
    ensures var (y, w) := CalendarWeekOf(monday);
      WeekStart(y, w) == if 2 <= UtcDay(YearStart(y)) <= 4 then monday - 7 else monday
  {
    var (y, w) := CalendarWeekOf(monday);
    CalendarWeekShift(monday, YearStart(y), w);
  }

  /** 2 June 2025 is a Monday, the first day of its own week. */
  lemma June2025Facts(day: int)
    requires day == DaysFromCivil(2025, 6, 2)
    ensures day == 20241 && UtcDay(day) == 1 && MondayOnOrBefore(day) == day
    ensures YearStart(2025) == 20089 && UtcDay(20089) == 3
  {
    assert YearStart(2025) == 20089;
    assert MonthStart(2025, 6) == 151;
  }

  /**
   * On Monday 2 June 2025 the page selects "2025-W22" by default, and the
   * range of "2025-W22" is the week from 26 May to 1 June 2025, which ends
   * the day before.
   */
  lemma CalendarWeekCounterexample(day: int)
    requires day == DaysFromCivil(2025, 6, 2)
    ensures CalendarWeekOf(MondayOnOrBefore(day)) == (2025, 22)
    ensures WeekValueText(2025, 22) == "2025-W22"
    ensures WeekStart(2025, 22) == day - 7 && WeekStart(2025, 22) + 6 < day
  {
    June2025Facts(day);
    CivilRoundTrip(CivilDate(2025, 6, 2));
    CalendarWeekRange(day);
    assert Pad(2025, 4) == "2025" by {
      assert Pad(2, 1) == "2" && Pad(20, 2) == "20" && Pad(202, 3) == "202";
    }
    assert Pad(22, 2) == "22" by {
      assert Pad(2, 1) == "2";
    }
  }

  /**
   * The ISO 8601 week of day `n`: the week-numbering year is the year of the
   * Thursday of `n`'s week, and the week number counts that Thursday's weeks
   * from the start of its year.
   */
  function IsoWeekOf(n: int): (yw: (int, int))
  {
    var thursday := MondayOnOrBefore(n) + 3;
    var y := CivilFromDays(thursday).year;
    (y, ThursdayNumber(thursday, YearStart(y)))
  }

  /** 1 for the Thursdays of the first seven days from `yearStart`, 2 for the next seven, and so on. */
  function ThursdayNumber(thursday: int, yearStart: int): (week: int)
  {
    (thursday - yearStart) / 7 + 1
  }

  /**
   * For a Monday `m` whose Thursday lies in the year from `j` to `jn`, week 1
   * of that year starts a whole number of weeks before `m`, and week 1 of the
   * next year starts after `m`'s week.
   */
  lemma ThursdayWeek(m: int, j: int, jn: int)
    requires UtcDay(m) == 1 && j <= m + 3 < jn
    ensures MondayOnOrBefore(j + 3) == m - 7 * (ThursdayNumber(m + 3, j) - 1)
    ensures m + 7 <= MondayOnOrBefore(jn + 3)
  {
    var q := (m + 3 - j) / 7;
    var s := (m + 3 - j) % 7;
    MondayWeeks(m, -q);
    MondayOfItsWeek(m - 7 * q, 6 - s);
    SameWeekday(m, MondayOnOrBefore(jn + 3));
  }

  /**
   * The range of the ISO week of a day starts on that day's Monday, so it
   * holds the day; and the week number is one the year has.
   */
  lemma IsoWeekRoundTrip(n: int)
    ensures var (y, w) := IsoWeekOf(n);
      1 <= w <= WeeksInYear(y) && WeekStart(y, w) == MondayOnOrBefore(n) &&
      WeekStart(y, w) <= n <= WeekStart(y, w) + 6
  {
    var m := MondayOnOrBefore(n);
    var c := CivilFromDays(m + 3);
    var y := c.year;
    var j, jn := YearStart(y), YearStart(y + 1);
    DateInYear(c);
    assert j <= m + 3 < jn;
    var w := ThursdayNumber(m + 3, j);
    assert IsoWeekOf(n) == (y, w);
    Week1MondayOfYear(y);
    Week1MondayOfYear(y + 1);
    ThursdayWeek(m, j, jn);
    assert Week1Monday(y) == m - 7 * (w - 1);
    YearWeeks(y);
    assert WeekStart(y, w) == m;
  }

  /** Week 1 of a year never starts before week 1 of an earlier year. */
  lemma {:induction false} Week1MondayMonotone(y1: int, y2: int)
    requires y1 <= y2
    ensures Week1Monday(y1) <= Week1Monday(y2)
    decreases y2 - y1
  {
    if y1 < y2 {
      YearWeeks(y1);
      Week1MondayMonotone(y1 + 1, y2);
    }
  }

  /** The weeks of year `y` start from its week 1 up to, not including, week 1 of the next year. */
  lemma WeekOfYearBounds(y: int, w: int)
    requires 1 <= w <= WeeksInYear(y)
    ensures Week1Monday(y) <= WeekStart(y, w) < Week1Monday(y + 1)
  {
    YearWeeks(y);
  }

  /** At most one year has its weeks span the Monday `m`. */
  lemma WeekYearUnique(y1: int, y2: int, m: int)
    requires Week1Monday(y1) <= m < Week1Monday(y1 + 1)
    requires Week1Monday(y2) <= m < Week1Monday(y2 + 1)
    ensures y1 == y2
  {
    if y1 < y2 {
      Week1MondayAfter(y1, y2, m);
    } else if y2 < y1 {
      Week1MondayAfter(y2, y1, m);
    }
  }

  /** A Monday before week 1 of the year after `y1` is before week 1 of any later year. */
  lemma Week1MondayAfter(y1: int, y2: int, m: int)
    requires y1 < y2 && m < Week1Monday(y1 + 1)
    ensures m < Week1Monday(y2)
  {
    Week1MondayMonotone(y1 + 1, y2);
  }

  /** Different week values, among the weeks each year has, start on different Mondays. */
  lemma WeekStartInjective(y1: int, w1: int, y2: int, w2: int)
    requires 1 <= w1 <= WeeksInYear(y1) && 1 <= w2 <= WeeksInYear(y2)
    requires WeekStart(y1, w1) == WeekStart(y2, w2)
    ensures y1 == y2 && w1 == w2
  {
    WeekOfYearBounds(y1, w1);
    WeekOfYearBounds(y2, w2);
    WeekYearUnique(y1, y2, WeekStart(y1, w1));
  }

  /**
   * The ISO week is the only week value, among the weeks each year has,
   * whose range holds day `n`.
   */
  lemma IsoWeekUnique(n: int, y: int, w: int)
    requires 1 <= w <= WeeksInYear(y)
    requires WeekStart(y, w) <= n <= WeekStart(y, w) + 6
    ensures (y, w) == IsoWeekOf(n)
  {
    var yw := IsoWeekOf(n);
    IsoWeekRoundTrip(n);
    var m := WeekStart(y, w);
    WeeksAdjoin(y, w);
    MondayOfItsWeek(m, n - m);
    WeekStartInjective(y, w, yw.0, yw.1);
  }

  /** ISO week numbers run from 1 to 53. */
  lemma IsoWeekNumberBounds(n: int)
    ensures 1 <= IsoWeekOf(n).1 <= 53
  {
    IsoWeekRoundTrip(n);
    YearWeeks(IsoWeekOf(n).0);
  }

  /**
   * `getISOWeekValue` as evidently intended: the ISO week of the local date,
   * for dates whose week-numbering year has four digits.
   */
  method GetIsoWeekValueCorrected(date: CivilDate) returns (s: string)
    requires ValidDate(date)
    requires 1000 <= IsoWeekOf(Days(date)).0 <= 9999
    ensures WellFormedWeekValue(s) && ParseWeekValue(s) == IsoWeekOf(Days(date))
    ensures var (y, w) := ParseWeekValue(s); WeekStart(y, w) <= Days(date) <= WeekStart(y, w) + 6
  {
    var weekStart := GetISOWeekStart(date);
    MondayOfItsWeek(weekStart.time, 0);
    assert IsoWeekOf(weekStart.time) == IsoWeekOf(Days(date));
    var (year, week) := IsoWeekOf(weekStart.time);
    IsoWeekNumberBounds(Days(date));
    IsoWeekRoundTrip(Days(date));
    s := Pad(year, 4) + "-W" + Pad(week, 2);
    WeekValueRoundTrip(year, week);
  }
}
