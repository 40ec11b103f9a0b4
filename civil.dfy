/**
 * Proleptic Gregorian calendar dates as integer day numbers, the way a
 * JavaScript `Date` at UTC midnight stands for a day: day 0 is 1970-01-01.
 * `DaysFromCivil` plays `Date.UTC(y, m - 1, d)` (months here count from 1,
 * and a day of the month outside the month rolls over as in `Date.UTC`);
 * `CivilFromDays` plays the `getUTCFullYear`/`getUTCMonth`/`getUTCDate`
 * read-back; `UtcDay` plays `getUTCDay` (0 is Sunday).
 */
module Civil {

  datatype CivilDate = CivilDate(year: int, month: int, day: int)

  predicate IsLeap(y: int)
  {
    y % 4 == 0 && (y % 100 != 0 || y % 400 == 0)
  }

  function DaysInYear(y: int): (days: int)
  {
    if IsLeap(y) then 366 else 365
  }

  function DaysInMonth(y: int, m: int): (days: int)
    requires 1 <= m <= 12
  {
    if m == 2 then (if IsLeap(y) then 29 else 28)
    else if m == 4 || m == 6 || m == 9 || m == 11 then 30
    else 31
  }

  predicate ValidDate(c: CivilDate)
  {
    1 <= c.month <= 12 && 1 <= c.day <= DaysInMonth(c.year, c.month)
  }

  /** The day number of 1 January of year `y`. */
  function YearStart(y: int): (day: int)
  {
    var p := y - 1;
    365 * p + p / 4 - p / 100 + p / 400 - 719162
  }

  /** Days of year `y` before the first of month `m`. */
  function MonthStart(y: int, m: int): (day: int)
    requires 1 <= m <= 12
  {
    var before :=
      if m == 1 then 0 else if m == 2 then 31 else if m == 3 then 59
      else if m == 4 then 90 else if m == 5 then 120 else if m == 6 then 151
      else if m == 7 then 181 else if m == 8 then 212 else if m == 9 then 243
      else if m == 10 then 273 else if m == 11 then 304 else 334;
    before + (if m > 2 && IsLeap(y) then 1 else 0)
  }

  /** The day number of day `d` of month `m` of year `y`; `d` may lie outside the month. */
  function DaysFromCivil(y: int, m: int, d: int): (day: int)
    requires 1 <= m <= 12
  {
    YearStart(y) + MonthStart(y, m) + d - 1
  }

  /** Day of the week, 0 = Sunday .. 6 = Saturday; 1970-01-01 was a Thursday. */
  function UtcDay(n: int): (w: int)
    ensures 0 <= w < 7
  {
    (n + 4) % 7
  }

  lemma DivStep4(x: int)
    ensures (x + 1) / 4 == x / 4 + (if (x + 1) % 4 == 0 then 1 else 0)
  {
  }

  lemma DivStep100(x: int)
    ensures (x + 1) / 100 == x / 100 + (if (x + 1) % 100 == 0 then 1 else 0)
  {
  }

  lemma DivStep400(x: int)
    ensures (x + 1) / 400 == x / 400 + (if (x + 1) % 400 == 0 then 1 else 0)
  {
  }

  lemma Multiple400(y: int)
    requires y % 400 == 0
    ensures y % 100 == 0
  {
  }

  lemma Multiple100(y: int)
    requires y % 100 == 0
    ensures y % 4 == 0
  {
  }

  /** Year `y` is `DaysInYear(y)` days long. */
  lemma YearStep(y: int)
    ensures YearStart(y + 1) == YearStart(y) + DaysInYear(y)
  {
    var p := y - 1;
    DivStep4(p);
    DivStep100(p);
    DivStep400(p);
    if y % 400 == 0 {
      Multiple400(y);
    }
    if y % 100 == 0 {
      Multiple100(y);
    }
    var leap4 := if y % 4 == 0 then 1 else 0;
    var leap100 := if y % 100 == 0 then 1 else 0;
    var leap400 := if y % 400 == 0 then 1 else 0;
    assert YearStart(y + 1) - YearStart(y) == 365 + leap4 - leap100 + leap400;
  }

  lemma MonthStep(y: int, m: int)
    requires 1 <= m <= 12
    ensures m < 12 ==> MonthStart(y, m + 1) == MonthStart(y, m) + DaysInMonth(y, m)
    ensures m == 12 ==> MonthStart(y, m) + DaysInMonth(y, m) == DaysInYear(y)
  {
  }

  lemma {:induction false} YearStartBounds(y: int, k: nat)
    ensures YearStart(y) + 365 * k <= YearStart(y + k) <= YearStart(y) + 366 * k
  {
    if k > 0 {
      YearStartBounds(y, k - 1);
      YearStep(y + k - 1);
    }
  }

  /** A year whose 1 January is not after day `n`. */
  function YearLowerBound(n: int): (y: int)
    ensures YearStart(y) <= n
  {
    if n >= 0 then
      YearStartBounds(1970, n / 366);
      1970 + n / 366
    else
      var k := (-n) / 365 + 1;
      YearStartBounds(1970 - k, k);
      1970 - k
  }

  /** Walks forward from year `y` to the year that contains day `n`. */
  function FindYear(y: int, n: int): (r: int)
    requires YearStart(y) <= n
    ensures YearStart(r) <= n < YearStart(r + 1)
    decreases n - YearStart(y)
  {
    YearStep(y);
    if n < YearStart(y + 1) then y else FindYear(y + 1, n)
  }

  /** Walks back from month `m` to the month that contains day-of-year `doy` (counted from 0). */
  function FindMonth(y: int, doy: int, m: int): (r: int)
    requires 1 <= m <= 12 && 0 <= doy < MonthStart(y, m) + DaysInMonth(y, m)
    ensures 1 <= r <= m && MonthStart(y, r) <= doy < MonthStart(y, r) + DaysInMonth(y, r)
    decreases m
  {
    if m == 1 || MonthStart(y, m) <= doy then m
    else
      MonthStep(y, m - 1);
      FindMonth(y, doy, m - 1)
  }

  /** The calendar date of day `n`, found by walking to its year and then to its month. */
  function ComputeCivil(n: int): (c: CivilDate)
    ensures IsDateOf(c, n)
  {
    var y := FindYear(YearLowerBound(n), n);
    YearStep(y);
    MonthStep(y, 12);
    var doy := n - YearStart(y);
    var m := FindMonth(y, doy, 12);
    CivilDate(y, m, doy - MonthStart(y, m) + 1)
  }

  /** `c` is a real calendar date and day `n` is that date. */
  predicate IsDateOf(c: CivilDate, n: int)
  {
    ValidDate(c) && Days(c) == n
  }

  /**
   * The calendar date of day `n`: the one valid date whose day number is
   * `n` (it exists by ComputeCivil and is unique by DaysOrder).
   */
  function CivilFromDays(n: int): (c: CivilDate)
    ensures ValidDate(c) && DaysFromCivil(c.year, c.month, c.day) == n
  {
    var computed := ComputeCivil(n);
    forall a: CivilDate, b: CivilDate | IsDateOf(a, n) && IsDateOf(b, n)
      ensures a == b
    {
      DaysOrder(a, b);
    }
    var c :| IsDateOf(c, n);
    c
  }

  function Days(c: CivilDate): (day: int)
    requires 1 <= c.month <= 12
  {
    DaysFromCivil(c.year, c.month, c.day)
  }

  lemma MonthsInOrder(y: int, m1: int, m2: int)
    requires 1 <= m1 < m2 <= 12
    ensures MonthStart(y, m1) + DaysInMonth(y, m1) <= MonthStart(y, m2)
    ensures MonthStart(y, m2) + DaysInMonth(y, m2) <= DaysInYear(y)
  {
  }

  /** A valid date lies inside its own year. */
  lemma DateInYear(c: CivilDate)
    requires ValidDate(c)
    ensures YearStart(c.year) <= Days(c) < YearStart(c.year + 1)
  {
    YearStep(c.year);
    if c.month < 12 {
      MonthsInOrder(c.year, c.month, 12);
    }
  }

  /** Converting a valid date to its day number and back gives the date again. */
  lemma CivilRoundTrip(c: CivilDate)
    requires ValidDate(c)
    ensures CivilFromDays(Days(c)) == c
  {
    DaysOrder(CivilFromDays(Days(c)), c);
  }

  /** Chronological order of calendar dates: year, then month, then day. */
  predicate CivilLt(a: CivilDate, b: CivilDate)
  {
    a.year < b.year || (a.year == b.year && (a.month < b.month || (a.month == b.month && a.day < b.day)))
  }

  lemma CivilLtDays(a: CivilDate, b: CivilDate)
    requires ValidDate(a) && ValidDate(b) && CivilLt(a, b)
    ensures Days(a) < Days(b)
  {
    if a.year < b.year {
      DateInYear(a);
      DateInYear(b);
      YearStartBounds(a.year + 1, b.year - a.year - 1);
    } else if a.month < b.month {
      MonthsInOrder(a.year, a.month, b.month);
    }
  }

  /** Day numbers are ordered exactly as the dates they stand for. */
  lemma DaysOrder(a: CivilDate, b: CivilDate)
    requires ValidDate(a) && ValidDate(b)
    ensures Days(a) < Days(b) <==> CivilLt(a, b)
    ensures Days(a) == Days(b) <==> a == b
  {
    if CivilLt(a, b) {
      CivilLtDays(a, b);
    } else if CivilLt(b, a) {
      CivilLtDays(b, a);
    }
  }
}
