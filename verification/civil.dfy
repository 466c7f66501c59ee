/**
 The proleptic Gregorian calendar on integer day numbers, with day 0 the
 first of January 1970 (a Thursday). Months are numbered 0..11, as the
 JavaScript `Date` getters number them. A single zero-offset time zone is
 assumed throughout, so a date's local and UTC calendar fields coincide.
 */
module Civil {

  datatype CivilDate = CivilDate(year: int, month: int, day: int)

  predicate IsLeap(y: int)
  {
    y % 4 == 0 && (y % 100 != 0 || y % 400 == 0)
  }

  function YearLength(y: int): int
  {
    if IsLeap(y) then 366 else 365
  }

  function DaysInMonth(y: int, m: int): int
    requires 0 <= m < 12
  {
    if m == 1 then (if IsLeap(y) then 29 else 28)
    else if m == 3 || m == 5 || m == 8 || m == 10 then 30
    else 31
  }

  predicate Valid(c: CivilDate)
  {
    0 <= c.month < 12 && 1 <= c.day <= DaysInMonth(c.year, c.month)
  }

  /** Number of leap years in 1..n (counted with floor division, so it also works for n <= 0). */
  function LeapsThrough(n: int): int
  {
    n / 4 - n / 100 + n / 400
  }

  /** Day number of the first of January of year `y`. */
  function DaysBeforeYear(y: int): int
  {
    365 * (y - 1970) + LeapsThrough(y - 1) - LeapsThrough(1969)
  }

  /** Days in year `y` before the first of month `m` (0..12). */
  function DaysBeforeMonth(y: int, m: int): int
    requires 0 <= m <= 12
  {
    [0, 31, 59, 90, 120, 151, 181, 212, 243, 273, 304, 334, 365][m]
      + (if IsLeap(y) && m >= 2 then 1 else 0)
  }

  lemma DivStep(y: int, k: int)
    requires k == 4 || k == 100 || k == 400
    ensures y / k - (y - 1) / k == if y % k == 0 then 1 else 0
  {
    var q, r := (y - 1) / k, (y - 1) % k;
    assert y == q * k + r + 1;
    if r + 1 == k {
      assert y == (q + 1) * k;
    } else {
      assert y == q * k + (r + 1) && 0 <= r + 1 < k;
    }
  }

  /** A multiple of 400 is a multiple of 100, and a multiple of 100 is a multiple of 4. */
  lemma Multiples(y: int)
    ensures y % 400 == 0 ==> y % 100 == 0
    ensures y % 100 == 0 ==> y % 4 == 0
  {
    if y % 400 == 0 {
      var t := 4 * (y / 400);
      assert y == 100 * t + 0;
    }
    if y % 100 == 0 {
      var t := 25 * (y / 100);
      assert y == 4 * t + 0;
    }
  }

  /** Year `y` adds one to the leap-year count exactly when it is a leap year. */
  lemma LeapsStep(y: int)
    ensures LeapsThrough(y) == LeapsThrough(y - 1) + if IsLeap(y) then 1 else 0
  {
    DivStep(y, 4);
    DivStep(y, 100);
    DivStep(y, 400);
    Multiples(y);
  }

  /** One year further on, the day number grows by exactly that year's length. */
  lemma YearStep(y: int)
    ensures DaysBeforeYear(y + 1) == DaysBeforeYear(y) + YearLength(y)
  {
    LeapsStep(y);
  }

  lemma MonthStep(y: int, m: int)
    requires 0 <= m < 12
    ensures DaysBeforeMonth(y, m + 1) == DaysBeforeMonth(y, m) + DaysInMonth(y, m)
  {
  }

  lemma {:induction false} YearsIncrease(a: int, b: int)
    requires a <= b
    ensures DaysBeforeYear(a) <= DaysBeforeYear(b)
    ensures a < b ==> DaysBeforeYear(a + 1) <= DaysBeforeYear(b)
    decreases b - a
  {
    if a < b {
      YearStep(a);
      YearsIncrease(a + 1, b);
    }
  }

  /** The year holding day `d`, searched upwards from year `y`. */
  function YearFrom(d: int, y: int): (r: int)
    requires DaysBeforeYear(y) <= d
    ensures DaysBeforeYear(r) <= d < DaysBeforeYear(r + 1)
    decreases d - DaysBeforeYear(y)
  {
    YearStep(y);
    if d < DaysBeforeYear(y + 1) then y else YearFrom(d, y + 1)
  }

  /** The year holding day `d`, searched downwards from year `y`. */
  function YearUntil(d: int, y: int): (r: int)
    requires d < DaysBeforeYear(y + 1)
    ensures DaysBeforeYear(r) <= d < DaysBeforeYear(r + 1)
    decreases DaysBeforeYear(y + 1) - d
  {
    YearStep(y);
    if DaysBeforeYear(y) <= d then y else YearUntil(d, y - 1)
  }

  /** The calendar year that day `d` falls in. */
  function YearOf(d: int): (r: int)
    ensures DaysBeforeYear(r) <= d < DaysBeforeYear(r + 1)
  {
    if d >= 0 then YearFrom(d, 1970) else YearUntil(d, 1969)
  }

  /** The month (0..11) of year `y` holding day-of-year `doy`, searched from month `m`. */
  function MonthFrom(y: int, doy: int, m: int): (r: int)
    requires 0 <= m < 12
    requires DaysBeforeMonth(y, m) <= doy < YearLength(y)
    ensures m <= r < 12
    ensures DaysBeforeMonth(y, r) <= doy < DaysBeforeMonth(y, r + 1)
    decreases 12 - m
  {
    if doy < DaysBeforeMonth(y, m + 1) then m else MonthFrom(y, doy, m + 1)
  }

  /** Calendar date of day number `d`; converting it back gives `d` again. */
  function CivilOf(d: int): (c: CivilDate)
    ensures Valid(c) && DayNumber(c) == d
    ensures DaysBeforeYear(c.year) <= d < DaysBeforeYear(c.year + 1)
  {
    var y := YearOf(d);
    YearStep(y);
    var doy := d - DaysBeforeYear(y);
    var m := MonthFrom(y, doy, 0);
    MonthStep(y, m);
    CivilDate(y, m, doy - DaysBeforeMonth(y, m) + 1)
  }

  /** Day number of a valid calendar date. */
  function DayNumber(c: CivilDate): int
    requires Valid(c)
  {
    DaysBeforeYear(c.year) + DaysBeforeMonth(c.year, c.month) + c.day - 1
  }

  /** Any year whose span holds day `d` is the year `YearOf` finds. */
  lemma {:induction false} YearUnique(d: int, y: int)
    requires DaysBeforeYear(y) <= d < DaysBeforeYear(y + 1)
    ensures YearOf(d) == y
  {
    var r := YearOf(d);
    if r < y {
      YearsIncrease(r, y);
      assert false;
    } else if y < r {
      YearsIncrease(y, r);
      assert false;
    }
  }

  lemma {:induction false} MonthsIncrease(y: int, a: int, b: int)
    requires 0 <= a <= b <= 12
    ensures DaysBeforeMonth(y, a) <= DaysBeforeMonth(y, b)
  {
  }

  lemma MonthUnique(y: int, doy: int, m: int)
    requires 0 <= m < 12
    requires DaysBeforeMonth(y, m) <= doy < DaysBeforeMonth(y, m + 1)
    ensures MonthFrom(y, doy, 0) == m
  {
    var r := MonthFrom(y, doy, 0);
    if r < m {
      MonthsIncrease(y, r + 1, m);
    } else if m < r {
      MonthsIncrease(y, m + 1, r);
    }
  }

  /** Converting a valid calendar date to a day number and back gives the date again. */
  lemma {:induction false} CivilOfDayNumber(c: CivilDate)
    requires Valid(c)
    ensures CivilOf(DayNumber(c)) == c
  {
    var d := DayNumber(c);
    YearStep(c.year);
    MonthStep(c.year, c.month);
    MonthsIncrease(c.year, c.month + 1, 12);
    YearUnique(d, c.year);
    MonthUnique(c.year, d - DaysBeforeYear(c.year), c.month);
  }

  /** The Unix epoch is the first of January 1970. */
  lemma EpochIsNewYear1970()
    ensures CivilOf(0) == CivilDate(1970, 0, 1)
  {
    var c := CivilDate(1970, 0, 1);
    assert DaysBeforeYear(1970) == 0;
    assert DayNumber(c) == 0;
    CivilOfDayNumber(c);
  }
}
