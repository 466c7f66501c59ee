/**
 The week range resolver of `src/utils/dateUtils.ts`: every day belongs to
 exactly one Sunday-to-Saturday week. Dates are day numbers (see module
 Civil); the time-of-day the source sets on the range ends is dropped, since
 only the formatted calendar dates of the ends are ever used.
 */
module DateUtils {
  import opened Types
  import opened IsoDate

  /** `Date.getDay()`: 0 is Sunday, 6 is Saturday; day 0 (1970-01-01) is a Thursday. */
  function Weekday(d: int): (w: int)
    ensures 0 <= w < 7
  {
    (d + 4) % 7
  }

  datatype WeekRange = WeekRange(start: int, end: int)

  /** `getWeekRange`: the Sunday-to-Saturday week that contains day `d`. */
  function GetWeekRange(d: int): (r: WeekRange)
    ensures Weekday(r.start) == 0 && Weekday(r.end) == 6
    ensures r.end == r.start + 6
    ensures r.start <= d <= r.end
  {
    var start := d - Weekday(d);
    WeekRange(start, start + 6)
  }

  /** The range is the only Sunday-started seven-day span holding `d`. */
  lemma WeekRangeUnique(d: int, s: int)
    requires Weekday(s) == 0 && s <= d <= s + 6
    ensures GetWeekRange(d) == WeekRange(s, s + 6)
  {
    var r := GetWeekRange(d);
    assert (r.start - s) % 7 == 0;
  }

  /** Two days get the same range exactly when each lies inside the other's range. */
  lemma SameWeekIff(a: int, b: int)
    ensures GetWeekRange(a) == GetWeekRange(b) <==> GetWeekRange(a).start <= b <= GetWeekRange(a).end
  {
    var ra := GetWeekRange(a);
    if ra.start <= b <= ra.end {
      WeekRangeUnique(b, ra.start);
    }
  }

  /** Resolving the start of a range again gives the same range. */
  lemma WeekRangeIdempotent(d: int)
    ensures GetWeekRange(GetWeekRange(d).start) == GetWeekRange(d)
    ensures GetWeekRange(GetWeekRange(d).end) == GetWeekRange(d)
  {
    var r := GetWeekRange(d);
    WeekRangeUnique(r.start, r.start);
    WeekRangeUnique(r.end, r.start);
  }

  /** Moving the date by whole weeks moves the range by the same number of days. */
  lemma WeekRangeShift(d: int, k: int)
    ensures GetWeekRange(d + 7 * k).start == GetWeekRange(d).start + 7 * k
    ensures GetWeekRange(d + 7 * k).end == GetWeekRange(d).end + 7 * k
  {
    var r := GetWeekRange(d);
    assert Weekday(r.start + 7 * k) == 0;
    WeekRangeUnique(d + 7 * k, r.start + 7 * k);
  }

  /** The `YYYY-MM-DD` strings of the range holding `d`, as stored on a week bucket. */
  function WeekStartText(d: int): string
  {
    FormatDate(GetWeekRange(d).start)
  }

  function WeekEndText(d: int): string
  {
    FormatDate(GetWeekRange(d).end)
  }

  /** Within the `Date` range, the stored strings read back as the Sunday and the Saturday of the week holding `d`. */
  lemma WeekTextsReadBack(d: int)
    requires InDateRange(GetWeekRange(d).start) && InDateRange(GetWeekRange(d).end)
    ensures ParseDay(WeekStartText(d)) == Some(GetWeekRange(d).start)
    ensures ParseDay(WeekEndText(d)) == Some(GetWeekRange(d).end)
  {
    ParseFormatDate(GetWeekRange(d).start);
    ParseFormatDate(GetWeekRange(d).end);
  }

  /** Days in one week get the same stored strings; within the `Date` range, days in different weeks get different ones. */
  lemma WeekTextsIff(a: int, b: int)
    requires InDateRange(GetWeekRange(a).start) && InDateRange(GetWeekRange(b).start)
    ensures WeekStartText(a) == WeekStartText(b) <==> GetWeekRange(a) == GetWeekRange(b)
  {
    if WeekStartText(a) == WeekStartText(b) {
      FormatDateInjective(GetWeekRange(a).start, GetWeekRange(b).start);
    }
  }

  /**
   `getWeekLabel`: the display text of the start, " - ", and the display text
   of the end; the locale-dependent rendering is the parameter `display`.
   */
  function WeekLabel(display: string -> string, startDate: string, endDate: string): (r: string)
    ensures |r| == |display(startDate)| + 3 + |display(endDate)|
    ensures r[..|display(startDate)|] == display(startDate)
    ensures r[|display(startDate)|..|display(startDate)| + 3] == " - "
    ensures r[|r| - |display(endDate)|..] == display(endDate)
  {
    display(startDate) + " - " + display(endDate)
  }
}
