/**
 The period navigation of `src/pages/Reports.tsx`: the selected month
 (0..11, as `getMonth` numbers it) and year move by one month or one year.
 */
module Reports {

  datatype Period = Period(year: int, month: int)

  predicate ValidPeriod(p: Period)
  {
    0 <= p.month < 12
  }

  /** The number of months since January of year 0: consecutive months get consecutive numbers. */
  function MonthIndex(p: Period): int
  {
    12 * p.year + p.month
  }

  /** `handlePrevMonth`: one month back, from January to December of the year before. */
  function PrevMonth(p: Period): (r: Period)
    ensures ValidPeriod(p) ==> ValidPeriod(r) && MonthIndex(r) == MonthIndex(p) - 1
  {
    if p.month == 0 then Period(p.year - 1, 11) else Period(p.year, p.month - 1)
  }

  /** `handleNextMonth`: one month on, from December to January of the year after. */
  function NextMonth(p: Period): (r: Period)
    ensures ValidPeriod(p) ==> ValidPeriod(r) && MonthIndex(r) == MonthIndex(p) + 1
  {
    if p.month == 11 then Period(p.year + 1, 0) else Period(p.year, p.month + 1)
  }

  /** `handlePrevYear` and `handleNextYear`: only the year moves, by one. */
  function PrevYear(p: Period): (r: Period)
    ensures r.month == p.month && r.year == p.year - 1
  {
    p.(year := p.year - 1)
  }

  function NextYear(p: Period): (r: Period)
    ensures r.month == p.month && r.year == p.year + 1
  {
    p.(year := p.year + 1)
  }

  /** Valid periods are told apart by their month index. */
  lemma MonthIndexInjective(p: Period, q: Period)
    requires ValidPeriod(p) && ValidPeriod(q) && MonthIndex(p) == MonthIndex(q)
    ensures p == q
  {
  }

  /** Going back a month and then forward one, or the other way round, returns to the same period. */
  lemma PrevNextInverse(p: Period)
    requires ValidPeriod(p)
    ensures NextMonth(PrevMonth(p)) == p
    ensures PrevMonth(NextMonth(p)) == p
  {
    MonthIndexInjective(NextMonth(PrevMonth(p)), p);
    MonthIndexInjective(PrevMonth(NextMonth(p)), p);
  }

  /** Twelve months forward is one year forward. */
  lemma TwelveMonthsIsAYear(p: Period)
    requires ValidPeriod(p)
    ensures NextMonth(NextMonth(NextMonth(NextMonth(NextMonth(NextMonth(
              NextMonth(NextMonth(NextMonth(NextMonth(NextMonth(NextMonth(p)))))))))))) == NextYear(p)
  {
    var q := NextMonth(NextMonth(NextMonth(NextMonth(NextMonth(NextMonth(
               NextMonth(NextMonth(NextMonth(NextMonth(NextMonth(NextMonth(p))))))))))));
    MonthIndexInjective(q, NextYear(p));
  }
}
