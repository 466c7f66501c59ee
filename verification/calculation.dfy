/**
 The aggregation engine of `src/utils/calculationUtils.ts`: totals, net
 earnings, the per-category breakdown, and the weekly, monthly and yearly
 rollups. Amounts are exact reals. Sums are left folds, as `reduce` computes
 them.
 */
module Calculation {
  import opened Types
  import opened Civil
  import opened IsoDate
  import Seqs

  // ---------------------------------------------------------------------
  // Totals

  /** `calculateTotalExpenses`. */
  function TotalExpenses(es: seq<Expense>): real
  {
    if |es| == 0 then 0.0 else TotalExpenses(es[..|es| - 1]) + es[|es| - 1].amount
  }

  /** `calculateTotalIncome`. */
  function TotalIncome(xs: seq<Income>): real
  {
    if |xs| == 0 then 0.0 else TotalIncome(xs[..|xs| - 1]) + xs[|xs| - 1].amount
  }

  /** The total of a concatenation is the sum of the totals; the empty list totals 0. */
  lemma {:induction false} TotalExpensesAppend(a: seq<Expense>, b: seq<Expense>)
    ensures TotalExpenses([]) == 0.0
    ensures TotalExpenses(a + b) == TotalExpenses(a) + TotalExpenses(b)
    decreases |b|
  {
    if |b| > 0 {
      assert (a + b)[..|a + b| - 1] == a + b[..|b| - 1];
      TotalExpensesAppend(a, b[..|b| - 1]);
    } else {
      assert a + b == a;
    }
  }

  lemma {:induction false} TotalIncomeAppend(a: seq<Income>, b: seq<Income>)
    ensures TotalIncome([]) == 0.0
    ensures TotalIncome(a + b) == TotalIncome(a) + TotalIncome(b)
    decreases |b|
  {
    if |b| > 0 {
      assert (a + b)[..|a + b| - 1] == a + b[..|b| - 1];
      TotalIncomeAppend(a, b[..|b| - 1]);
    } else {
      assert a + b == a;
    }
  }

  /** With no negative amount the total is at least every single amount. */
  lemma {:induction false} TotalExpensesBounds(es: seq<Expense>)
    requires forall i :: 0 <= i < |es| ==> es[i].amount >= 0.0
    ensures TotalExpenses(es) >= 0.0
    ensures forall i :: 0 <= i < |es| ==> es[i].amount <= TotalExpenses(es)
  {
    if |es| > 0 {
      TotalExpensesBounds(es[..|es| - 1]);
    }
  }

  /** `calculateNetEarnings`. */
  function NetEarnings(incomes: seq<Income>, expenses: seq<Expense>): real
  {
    TotalIncome(incomes) - TotalExpenses(expenses)
  }

  /** Net earnings are 0 for no records, and add up over concatenated record lists. */
  lemma NetEarningsAdditive(i1: seq<Income>, i2: seq<Income>, e1: seq<Expense>, e2: seq<Expense>)
    ensures NetEarnings([], []) == 0.0
    ensures NetEarnings(i1 + i2, e1 + e2) == NetEarnings(i1, e1) + NetEarnings(i2, e2)
  {
    TotalIncomeAppend(i1, i2);
    TotalExpensesAppend(e1, e2);
  }

  // ---------------------------------------------------------------------
  // Category breakdown

  /** The expenses of category `c`, in their original order. */
  function OfCategory(es: seq<Expense>, c: Category): seq<Expense>
  {
    if |es| == 0 then []
    else OfCategory(es[..|es| - 1], c) + (if es[|es| - 1].category == c then [es[|es| - 1]] else [])
  }

  function Lookup(m: map<Category, real>, c: Category): real
  {
    if c in m then m[c] else 0.0
  }

  /** `calculateExpensesByCategory`: adds each expense to its category's entry, a missing entry counting as 0. */
  function ExpensesByCategory(es: seq<Expense>): map<Category, real>
  {
    if |es| == 0 then map[]
    else
      var acc := ExpensesByCategory(es[..|es| - 1]);
      var e := es[|es| - 1];
      acc[e.category := Lookup(acc, e.category) + e.amount]
  }

  /** The category map has a key for each category that occurs and for no other. */
  lemma {:induction false} ExpensesByCategoryKeys(es: seq<Expense>)
    ensures forall c :: c in ExpensesByCategory(es) <==> exists i :: 0 <= i < |es| && es[i].category == c
  {
    if |es| > 0 {
      var p, e := es[..|es| - 1], es[|es| - 1];
      ExpensesByCategoryKeys(p);
      var acc := ExpensesByCategory(p);
      var m := ExpensesByCategory(es);
      assert m.Keys == acc.Keys + {e.category};
      forall c
        ensures c in m <==> exists i :: 0 <= i < |es| && es[i].category == c
      {
        if c in m && c != e.category {
          assert c in acc;
          var i :| 0 <= i < |p| && p[i].category == c;
          assert es[i] == p[i];
        }
        if c != e.category && exists i :: 0 <= i < |es| && es[i].category == c {
          var i :| 0 <= i < |es| && es[i].category == c;
          assert i < |p| && p[i] == es[i];
        }
      }
    }
  }

  /** Each entry of the category map is the total of that category's expenses. */
  lemma {:induction false} ExpensesByCategoryValues(es: seq<Expense>)
    ensures forall c :: c in ExpensesByCategory(es) ==> ExpensesByCategory(es)[c] == TotalExpenses(OfCategory(es, c))
  {
    if |es| > 0 {
      var p, e := es[..|es| - 1], es[|es| - 1];
      ExpensesByCategoryValues(p);
      ExpensesByCategoryKeys(p);
      var acc := ExpensesByCategory(p);
      var m := ExpensesByCategory(es);
      forall c | c in m
        ensures m[c] == TotalExpenses(OfCategory(es, c))
      {
        TotalExpensesAppend(OfCategory(p, c), if e.category == c then [e] else []);
        if c == e.category && c !in acc {
          NoneOfCategory(p, c);
        }
      }
    }
  }

  /**
   The category map has a key for each category that occurs and for no other,
   holding the total of that category's expenses.
   */
  lemma ExpensesByCategorySpec(es: seq<Expense>)
    ensures forall c :: c in ExpensesByCategory(es) <==> exists i :: 0 <= i < |es| && es[i].category == c
    ensures forall c :: c in ExpensesByCategory(es) ==> ExpensesByCategory(es)[c] == TotalExpenses(OfCategory(es, c))
  {
    ExpensesByCategoryKeys(es);
    ExpensesByCategoryValues(es);
  }

  /** Sum of the values of a category map, a missing key counting as 0. */
  function CategorySum(m: map<Category, real>): real
  {
    Lookup(m, Fuel) + Lookup(m, Maintenance) + Lookup(m, Other)
  }

  lemma {:induction false} CategoriesPartition(es: seq<Expense>)
    ensures TotalExpenses(OfCategory(es, Fuel)) + TotalExpenses(OfCategory(es, Maintenance))
            + TotalExpenses(OfCategory(es, Other)) == TotalExpenses(es)
  {
    if |es| > 0 {
      var p, e := es[..|es| - 1], es[|es| - 1];
      CategoriesPartition(p);
      TotalExpensesAppend(OfCategory(p, Fuel), if e.category == Fuel then [e] else []);
      TotalExpensesAppend(OfCategory(p, Maintenance), if e.category == Maintenance then [e] else []);
      TotalExpensesAppend(OfCategory(p, Other), if e.category == Other then [e] else []);
    }
  }

  /** The category totals partition the expenses: their sum is the total of all expenses. */
  lemma CategorySumIsTotal(es: seq<Expense>)
    ensures CategorySum(ExpensesByCategory(es)) == TotalExpenses(es)
  {
    var m := ExpensesByCategory(es);
    ExpensesByCategorySpec(es);
    CategoriesPartition(es);
    forall c | c !in m
      ensures TotalExpenses(OfCategory(es, c)) == 0.0
    {
      NoneOfCategory(es, c);
    }
  }

  lemma {:induction false} NoneOfCategory(es: seq<Expense>, c: Category)
    requires forall i :: 0 <= i < |es| ==> es[i].category != c
    ensures OfCategory(es, c) == []
  {
    if |es| > 0 {
      NoneOfCategory(es[..|es| - 1], c);
    }
  }

  /** The expenses of a category are expenses of the list, of that category. */
  lemma {:induction false} OfCategoryMembers(es: seq<Expense>, c: Category)
    ensures forall k :: 0 <= k < |OfCategory(es, c)| ==> OfCategory(es, c)[k] in es && OfCategory(es, c)[k].category == c
  {
    if |es| > 0 {
      var p := es[..|es| - 1];
      OfCategoryMembers(p, c);
      assert forall x :: x in p ==> x in es;
    }
  }

  /** With no negative amount, each category's total lies between 0 and the total of all expenses. */
  lemma CategoryTotalBounds(es: seq<Expense>, c: Category)
    requires forall i :: 0 <= i < |es| ==> es[i].amount >= 0.0
    ensures 0.0 <= TotalExpenses(OfCategory(es, c)) <= TotalExpenses(es)
  {
    CategoriesPartition(es);
    OfCategoryMembers(es, Fuel);
    OfCategoryMembers(es, Maintenance);
    OfCategoryMembers(es, Other);
    TotalExpensesBounds(OfCategory(es, Fuel));
    TotalExpensesBounds(OfCategory(es, Maintenance));
    TotalExpensesBounds(OfCategory(es, Other));
  }

  // ---------------------------------------------------------------------
  // Summaries

  datatype Summary = Summary(
    totalIncome: real,
    totalExpenses: real,
    netEarnings: real,
    expensesByCategory: map<Category, real>)

  datatype MonthlySummary = MonthlySummary(summary: Summary, numberOfWeeks: nat)

  datatype YearlySummary = YearlySummary(
    summary: Summary,
    monthlyBreakdown: seq<MonthlySummary>,
    numberOfWeeks: nat)

  /** Net earnings are income minus expenses, and the category map covers all expenses. */
  predicate Consistent(s: Summary)
  {
    s.netEarnings == s.totalIncome - s.totalExpenses
    && CategorySum(s.expensesByCategory) == s.totalExpenses
  }

  /** The rollup of a list of incomes and expenses. */
  function Summarize(incomes: seq<Income>, expenses: seq<Expense>): (s: Summary)
    ensures Consistent(s)
  {
    CategorySumIsTotal(expenses);
    Summary(TotalIncome(incomes), TotalExpenses(expenses),
            NetEarnings(incomes, expenses), ExpensesByCategory(expenses))
  }

  lemma SummarizeEmpty()
    ensures Summarize([], []) == Summary(0.0, 0.0, 0.0, map[])
  {
  }

  /** `calculateWeeklySummary`: depends on the one week only. */
  function WeeklySummary(w: WeekData): (s: Summary)
    ensures Consistent(s)
    ensures s.totalIncome == TotalIncome(w.incomes) && s.totalExpenses == TotalExpenses(w.expenses)
  {
    Summarize(w.incomes, w.expenses)
  }

  /** `weeks.flatMap(week => week.expenses)`. */
  function AllExpenses(ws: seq<WeekData>): seq<Expense>
  {
    if |ws| == 0 then [] else AllExpenses(ws[..|ws| - 1]) + ws[|ws| - 1].expenses
  }

  function AllIncomes(ws: seq<WeekData>): seq<Income>
  {
    if |ws| == 0 then [] else AllIncomes(ws[..|ws| - 1]) + ws[|ws| - 1].incomes
  }

  /** The sums of the per-week totals of a list of weeks. */
  function SumWeeklyIncome(ws: seq<WeekData>): real
  {
    if |ws| == 0 then 0.0 else SumWeeklyIncome(ws[..|ws| - 1]) + TotalIncome(ws[|ws| - 1].incomes)
  }

  function SumWeeklyExpenses(ws: seq<WeekData>): real
  {
    if |ws| == 0 then 0.0 else SumWeeklyExpenses(ws[..|ws| - 1]) + TotalExpenses(ws[|ws| - 1].expenses)
  }

  /** Pooling the records of several weeks totals the same as adding up their weekly summaries. */
  lemma {:induction false} PooledTotals(ws: seq<WeekData>)
    ensures TotalIncome(AllIncomes(ws)) == SumWeeklyIncome(ws)
    ensures TotalExpenses(AllExpenses(ws)) == SumWeeklyExpenses(ws)
  {
    TotalIncomeAppend([], []);
    TotalExpensesAppend([], []);
    if |ws| > 0 {
      var p := ws[..|ws| - 1];
      PooledTotals(p);
      TotalIncomeAppend(AllIncomes(p), ws[|ws| - 1].incomes);
      TotalExpensesAppend(AllExpenses(p), ws[|ws| - 1].expenses);
    }
  }

  /** True when the stored date string denotes a day of month `month` (0..11) of `year`. */
  predicate InMonth(s: string, year: int, month: int)
  {
    match ParseDate(s)
    case Some(c) => c.year == year && c.month == month
    case None => false
  }

  predicate InYear(s: string, year: int)
  {
    match ParseDate(s)
    case Some(c) => c.year == year
    case None => false
  }

  /** The selection rule of the monthly summary: the week starts OR ends in the month. */
  predicate WeekInMonth(w: WeekData, year: int, month: int)
  {
    InMonth(w.startDate, year, month) || InMonth(w.endDate, year, month)
  }

  predicate WeekInYear(w: WeekData, year: int)
  {
    InYear(w.startDate, year) || InYear(w.endDate, year)
  }

  /** The weeks selected for a month, in their original order. */
  function WeeksInMonth(weeks: seq<WeekData>, year: int, month: int): (r: seq<WeekData>)
    ensures |r| <= |weeks|
    ensures forall w {:trigger w in r} :: w in r <==> w in weeks && WeekInMonth(w, year, month)
  {
    Seqs.Filter(weeks, (w: WeekData) => WeekInMonth(w, year, month))
  }

  /** The weeks selected for a year, in their original order. */
  function WeeksInYear(weeks: seq<WeekData>, year: int): (r: seq<WeekData>)
    ensures |r| <= |weeks|
    ensures forall w {:trigger w in r} :: w in r <==> w in weeks && WeekInYear(w, year)
  {
    Seqs.Filter(weeks, (w: WeekData) => WeekInYear(w, year))
  }

  /**
   Selection works week by week: selecting from two lists in turn is selecting
   from the two together, so order and repeated weeks are kept.
   */
  lemma SelectionAppend(a: seq<WeekData>, b: seq<WeekData>, year: int, month: int)
    ensures WeeksInMonth(a + b, year, month) == WeeksInMonth(a, year, month) + WeeksInMonth(b, year, month)
    ensures WeeksInYear(a + b, year) == WeeksInYear(a, year) + WeeksInYear(b, year)
  {
    Seqs.FilterAppend(a, b, (w: WeekData) => WeekInMonth(w, year, month));
    Seqs.FilterAppend(a, b, (w: WeekData) => WeekInYear(w, year));
  }

  /** `calculateMonthlySummary`: the rollup of every record of every selected week. */
  function CalculateMonthlySummary(weeks: seq<WeekData>, year: int, month: int): MonthlySummary
  {
    var selected := WeeksInMonth(weeks, year, month);
    MonthlySummary(Summarize(AllIncomes(selected), AllExpenses(selected)), |selected|)
  }

  /**
   The monthly summary adds up the full weekly totals of exactly the weeks
   that start or end in the month, and counts them. It counts no week exactly
   when no week starts or ends in the month, and then every figure is 0 and
   the category map is empty.
   */
  lemma MonthlySummarySpec(weeks: seq<WeekData>, year: int, month: int)
    ensures Consistent(CalculateMonthlySummary(weeks, year, month).summary)
    ensures CalculateMonthlySummary(weeks, year, month).summary.totalIncome
            == SumWeeklyIncome(WeeksInMonth(weeks, year, month))
    ensures CalculateMonthlySummary(weeks, year, month).summary.totalExpenses
            == SumWeeklyExpenses(WeeksInMonth(weeks, year, month))
    ensures CalculateMonthlySummary(weeks, year, month).numberOfWeeks <= |weeks|
    ensures CalculateMonthlySummary(weeks, year, month).numberOfWeeks == 0
            <==> forall w :: w in weeks ==> !WeekInMonth(w, year, month)
    ensures CalculateMonthlySummary(weeks, year, month).numberOfWeeks == 0
            ==> CalculateMonthlySummary(weeks, year, month).summary == Summary(0.0, 0.0, 0.0, map[])
  {
    var selected := WeeksInMonth(weeks, year, month);
    PooledTotals(selected);
    if |selected| > 0 {
      assert selected[0] in selected;
    } else {
      SummarizeEmpty();
      forall w | w in weeks
        ensures !WeekInMonth(w, year, month)
      {
        assert w !in selected;
      }
    }
  }

  /** A week starting or ending in some month of a year starts or ends in that year, and conversely. */
  lemma WeekInYearIff(w: WeekData, year: int)
    ensures WeekInYear(w, year) <==> exists m :: 0 <= m < 12 && WeekInMonth(w, year, m)
  {
    if WeekInYear(w, year) {
      var c := if InYear(w.startDate, year) then ParseDate(w.startDate).value else ParseDate(w.endDate).value;
      assert WeekInMonth(w, year, c.month);
    }
  }

  /** Every week selected for a month of the year is selected for the year. */
  lemma MonthsWithinYear(weeks: seq<WeekData>, year: int)
    ensures forall m, w :: 0 <= m < 12 && w in WeeksInMonth(weeks, year, m) ==> w in WeeksInYear(weeks, year)
  {
    forall m, w | 0 <= m < 12 && w in WeeksInMonth(weeks, year, m)
      ensures w in WeeksInYear(weeks, year)
    {
      assert w in weeks && WeekInMonth(w, year, m);
      assert WeekInYear(w, year);
    }
  }

  /** No week is selected for a year exactly when no week starts or ends in it. */
  lemma NoWeekInYear(weeks: seq<WeekData>, year: int)
    ensures |WeeksInYear(weeks, year)| == 0 <==> forall w :: w in weeks ==> !WeekInYear(w, year)
  {
    var selected := WeeksInYear(weeks, year);
    if |selected| > 0 {
      assert selected[0] in selected;
    } else {
      forall w | w in weeks
        ensures !WeekInYear(w, year)
      {
        assert w !in selected;
      }
    }
  }

  /** The rollup of the selected weeks' records adds up their weekly totals, and is all zeros when none is selected. */
  lemma SelectedRollup(selected: seq<WeekData>)
    ensures Summarize(AllIncomes(selected), AllExpenses(selected)).totalIncome == SumWeeklyIncome(selected)
    ensures Summarize(AllIncomes(selected), AllExpenses(selected)).totalExpenses == SumWeeklyExpenses(selected)
    ensures |selected| == 0 ==> Summarize(AllIncomes(selected), AllExpenses(selected)) == Summary(0.0, 0.0, 0.0, map[])
  {
    PooledTotals(selected);
    if |selected| == 0 {
      SummarizeEmpty();
    }
  }

  /**
   `calculateYearlySummary`: the rollup of the weeks starting or ending in the
   year, with the twelve monthly summaries of the year.
   */
  function CalculateYearlySummary(weeks: seq<WeekData>, year: int): YearlySummary
  {
    var selected := WeeksInYear(weeks, year);
    YearlySummary(Summarize(AllIncomes(selected), AllExpenses(selected)),
                  seq(12, (m: int) => CalculateMonthlySummary(weeks, year, m)), |selected|)
  }

  /**
   The yearly summary adds up the full weekly totals of exactly the weeks that
   start or end in the year, and counts them. It counts no week exactly when
   no week starts or ends in the year, and then every figure is 0.
   */
  lemma YearlySummarySpec(weeks: seq<WeekData>, year: int)
    ensures Consistent(CalculateYearlySummary(weeks, year).summary)
    ensures CalculateYearlySummary(weeks, year).summary.totalIncome
            == SumWeeklyIncome(WeeksInYear(weeks, year))
    ensures CalculateYearlySummary(weeks, year).summary.totalExpenses
            == SumWeeklyExpenses(WeeksInYear(weeks, year))
    ensures CalculateYearlySummary(weeks, year).numberOfWeeks <= |weeks|
    ensures CalculateYearlySummary(weeks, year).numberOfWeeks == 0
            <==> forall w :: w in weeks ==> !WeekInYear(w, year)
    ensures CalculateYearlySummary(weeks, year).numberOfWeeks == 0
            ==> CalculateYearlySummary(weeks, year).summary == Summary(0.0, 0.0, 0.0, map[])
  {
    SelectedRollup(WeeksInYear(weeks, year));
    NoWeekInYear(weeks, year);
  }

  /** A month of a year in which no week starts or ends counts no week. */
  lemma MonthEmptyWhenYearEmpty(weeks: seq<WeekData>, year: int, m: int)
    requires 0 <= m < 12
    requires |WeeksInYear(weeks, year)| == 0
    ensures CalculateMonthlySummary(weeks, year, m).numberOfWeeks == 0
  {
    forall w | w in weeks
      ensures !WeekInMonth(w, year, m)
    {
      assert w !in WeeksInYear(weeks, year);
      WeekInYearIff(w, year);
    }
    MonthlySummarySpec(weeks, year, m);
  }

  /**
   The breakdown of a yearly summary has twelve entries, entry `m` being the
   monthly summary of month `m`; when the year counts no week, no month does.
   */
  lemma YearlyBreakdownSpec(weeks: seq<WeekData>, year: int)
    ensures |CalculateYearlySummary(weeks, year).monthlyBreakdown| == 12
    ensures forall m :: 0 <= m < 12 ==>
      CalculateYearlySummary(weeks, year).monthlyBreakdown[m] == CalculateMonthlySummary(weeks, year, m)
    ensures CalculateYearlySummary(weeks, year).numberOfWeeks == 0
            ==> forall m :: 0 <= m < 12 ==> CalculateYearlySummary(weeks, year).monthlyBreakdown[m].numberOfWeeks == 0
  {
    var r := CalculateYearlySummary(weeks, year);
    if r.numberOfWeeks == 0 {
      forall m | 0 <= m < 12
        ensures r.monthlyBreakdown[m].numberOfWeeks == 0
      {
        MonthEmptyWhenYearEmpty(weeks, year, m);
      }
    }
  }

  /**
   A week that starts in one month and ends in another is selected, with all
   its records, for both months and both years.
   */
  lemma SpanningWeekCountsTwice(weeks: seq<WeekData>, i: int, y1: int, m1: int, y2: int, m2: int)
    requires 0 <= i < |weeks|
    requires InMonth(weeks[i].startDate, y1, m1) && InMonth(weeks[i].endDate, y2, m2)
    ensures weeks[i] in WeeksInMonth(weeks, y1, m1) && weeks[i] in WeeksInMonth(weeks, y2, m2)
    ensures weeks[i] in WeeksInYear(weeks, y1) && weeks[i] in WeeksInYear(weeks, y2)
  {
  }

  lemma ReadsDec29()
    ensures ParseDate("2024-12-29") == Some(CivilDate(2024, 11, 29))
  {
    var s := "2024-12-29";
    FourDigits(s[..4]);
    TwoDigits(s[5..7]);
    TwoDigits(s[8..]);
    assert ParseYear(s[..4]) == Some(2024);
  }

  lemma ReadsJan4()
    ensures ParseDate("2025-01-04") == Some(CivilDate(2025, 0, 4))
  {
    var s := "2025-01-04";
    FourDigits(s[..4]);
    TwoDigits(s[5..7]);
    TwoDigits(s[8..]);
    assert ParseYear(s[..4]) == Some(2025);
  }

  /** The week of 2024-12-29 to 2025-01-04 belongs to December 2024 and to January 2025. */
  lemma NewYearWeekExample(w: WeekData)
    requires w.startDate == "2024-12-29" && w.endDate == "2025-01-04"
    ensures WeekInMonth(w, 2024, 11) && WeekInMonth(w, 2025, 0)
    ensures WeekInYear(w, 2024) && WeekInYear(w, 2025)
    ensures !WeekInMonth(w, 2024, 10) && !WeekInMonth(w, 2025, 1)
  {
    ReadsDec29();
    ReadsJan4();
  }

  /** A week with fuel 100, other 50 and income 500 nets 350. */
  lemma WeeklySummaryExample(w: WeekData)
    requires |w.expenses| == 2 && |w.incomes| == 1
    requires w.expenses[0].amount == 100.0 && w.expenses[0].category == Fuel
    requires w.expenses[1].amount == 50.0 && w.expenses[1].category == Other
    requires w.incomes[0].amount == 500.0
    ensures WeeklySummary(w) == Summary(500.0, 150.0, 350.0, map[Fuel := 100.0, Other := 50.0])
  {
    var es := w.expenses;
    assert es[..1][..0] == [];
    assert w.incomes[..0] == [];
    assert TotalExpenses(es[..1]) == 100.0;
    assert ExpensesByCategory(es[..1]) == map[Fuel := 100.0];
    assert ExpensesByCategory(es) == map[Fuel := 100.0, Other := 50.0];
    assert TotalExpenses(es) == 150.0;
    assert TotalIncome(w.incomes) == 500.0;
    assert NetEarnings(w.incomes, es) == 350.0;
  }
}
