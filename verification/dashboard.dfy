/**
 The derived figures of the dashboard cards,
 `src/components/dashboard/ExpenseBreakdown.tsx` and
 `src/components/dashboard/FinancialSummary.tsx`, for the current week
 (None when there is none). Rendering and currency formatting are not
 modelled.
 */
module Dashboard {
  import opened Types
  import opened Seqs
  import opened Calculation

  /** `Math.round`: the nearest integer, halves rounded up. */
  function Round(x: real): (n: int)
    ensures n as real <= x + 0.5 < n as real + 1.0
  {
    (x + 0.5).Floor
  }

  /** A category's share of the total, in whole percent; 0 when the total is not positive. */
  function Percentage(amount: real, total: real): (p: int)
    ensures total <= 0.0 ==> p == 0
    ensures 0.0 <= amount <= total ==> 0 <= p <= 100
  {
    if total > 0.0 then
      assert 0.0 <= amount ==> 0.0 <= amount / total;
      assert amount <= total ==> amount / total <= 1.0;
      Round(amount / total * 100.0)
    else 0
  }

  /**
   The categories of the expenses, each once, in order of first occurrence:
   the order `Object.entries` lists the keys of the category map in.
   */
  function CategoryOrder(es: seq<Expense>): (o: seq<Category>)
    ensures forall i, j :: 0 <= i < j < |o| ==> o[i] != o[j]
    ensures forall c :: c in o <==> exists i :: 0 <= i < |es| && es[i].category == c
  {
    if |es| == 0 then []
    else
      var p := CategoryOrder(es[..|es| - 1]);
      var c := es[|es| - 1].category;
      assert forall i :: 0 <= i < |es| - 1 ==> es[..|es| - 1][i] == es[i];
      if c in p then p else p + [c]
  }

  /** `Object.values(m).reduce((sum, amount) => sum + amount, 0)` over the keys in order `o`. */
  function SumValues(m: map<Category, real>, o: seq<Category>): real
  {
    if |o| == 0 then 0.0 else SumValues(m, o[..|o| - 1]) + Lookup(m, o[|o| - 1])
  }

  /** The part of `CategorySum` over the categories listed in `o`. */
  function SumListed(m: map<Category, real>, o: seq<Category>): real
  {
    (if Fuel in o then Lookup(m, Fuel) else 0.0)
    + (if Maintenance in o then Lookup(m, Maintenance) else 0.0)
    + (if Other in o then Lookup(m, Other) else 0.0)
  }

  lemma {:induction false} SumValuesListed(m: map<Category, real>, o: seq<Category>)
    requires forall i, j :: 0 <= i < j < |o| ==> o[i] != o[j]
    ensures SumValues(m, o) == SumListed(m, o)
  {
    if |o| > 0 {
      var p, c := o[..|o| - 1], o[|o| - 1];
      SumValuesListed(m, p);
      assert c !in p;
      assert forall d :: d in o <==> d in p || d == c;
    }
  }

  /** Summing the map's values in any duplicate-free order covering its keys gives `CategorySum`. */
  lemma SumValuesIsCategorySum(m: map<Category, real>, o: seq<Category>)
    requires forall i, j :: 0 <= i < j < |o| ==> o[i] != o[j]
    requires forall c :: c in m ==> c in o
    ensures SumValues(m, o) == CategorySum(m)
  {
    SumValuesListed(m, o);
  }

  datatype Row = Row(category: Category, amount: real, percentage: int)

  datatype Breakdown = Breakdown(total: real, rows: seq<Row>)

  /**
   The expense breakdown card: nothing without a current week or without
   expenses; otherwise the total of the category map and one row per category
   in it, with its amount and its share.
   */
  function ExpenseBreakdown(currentWeek: Option<WeekData>): (r: Option<Breakdown>)
    ensures r.None? <==> currentWeek.None? || |currentWeek.value.expenses| == 0
  {
    if currentWeek.None? || |currentWeek.value.expenses| == 0 then None
    else
      var es := currentWeek.value.expenses;
      var m := ExpensesByCategory(es);
      var o := CategoryOrder(es);
      var total := SumValues(m, o);
      Some(Breakdown(total, Rows(m, o, total)))
  }

  /** One row per category of `o`, in that order, with its amount in `m` and its share of `total`. */
  function Rows(m: map<Category, real>, o: seq<Category>, total: real): (rows: seq<Row>)
    ensures |rows| == |o|
    ensures forall i :: 0 <= i < |o| ==> rows[i] == Row(o[i], Lookup(m, o[i]), Percentage(Lookup(m, o[i]), total))
  {
    Map(o, (c: Category) => Row(c, Lookup(m, c), Percentage(Lookup(m, c), total)))
  }

  /** Some row of the breakdown is for category `c`. */
  predicate HasRow(rows: seq<Row>, c: Category)
  {
    exists i :: 0 <= i < |rows| && rows[i].category == c
  }

  /** Some expense of the list is of category `c`. */
  predicate Occurs(es: seq<Expense>, c: Category)
  {
    exists k :: 0 <= k < |es| && es[k].category == c
  }

  /** The breakdown's total is the total of the week's expenses. */
  lemma BreakdownTotal(w: WeekData)
    requires |w.expenses| > 0
    ensures ExpenseBreakdown(Some(w)).value.total == TotalExpenses(w.expenses)
  {
    var es := w.expenses;
    ExpensesByCategorySpec(es);
    SumValuesIsCategorySum(ExpensesByCategory(es), CategoryOrder(es));
    CategorySumIsTotal(es);
  }

  /** The breakdown lists each category at most once. */
  lemma BreakdownRowsDistinct(w: WeekData)
    requires |w.expenses| > 0
    ensures var rows := ExpenseBreakdown(Some(w)).value.rows;
      forall i, j :: 0 <= i < j < |rows| ==> rows[i].category != rows[j].category
  {
  }

  /** The breakdown has a row for a category exactly when some expense of the week is of it. */
  lemma BreakdownRowsCover(w: WeekData)
    requires |w.expenses| > 0
    ensures forall c :: HasRow(ExpenseBreakdown(Some(w)).value.rows, c) <==> Occurs(w.expenses, c)
  {
    var o := CategoryOrder(w.expenses);
    var rows := ExpenseBreakdown(Some(w)).value.rows;
    forall c
      ensures HasRow(rows, c) <==> c in o
    {
      if c in o {
        var i :| 0 <= i < |o| && o[i] == c;
        assert rows[i].category == c;
      }
    }
  }

  /** Each row holds its category's total over the week's expenses and that total's share. */
  lemma BreakdownRowAmounts(w: WeekData)
    requires |w.expenses| > 0
    ensures var b := ExpenseBreakdown(Some(w)).value;
      forall i :: 0 <= i < |b.rows| ==>
        b.rows[i].amount == TotalExpenses(OfCategory(w.expenses, b.rows[i].category))
        && b.rows[i].percentage == Percentage(b.rows[i].amount, b.total)
  {
    var es := w.expenses;
    ExpensesByCategorySpec(es);
    var o := CategoryOrder(es);
    var b := ExpenseBreakdown(Some(w)).value;
    forall i | 0 <= i < |b.rows|
      ensures b.rows[i].amount == TotalExpenses(OfCategory(es, b.rows[i].category))
    {
      assert o[i] in o;
    }
  }

  /** With no negative amount, every share lies between 0 and 100 percent. */
  lemma PercentagesBounded(w: WeekData)
    requires |w.expenses| > 0
    requires forall i :: 0 <= i < |w.expenses| ==> w.expenses[i].amount >= 0.0
    ensures forall r :: r in ExpenseBreakdown(Some(w)).value.rows ==> 0 <= r.percentage <= 100
  {
    BreakdownRowAmounts(w);
    BreakdownTotal(w);
    var b := ExpenseBreakdown(Some(w)).value;
    forall r | r in b.rows
      ensures 0 <= r.percentage <= 100
    {
      CategoryTotalBounds(w.expenses, r.category);
    }
  }

  /** The four figures of the financial summary card. */
  datatype Cards = Cards(totalIncome: real, totalExpenses: real, netEarnings: real, profitMargin: int)

  /** The profit margin in whole percent, 0 unless the income is positive. */
  function ProfitMargin(income: real, net: real): (m: int)
    ensures income <= 0.0 ==> m == 0
    ensures income > 0.0 && net <= income ==> m <= 100
    ensures income > 0.0 && net == income ==> m == 100
  {
    if income > 0.0 then
      assert net <= income ==> net / income <= 1.0;
      assert net == income ==> net / income == 1.0;
      Round(net / income * 100.0)
    else 0
  }

  /** The financial summary card: nothing without a current week, else the week's summary and margin. */
  function FinancialSummary(currentWeek: Option<WeekData>): (r: Option<Cards>)
    ensures r.None? <==> currentWeek.None?
  {
    match currentWeek
    case None => None
    case Some(w) =>
      var s := WeeklySummary(w);
      Some(Cards(s.totalIncome, s.totalExpenses, s.netEarnings, ProfitMargin(s.totalIncome, s.netEarnings)))
  }

  /**
   The card shows the week's totals and their difference; with no negative
   expense the margin is at most 100, and with no expense at all and some
   income it is exactly 100.
   */
  lemma FinancialSummarySpec(w: WeekData)
    ensures var c := FinancialSummary(Some(w)).value;
      && c.totalIncome == TotalIncome(w.incomes) && c.totalExpenses == TotalExpenses(w.expenses)
      && c.netEarnings == c.totalIncome - c.totalExpenses
      && (c.totalIncome <= 0.0 ==> c.profitMargin == 0)
      && ((forall i :: 0 <= i < |w.expenses| ==> w.expenses[i].amount >= 0.0) ==> c.profitMargin <= 100)
      && (|w.expenses| == 0 && c.totalIncome > 0.0 ==> c.profitMargin == 100)
  {
    if forall i :: 0 <= i < |w.expenses| ==> w.expenses[i].amount >= 0.0 {
      TotalExpensesBounds(w.expenses);
    }
  }
}
