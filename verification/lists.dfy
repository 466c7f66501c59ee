/**
 The record tables of `src/components/expenses/ExpenseList.tsx` and
 `src/components/income/IncomeList.tsx`: what they show for a list of
 records, newest first, and the category badge and label of an expense
 row. Sorting works on a copy, which a pure model gets for free.
 */
module ExpenseList {
  import opened Types
  import opened IsoDate
  import opened NewestFirst

  /** The "nothing recorded" message, or a table of rows. */
  datatype View<T> = NothingRecorded | Table(rows: seq<T>)

  /** The sort key of an expense: its date as a day number. */
  function ExpenseDay(e: Expense): Option<int>
  {
    ParseDay(e.date)
  }

  /** What the expense list shows: the message for no expenses, else every expense, newest first. */
  function ExpenseView(expenses: seq<Expense>): (v: View<Expense>)
    ensures v.NothingRecorded? <==> |expenses| == 0
    ensures v.Table? ==> multiset(v.rows) == multiset(expenses) && SortedBy(v.rows, ExpenseDay)
  {
    if |expenses| == 0 then NothingRecorded else Table(Sort(expenses, ExpenseDay))
  }

  /** Expenses of the same day, or all undated, stay in the order they were given. */
  lemma ExpenseViewStable(expenses: seq<Expense>, day: Option<int>)
    ensures ExpenseView(expenses).Table? ==>
              WithKey(ExpenseView(expenses).rows, ExpenseDay, day) == WithKey(expenses, ExpenseDay, day)
  {
    SortStable(expenses, ExpenseDay, day);
  }

  const AmberBadge := "bg-amber-100 text-amber-800"
  const BlueBadge := "bg-blue-100 text-blue-800"
  const GrayBadge := "bg-gray-100 text-gray-800"

  /** `getCategoryBadge`: amber for fuel, blue for maintenance, gray for anything else. */
  function CategoryBadge(category: string): (badge: string)
    ensures badge == AmberBadge <==> category == "fuel"
    ensures badge == BlueBadge <==> category == "maintenance"
    ensures badge == AmberBadge || badge == BlueBadge || badge == GrayBadge
  {
    if category == "fuel" then AmberBadge
    else if category == "maintenance" then BlueBadge
    else GrayBadge
  }

  /** `toUpperCase` on the ASCII letters; other characters are kept. */
  function UpperChar(c: char): char
  {
    if 'a' <= c <= 'z' then (c as int - 'a' as int + 'A' as int) as char else c
  }

  /** The category label: the first character upper-cased, the rest unchanged. */
  function Capitalize(s: string): (r: string)
    ensures |r| == |s|
    ensures |s| > 0 ==> r[0] == UpperChar(s[0]) && r[1..] == s[1..]
  {
    if |s| == 0 then "" else [UpperChar(s[0])] + s[1..]
  }

  /** The labels the three categories get. */
  lemma CategoryLabels()
    ensures Capitalize(CategoryName(Fuel)) == "Fuel"
    ensures Capitalize(CategoryName(Maintenance)) == "Maintenance"
    ensures Capitalize(CategoryName(Other)) == "Other"
  {
    assert Capitalize("fuel") == ['F'] + "uel";
    assert Capitalize("maintenance") == ['M'] + "aintenance";
    assert Capitalize("other") == ['O'] + "ther";
  }

  /** Capitalising a label again changes nothing. */
  lemma CapitalizeIdempotent(s: string)
    ensures Capitalize(Capitalize(s)) == Capitalize(s)
  {
  }
}

module IncomeList {
  import opened Types
  import opened IsoDate
  import opened NewestFirst
  import ExpenseList

  /** The sort key of an income: its date as a day number. */
  function IncomeDay(x: Income): Option<int>
  {
    ParseDay(x.date)
  }

  /** What the income list shows: the message for no incomes, else every income, newest first. */
  function IncomeView(incomes: seq<Income>): (v: ExpenseList.View<Income>)
    ensures v.NothingRecorded? <==> |incomes| == 0
    ensures v.Table? ==> multiset(v.rows) == multiset(incomes) && SortedBy(v.rows, IncomeDay)
  {
    if |incomes| == 0 then ExpenseList.NothingRecorded else ExpenseList.Table(Sort(incomes, IncomeDay))
  }

  /** Incomes of the same day, or all undated, stay in the order they were given. */
  lemma IncomeViewStable(incomes: seq<Income>, day: Option<int>)
    ensures IncomeView(incomes).Table? ==>
              WithKey(IncomeView(incomes).rows, IncomeDay, day) == WithKey(incomes, IncomeDay, day)
  {
    SortStable(incomes, IncomeDay, day);
  }
}
