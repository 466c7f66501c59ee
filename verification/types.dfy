/**
 The record model of the tracker: expenses and incomes grouped into
 Sunday-to-Saturday week buckets, and the application state that holds them.
 Identifiers and dates are kept as the strings the application stores.
 */
module Types {

  /** Stands for a nullable value (`T | null` or `T | undefined`). */
  datatype Option<+T> = None | Some(value: T)

  /** The closed enumeration of expense categories. */
  datatype Category = Fuel | Maintenance | Other

  /** The name a category is stored and displayed under. */
  function CategoryName(c: Category): string
  {
    match c
    case Fuel => "fuel"
    case Maintenance => "maintenance"
    case Other => "other"
  }

  datatype Expense = Expense(
    id: string,
    weekId: string,
    userId: string,
    date: string,
    amount: real,
    category: Category,
    description: Option<string>,
    createdAt: Option<string>)  // `created_at`: set by the database, never read by the application

  datatype ExpenseInput = ExpenseInput(
    date: string,
    amount: real,
    category: Category,
    description: Option<string>)

  datatype Income = Income(
    id: string,
    weekId: string,
    userId: string,
    date: string,
    amount: real,
    description: Option<string>,
    createdAt: Option<string>)  // `created_at`: set by the database, never read by the application

  datatype IncomeInput = IncomeInput(
    date: string,
    amount: real,
    description: Option<string>)

  /** A week bucket; `startDate` is a Sunday and `endDate` the Saturday after it. */
  datatype WeekData = WeekData(
    id: string,
    startDate: string,
    endDate: string,
    expenses: seq<Expense>,
    incomes: seq<Income>)

  /** True when the week is stored under the given start and end strings. */
  predicate HasRange(w: WeekData, startText: string, endText: string)
  {
    w.startDate == startText && w.endDate == endText
  }

  datatype AppState = AppState(weeks: seq<WeekData>, currentWeekId: Option<string>)

  /** JavaScript truthiness of a nullable string: null and "" are both falsy. */
  predicate Truthy(s: Option<string>)
  {
    s.Some? && s.value != ""
  }

  /** True when no two weeks share an id. */
  predicate UniqueIds(weeks: seq<WeekData>)
  {
    forall i, j :: 0 <= i < j < |weeks| ==> weeks[i].id != weeks[j].id
  }

  /** True when no two weeks share a (startDate, endDate) pair. */
  predicate UniqueRanges(weeks: seq<WeekData>)
  {
    forall i, j :: 0 <= i < j < |weeks| ==>
      (weeks[i].startDate, weeks[i].endDate) != (weeks[j].startDate, weeks[j].endDate)
  }
}
