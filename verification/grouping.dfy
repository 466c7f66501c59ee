/**
 The grouping step of `loadUserData` in `src/lib/supabaseService.ts`: the
 fetched week rows become week buckets holding the fetched records filed
 under their ids, and the current week is looked up by its range. The
 fetches themselves are inputs: None stands for a null `data` result, and
 `now` is the day the clock reads.
 */
module UserData {
  import opened Types
  import opened Seqs
  import opened DateUtils

  /** A row of the weeks table. */
  datatype WeekRow = WeekRow(id: string, startDate: string, endDate: string)

  /** `data || []`. */
  function OrEmpty<T>(s: Option<seq<T>>): (r: seq<T>)
    ensures s.Some? ==> r == s.value
    ensures s.None? ==> r == []
  {
    match s
    case None => []
    case Some(x) => x
  }

  function ExpensesOfWeek(expenses: seq<Expense>, id: string): seq<Expense>
  {
    Filter(expenses, (e: Expense) => e.weekId == id)
  }

  function IncomesOfWeek(incomes: seq<Income>, id: string): seq<Income>
  {
    Filter(incomes, (x: Income) => x.weekId == id)
  }

  /**
   The week buckets: one per fetched row, in fetched order, with the row's
   id and dates and the records whose week id is the row's id.
   */
  function GroupByWeek(weeks: Option<seq<WeekRow>>, expenses: Option<seq<Expense>>, incomes: Option<seq<Income>>)
    : (r: seq<WeekData>)
    ensures |r| == |OrEmpty(weeks)|
    ensures forall i :: 0 <= i < |r| ==>
      r[i].id == OrEmpty(weeks)[i].id && r[i].startDate == OrEmpty(weeks)[i].startDate
      && r[i].endDate == OrEmpty(weeks)[i].endDate
  {
    var es, xs := OrEmpty(expenses), OrEmpty(incomes);
    Map(OrEmpty(weeks), (w: WeekRow) => WeekData(w.id, w.startDate, w.endDate, ExpensesOfWeek(es, w.id), IncomesOfWeek(xs, w.id)))
  }

  /**
   Each bucket holds exactly the fetched records filed under its id, in
   fetched order (filtering distributes over concatenation, `Seqs.FilterAppend`).
   */
  lemma BucketContents(weeks: Option<seq<WeekRow>>, expenses: Option<seq<Expense>>, incomes: Option<seq<Income>>, i: int)
    requires 0 <= i < |OrEmpty(weeks)|
    ensures var w := GroupByWeek(weeks, expenses, incomes)[i];
      && w.expenses == Filter(OrEmpty(expenses), (e: Expense) => e.weekId == w.id)
      && w.incomes == Filter(OrEmpty(incomes), (x: Income) => x.weekId == w.id)
      && (forall k :: 0 <= k < |w.expenses| ==> w.expenses[k] in OrEmpty(expenses) && w.expenses[k].weekId == w.id)
      && (forall k :: 0 <= k < |OrEmpty(expenses)| && OrEmpty(expenses)[k].weekId == w.id ==> OrEmpty(expenses)[k] in w.expenses)
      && (forall k :: 0 <= k < |w.incomes| ==> w.incomes[k] in OrEmpty(incomes) && w.incomes[k].weekId == w.id)
      && (forall k :: 0 <= k < |OrEmpty(incomes)| && OrEmpty(incomes)[k].weekId == w.id ==> OrEmpty(incomes)[k] in w.incomes)
  {
    var w := GroupByWeek(weeks, expenses, incomes)[i];
    assert w.expenses == ExpensesOfWeek(OrEmpty(expenses), w.id);
    assert w.incomes == IncomesOfWeek(OrEmpty(incomes), w.id);
  }

  /** A record whose week id names no fetched week appears in no bucket. */
  lemma OrphansDropped(weeks: Option<seq<WeekRow>>, expenses: Option<seq<Expense>>, incomes: Option<seq<Income>>,
                       e: Expense, x: Income)
    requires forall j :: 0 <= j < |OrEmpty(weeks)| ==> OrEmpty(weeks)[j].id != e.weekId && OrEmpty(weeks)[j].id != x.weekId
    ensures forall i :: 0 <= i < |GroupByWeek(weeks, expenses, incomes)| ==>
      e !in GroupByWeek(weeks, expenses, incomes)[i].expenses && x !in GroupByWeek(weeks, expenses, incomes)[i].incomes
  {
    var r := GroupByWeek(weeks, expenses, incomes);
    forall i | 0 <= i < |r|
      ensures e !in r[i].expenses && x !in r[i].incomes
    {
      BucketContents(weeks, expenses, incomes, i);
    }
  }

  /** With unique week ids, a record is filed in at most one bucket. */
  lemma FiledOnce(weeks: Option<seq<WeekRow>>, expenses: Option<seq<Expense>>, incomes: Option<seq<Income>>,
                  i: int, j: int, e: Expense)
    requires forall a, b :: 0 <= a < b < |OrEmpty(weeks)| ==> OrEmpty(weeks)[a].id != OrEmpty(weeks)[b].id
    requires 0 <= i < |OrEmpty(weeks)| && 0 <= j < |OrEmpty(weeks)|
    requires e in GroupByWeek(weeks, expenses, incomes)[i].expenses
    requires e in GroupByWeek(weeks, expenses, incomes)[j].expenses
    ensures i == j
  {
    BucketContents(weeks, expenses, incomes, i);
    BucketContents(weeks, expenses, incomes, j);
    var r := GroupByWeek(weeks, expenses, incomes);
    var ki :| 0 <= ki < |r[i].expenses| && r[i].expenses[ki] == e;
    var kj :| 0 <= kj < |r[j].expenses| && r[j].expenses[kj] == e;
    assert r[i].id == e.weekId == r[j].id;
  }

  /** The id `loadUserData` takes for the current week: `currentWeek?.id || null`. */
  function CurrentWeekId(grouped: seq<WeekData>, now: int): (r: Option<string>)
    ensures r.Some? ==> r.value != ""
    ensures r.Some? ==> exists i :: 0 <= i < |grouped| && grouped[i].id == r.value
                                    && HasRange(grouped[i], WeekStartText(now), WeekEndText(now))
  {
    var st, en := WeekStartText(now), WeekEndText(now);
    match FindFirst(grouped, (w: WeekData) => HasRange(w, st, en))
    case None => None
    case Some(w) => if w.id == "" then None else Some(w.id)
  }

  /** The state `loadUserData` returns. */
  function LoadUserData(weeks: Option<seq<WeekRow>>, expenses: Option<seq<Expense>>, incomes: Option<seq<Income>>, now: int)
    : AppState
  {
    var grouped := GroupByWeek(weeks, expenses, incomes);
    AppState(grouped, CurrentWeekId(grouped, now))
  }

  /**
   The current week id is the id of the first bucket stored under the range
   of `now`, unless that id is empty; with no such bucket it is null.
   */
  lemma CurrentWeekIsFirstMatch(grouped: seq<WeekData>, now: int, i: int)
    requires 0 <= i < |grouped| && HasRange(grouped[i], WeekStartText(now), WeekEndText(now))
    requires forall j :: 0 <= j < i ==> !HasRange(grouped[j], WeekStartText(now), WeekEndText(now))
    ensures CurrentWeekId(grouped, now) == if grouped[i].id == "" then None else Some(grouped[i].id)
  {
    var st, en := WeekStartText(now), WeekEndText(now);
    FindFirstIsFirst(grouped, (w: WeekData) => HasRange(w, st, en), i);
  }

  lemma NoCurrentWeek(grouped: seq<WeekData>, now: int)
    requires forall j :: 0 <= j < |grouped| ==> !HasRange(grouped[j], WeekStartText(now), WeekEndText(now))
    ensures CurrentWeekId(grouped, now) == None
  {
  }

  /** With nothing fetched, the state is empty and no week is current. */
  lemma NothingFetched(now: int)
    ensures LoadUserData(None, None, None, now) == AppState([], None)
  {
  }
}
