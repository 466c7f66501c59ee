/**
 The application state machine of `src/context/AppContext.tsx`: `appReducer`,
 a total function from a state and an action to the next state, and the
 `currentWeek` lookup derived from a state.
 */
module AppReducer {
  import opened Types
  import opened Seqs
  import Calculation

  /** `AppState & { loading: boolean }`. */
  datatype ContextState = ContextState(weeks: seq<WeekData>, currentWeekId: Option<string>, loading: bool)

  const InitialState := ContextState([], None, true)

  datatype Action =
    | Initialize(payload: AppState)
    | SetLoading(flag: bool)
    | SetCurrentWeek(weekId: string)
    | AddExpense(expense: Expense)
    | AddIncome(income: Income)
    | UpdateExpense(expense: Expense)
    | UpdateIncome(income: Income)
    | DeleteExpense(id: string)
    | DeleteIncome(id: string)
    | SelectWeek(week: WeekData)

  /** Two week lists of the same length whose weeks carry the same ids, position by position. */
  predicate SameWeekIds(a: seq<WeekData>, b: seq<WeekData>)
  {
    |a| == |b| && forall i :: 0 <= i < |a| ==> a[i].id == b[i].id
  }

  predicate HasWeek(weeks: seq<WeekData>, id: string)
  {
    exists i :: 0 <= i < |weeks| && weeks[i].id == id
  }

  function AppendExpense(w: WeekData, e: Expense): WeekData
  {
    w.(expenses := w.expenses + [e])
  }

  function AppendIncome(w: WeekData, x: Income): WeekData
  {
    w.(incomes := w.incomes + [x])
  }

  function ReplaceExpense(es: seq<Expense>, p: Expense): seq<Expense>
  {
    Map(es, (e: Expense) => if e.id == p.id then p else e)
  }

  function ReplaceIncome(xs: seq<Income>, p: Income): seq<Income>
  {
    Map(xs, (x: Income) => if x.id == p.id then p else x)
  }

  function RemoveExpense(es: seq<Expense>, id: string): seq<Expense>
  {
    Filter(es, (e: Expense) => e.id != id)
  }

  function RemoveIncome(xs: seq<Income>, id: string): seq<Income>
  {
    Filter(xs, (x: Income) => x.id != id)
  }

  /**
   `appReducer`. Only INITIALIZE and SELECT_WEEK change which weeks there
   are; only INITIALIZE and SET_LOADING touch the loading flag; only
   INITIALIZE, SET_CURRENT_WEEK and SELECT_WEEK move the current week.
   */
  function Reduce(s: ContextState, a: Action): (r: ContextState)
    ensures !a.Initialize? && !a.SelectWeek? ==> SameWeekIds(r.weeks, s.weeks)
    ensures !a.Initialize? && !a.SetLoading? ==> r.loading == s.loading
    ensures !a.Initialize? && !a.SetCurrentWeek? && !a.SelectWeek? ==> r.currentWeekId == s.currentWeekId
  {
    match a
    case Initialize(p) => ContextState(p.weeks, p.currentWeekId, false)
    case SetLoading(flag) => s.(loading := flag)
    case SetCurrentWeek(id) => s.(currentWeekId := Some(id))
    case AddExpense(e) =>
      if !Truthy(s.currentWeekId) then s
      else
        var cid := s.currentWeekId.value;
        s.(weeks := Map(s.weeks, (w: WeekData) => if w.id == cid then AppendExpense(w, e) else w))
    case AddIncome(x) =>
      if !Truthy(s.currentWeekId) then s
      else
        var cid := s.currentWeekId.value;
        s.(weeks := Map(s.weeks, (w: WeekData) => if w.id == cid then AppendIncome(w, x) else w))
    case UpdateExpense(p) =>
      s.(weeks := Map(s.weeks, (w: WeekData) => w.(expenses := ReplaceExpense(w.expenses, p))))
    case UpdateIncome(p) =>
      s.(weeks := Map(s.weeks, (w: WeekData) => w.(incomes := ReplaceIncome(w.incomes, p))))
    case DeleteExpense(id) =>
      s.(weeks := Map(s.weeks, (w: WeekData) => w.(expenses := RemoveExpense(w.expenses, id))))
    case DeleteIncome(id) =>
      s.(weeks := Map(s.weeks, (w: WeekData) => w.(incomes := RemoveIncome(w.incomes, id))))
    case SelectWeek(p) =>
      var weeks :=
        if HasWeek(s.weeks, p.id) then Map(s.weeks, (w: WeekData) => if w.id == p.id then p else w)
        else s.weeks + [p];
      s.(weeks := weeks, currentWeekId := Some(p.id))
  }

  /** The `currentWeek` lookup: the first week carrying a truthy current week id. */
  function CurrentWeek(s: ContextState): (r: Option<WeekData>)
    ensures r.Some? ==> Truthy(s.currentWeekId) && r.value in s.weeks && r.value.id == s.currentWeekId.value
    ensures r.None? <==> !Truthy(s.currentWeekId) || !HasWeek(s.weeks, s.currentWeekId.value)
  {
    if Truthy(s.currentWeekId) then FindFirst(s.weeks, (w: WeekData) => w.id == s.currentWeekId.value)
    else None
  }

  /** INITIALIZE takes weeks and current week from the payload and ends loading. */
  lemma InitializeSpec(s: ContextState, p: AppState)
    ensures Reduce(s, Initialize(p)).weeks == p.weeks
    ensures Reduce(s, Initialize(p)).currentWeekId == p.currentWeekId
    ensures !Reduce(s, Initialize(p)).loading
  {
  }

  /** SET_LOADING changes the loading flag and nothing else; SET_CURRENT_WEEK changes the current week id and nothing else. */
  lemma SettersSpec(s: ContextState, flag: bool, id: string)
    ensures Reduce(s, SetLoading(flag)) == s.(loading := flag)
    ensures Reduce(s, SetCurrentWeek(id)) == s.(currentWeekId := Some(id))
  {
  }

  /** With a null or empty current week id, adding a record leaves the state as it was. */
  lemma AddWithoutCurrentWeek(s: ContextState, e: Expense, x: Income)
    requires !Truthy(s.currentWeekId)
    ensures Reduce(s, AddExpense(e)) == s
    ensures Reduce(s, AddIncome(x)) == s
  {
  }

  /**
   ADD_EXPENSE appends the expense as the last expense of every week carrying
   the current week id; every other field of every week is unchanged.
   */
  lemma AddExpenseSpec(s: ContextState, e: Expense)
    requires Truthy(s.currentWeekId)
    ensures |Reduce(s, AddExpense(e)).weeks| == |s.weeks|
    ensures forall i :: 0 <= i < |s.weeks| ==>
      Reduce(s, AddExpense(e)).weeks[i].(expenses := s.weeks[i].expenses) == s.weeks[i]
    ensures forall i :: 0 <= i < |s.weeks| ==>
      Reduce(s, AddExpense(e)).weeks[i].expenses ==
        if s.weeks[i].id == s.currentWeekId.value then s.weeks[i].expenses + [e] else s.weeks[i].expenses
  {
  }

  /** ADD_INCOME appends the income as the last income of every week carrying the current week id. */
  lemma AddIncomeSpec(s: ContextState, x: Income)
    requires Truthy(s.currentWeekId)
    ensures |Reduce(s, AddIncome(x)).weeks| == |s.weeks|
    ensures forall i :: 0 <= i < |s.weeks| ==>
      Reduce(s, AddIncome(x)).weeks[i].(incomes := s.weeks[i].incomes) == s.weeks[i]
    ensures forall i :: 0 <= i < |s.weeks| ==>
      Reduce(s, AddIncome(x)).weeks[i].incomes ==
        if s.weeks[i].id == s.currentWeekId.value then s.weeks[i].incomes + [x] else s.weeks[i].incomes
  {
  }

  /** Adding `e` to the weeks carrying `id`, as ADD_EXPENSE does. */
  function AddToWeeks(ws: seq<WeekData>, id: string, e: Expense): (r: seq<WeekData>)
    ensures |r| == |ws|
    ensures forall i :: 0 <= i < |ws| ==> r[i] == if ws[i].id == id then AppendExpense(ws[i], e) else ws[i]
  {
    Map(ws, (w: WeekData) => if w.id == id then AppendExpense(w, e) else w)
  }

  lemma {:induction false} AddToWeeksTotal(ws: seq<WeekData>, id: string, e: Expense)
    requires UniqueIds(ws)
    ensures Calculation.SumWeeklyExpenses(AddToWeeks(ws, id, e))
            == Calculation.SumWeeklyExpenses(ws) + if HasWeek(ws, id) then e.amount else 0.0
  {
    if |ws| > 0 {
      var p, w := ws[..|ws| - 1], ws[|ws| - 1];
      var r := AddToWeeks(ws, id, e);
      AddToWeeksTotal(p, id, e);
      assert r[..|r| - 1] == AddToWeeks(p, id, e);
      Calculation.TotalExpensesAppend(w.expenses, [e]);
      assert [e][0] == e;
      assert Calculation.TotalExpenses([e]) == e.amount by {
        assert [e][..0] == [];
      }
      assert HasWeek(ws, id) <==> HasWeek(p, id) || w.id == id by {
        if HasWeek(ws, id) && w.id != id {
          var i :| 0 <= i < |ws| && ws[i].id == id;
          assert p[i] == ws[i];
        }
        if HasWeek(p, id) {
          var i :| 0 <= i < |p| && p[i].id == id;
          assert ws[i] == p[i];
        }
      }
    }
  }

  /**
   With unique week ids, ADD_EXPENSE raises the expense total over all weeks
   by exactly the amount added when the current week exists, and leaves it
   alone otherwise.
   */
  lemma AddExpenseTotal(s: ContextState, e: Expense)
    requires Truthy(s.currentWeekId) && UniqueIds(s.weeks)
    ensures Calculation.SumWeeklyExpenses(Reduce(s, AddExpense(e)).weeks)
            == Calculation.SumWeeklyExpenses(s.weeks) + if HasWeek(s.weeks, s.currentWeekId.value) then e.amount else 0.0
  {
    var id := s.currentWeekId.value;
    assert Reduce(s, AddExpense(e)).weeks == AddToWeeks(s.weeks, id, e);
    AddToWeeksTotal(s.weeks, id, e);
  }

  /** When the current week id names no week, an add is silently dropped. */
  lemma AddToMissingWeek(s: ContextState, e: Expense, x: Income)
    requires Truthy(s.currentWeekId) && !HasWeek(s.weeks, s.currentWeekId.value)
    ensures Reduce(s, AddExpense(e)) == s
    ensures Reduce(s, AddIncome(x)) == s
  {
    assert Reduce(s, AddExpense(e)).weeks == s.weeks;
    assert Reduce(s, AddIncome(x)).weeks == s.weeks;
  }

  /**
   UPDATE_EXPENSE replaces, in every week, every expense carrying the
   payload's id by the payload, keeping each list's length and order.
   */
  lemma UpdateExpenseSpec(s: ContextState, p: Expense)
    ensures forall i :: 0 <= i < |s.weeks| ==>
      Reduce(s, UpdateExpense(p)).weeks[i].(expenses := s.weeks[i].expenses) == s.weeks[i]
    ensures forall i :: 0 <= i < |s.weeks| ==>
      |Reduce(s, UpdateExpense(p)).weeks[i].expenses| == |s.weeks[i].expenses|
    ensures forall i, k :: 0 <= i < |s.weeks| && 0 <= k < |s.weeks[i].expenses| ==>
      Reduce(s, UpdateExpense(p)).weeks[i].expenses[k] ==
        if s.weeks[i].expenses[k].id == p.id then p else s.weeks[i].expenses[k]
  {
  }

  /** UPDATE_INCOME replaces every income carrying the payload's id by the payload, in place. */
  lemma UpdateIncomeSpec(s: ContextState, p: Income)
    ensures forall i :: 0 <= i < |s.weeks| ==>
      Reduce(s, UpdateIncome(p)).weeks[i].(incomes := s.weeks[i].incomes) == s.weeks[i]
    ensures forall i :: 0 <= i < |s.weeks| ==>
      |Reduce(s, UpdateIncome(p)).weeks[i].incomes| == |s.weeks[i].incomes|
    ensures forall i, k :: 0 <= i < |s.weeks| && 0 <= k < |s.weeks[i].incomes| ==>
      Reduce(s, UpdateIncome(p)).weeks[i].incomes[k] ==
        if s.weeks[i].incomes[k].id == p.id then p else s.weeks[i].incomes[k]
  {
  }

  /** Applying the same expense update twice is applying it once. */
  lemma UpdateExpenseIdempotent(s: ContextState, p: Expense)
    ensures Reduce(Reduce(s, UpdateExpense(p)), UpdateExpense(p)) == Reduce(s, UpdateExpense(p))
  {
    var r1 := Reduce(s, UpdateExpense(p));
    var r2 := Reduce(r1, UpdateExpense(p));
    forall i | 0 <= i < |s.weeks|
      ensures r2.weeks[i] == r1.weeks[i]
    {
      assert r2.weeks[i].expenses == r1.weeks[i].expenses;
    }
    assert r2.weeks == r1.weeks;
  }

  /** Applying the same income update twice is applying it once. */
  lemma UpdateIncomeIdempotent(s: ContextState, q: Income)
    ensures Reduce(Reduce(s, UpdateIncome(q)), UpdateIncome(q)) == Reduce(s, UpdateIncome(q))
  {
    var t1 := Reduce(s, UpdateIncome(q));
    var t2 := Reduce(t1, UpdateIncome(q));
    forall i | 0 <= i < |s.weeks|
      ensures t2.weeks[i] == t1.weeks[i]
    {
      assert t2.weeks[i].incomes == t1.weeks[i].incomes;
    }
    assert t2.weeks == t1.weeks;
  }

  /**
   DELETE_EXPENSE leaves in each week exactly the expenses not carrying the
   id, in their order (see `Seqs.FilterAppend`); nothing else changes.
   */
  lemma DeleteExpenseSpec(s: ContextState, id: string)
    ensures forall i :: 0 <= i < |s.weeks| ==>
      Reduce(s, DeleteExpense(id)).weeks[i].(expenses := s.weeks[i].expenses) == s.weeks[i]
    ensures forall i :: 0 <= i < |s.weeks| ==>
      Reduce(s, DeleteExpense(id)).weeks[i].expenses == Filter(s.weeks[i].expenses, (e: Expense) => e.id != id)
    ensures forall i, k :: 0 <= i < |s.weeks| && 0 <= k < |Reduce(s, DeleteExpense(id)).weeks[i].expenses| ==>
      Reduce(s, DeleteExpense(id)).weeks[i].expenses[k].id != id
  {
  }

  /** DELETE_INCOME leaves in each week exactly the incomes not carrying the id, in their order. */
  lemma DeleteIncomeSpec(s: ContextState, id: string)
    ensures forall i :: 0 <= i < |s.weeks| ==>
      Reduce(s, DeleteIncome(id)).weeks[i].(incomes := s.weeks[i].incomes) == s.weeks[i]
    ensures forall i :: 0 <= i < |s.weeks| ==>
      Reduce(s, DeleteIncome(id)).weeks[i].incomes == Filter(s.weeks[i].incomes, (x: Income) => x.id != id)
    ensures forall i, k :: 0 <= i < |s.weeks| && 0 <= k < |Reduce(s, DeleteIncome(id)).weeks[i].incomes| ==>
      Reduce(s, DeleteIncome(id)).weeks[i].incomes[k].id != id
  {
  }

  /** Applying the same expense delete twice is applying it once. */
  lemma DeleteExpenseIdempotent(s: ContextState, id: string)
    ensures Reduce(Reduce(s, DeleteExpense(id)), DeleteExpense(id)) == Reduce(s, DeleteExpense(id))
  {
    var r1 := Reduce(s, DeleteExpense(id));
    var r2 := Reduce(r1, DeleteExpense(id));
    forall i | 0 <= i < |s.weeks|
      ensures r2.weeks[i].expenses == r1.weeks[i].expenses
    {
      FilterIdempotent(s.weeks[i].expenses, (e: Expense) => e.id != id);
    }
    assert r2.weeks == r1.weeks;
  }

  /** Applying the same income delete twice is applying it once. */
  lemma DeleteIncomeIdempotent(s: ContextState, id: string)
    ensures Reduce(Reduce(s, DeleteIncome(id)), DeleteIncome(id)) == Reduce(s, DeleteIncome(id))
  {
    var r1 := Reduce(s, DeleteIncome(id));
    var r2 := Reduce(r1, DeleteIncome(id));
    forall i | 0 <= i < |s.weeks|
      ensures r2.weeks[i].incomes == r1.weeks[i].incomes
    {
      FilterIdempotent(s.weeks[i].incomes, (x: Income) => x.id != id);
    }
    assert r2.weeks == r1.weeks;
  }

  /**
   SELECT_WEEK replaces in place every week carrying the payload's id when
   there is one (the week count is unchanged), appends the payload otherwise,
   and always makes the payload's id the current week id.
   */
  lemma SelectWeekSpec(s: ContextState, p: WeekData)
    ensures Reduce(s, SelectWeek(p)).currentWeekId == Some(p.id)
    ensures HasWeek(s.weeks, p.id) ==> |Reduce(s, SelectWeek(p)).weeks| == |s.weeks|
    ensures HasWeek(s.weeks, p.id) ==> forall i :: 0 <= i < |s.weeks| ==>
      Reduce(s, SelectWeek(p)).weeks[i] == if s.weeks[i].id == p.id then p else s.weeks[i]
    ensures !HasWeek(s.weeks, p.id) ==> Reduce(s, SelectWeek(p)).weeks == s.weeks + [p]
  {
  }

  /** SELECT_WEEK keeps week ids unique. */
  lemma SelectWeekKeepsIdsUnique(s: ContextState, p: WeekData)
    requires UniqueIds(s.weeks)
    ensures UniqueIds(Reduce(s, SelectWeek(p)).weeks)
  {
    var r := Reduce(s, SelectWeek(p)).weeks;
    if HasWeek(s.weeks, p.id) {
      assert forall i :: 0 <= i < |r| ==> r[i].id == s.weeks[i].id;
    } else {
      assert forall i :: 0 <= i < |s.weeks| ==> r[i] == s.weeks[i];
    }
  }

  /** After SELECT_WEEK the payload is the only week carrying its id, and there is one. */
  lemma SelectWeekOnlyPayload(s: ContextState, p: WeekData)
    ensures HasWeek(Reduce(s, SelectWeek(p)).weeks, p.id)
    ensures forall i :: 0 <= i < |Reduce(s, SelectWeek(p)).weeks| && Reduce(s, SelectWeek(p)).weeks[i].id == p.id ==>
              Reduce(s, SelectWeek(p)).weeks[i] == p
  {
    SelectWeekSpec(s, p);
    var r := Reduce(s, SelectWeek(p)).weeks;
    if HasWeek(s.weeks, p.id) {
      var i :| 0 <= i < |s.weeks| && s.weeks[i].id == p.id;
      assert r[i] == p;
    } else {
      assert r[|s.weeks|] == p;
    }
  }

  /** After SELECT_WEEK the current week is the payload, unless its id is empty (falsy). */
  lemma SelectWeekThenCurrentWeek(s: ContextState, p: WeekData)
    ensures CurrentWeek(Reduce(s, SelectWeek(p))) == if p.id == "" then None else Some(p)
  {
    var r := Reduce(s, SelectWeek(p));
    assert r.currentWeekId == Some(p.id);
    if p.id != "" {
      SelectWeekOnlyPayload(s, p);
      var c := CurrentWeek(r);
      var k :| 0 <= k < |r.weeks| && r.weeks[k] == c.value;
    }
  }
}
