/**
 Find-or-create of the week bucket holding a date, from
 `src/utils/storageUtils.ts`. The clock and the id generator are
 parameters: `date` is the day the caller asks about and `newId` the id
 a freshly created week would get.
 */
module StorageUtils {
  import opened Types
  import opened Seqs
  import opened IsoDate
  import opened DateUtils

  datatype WeekResult = WeekResult(updatedState: AppState, weekId: string)

  /** The empty week bucket for the Sunday-to-Saturday range holding `date`. */
  function NewWeek(id: string, date: int): WeekData
  {
    WeekData(id, WeekStartText(date), WeekEndText(date), [], [])
  }

  /**
   `getOrCreateWeekData`: select the first week stored under the range of
   `date`, or append a new empty one; either way the returned id is the
   new current week id.
   */
  function GetOrCreateWeekData(s: AppState, date: int, newId: string): (r: WeekResult)
    ensures r.updatedState.currentWeekId == Some(r.weekId)
    ensures s.weeks <= r.updatedState.weeks && |r.updatedState.weeks| <= |s.weeks| + 1
    ensures exists i :: 0 <= i < |r.updatedState.weeks| && r.updatedState.weeks[i].id == r.weekId
              && HasRange(r.updatedState.weeks[i], WeekStartText(date), WeekEndText(date))
  {
    var st, en := WeekStartText(date), WeekEndText(date);
    match FirstIndex(s.weeks, (w: WeekData) => HasRange(w, st, en))
    case Some(i) =>
      WeekResult(s.(currentWeekId := Some(s.weeks[i].id)), s.weeks[i].id)
    case None =>
      var weeks := s.weeks + [NewWeek(newId, date)];
      assert weeks[|s.weeks|] == NewWeek(newId, date);
      WeekResult(AppState(weeks, Some(newId)), newId)
  }

  /**
   When some week is stored under the range of `date`, the weeks are left as
   they are and the first such week becomes current.
   */
  lemma ExistingWeekSelected(s: AppState, date: int, newId: string, i: int)
    requires 0 <= i < |s.weeks| && HasRange(s.weeks[i], WeekStartText(date), WeekEndText(date))
    requires forall j :: 0 <= j < i ==> !HasRange(s.weeks[j], WeekStartText(date), WeekEndText(date))
    ensures GetOrCreateWeekData(s, date, newId).updatedState == s.(currentWeekId := Some(s.weeks[i].id))
    ensures GetOrCreateWeekData(s, date, newId).weekId == s.weeks[i].id
  {
    var st, en := WeekStartText(date), WeekEndText(date);
    FirstIndexIs(s.weeks, (w: WeekData) => HasRange(w, st, en), i);
  }

  /** Otherwise exactly one new empty week, under the range of `date`, is appended and becomes current. */
  lemma NewWeekAppended(s: AppState, date: int, newId: string)
    requires forall j :: 0 <= j < |s.weeks| ==> !HasRange(s.weeks[j], WeekStartText(date), WeekEndText(date))
    ensures GetOrCreateWeekData(s, date, newId) == WeekResult(AppState(s.weeks + [NewWeek(newId, date)], Some(newId)), newId)
  {
  }

  /**
   Asking again, with any day of the same week and any fresh id, finds the
   week the first call returned and changes nothing: no duplicate range.
   */
  lemma SecondCallFindsWeek(s: AppState, d1: int, id1: string, d2: int, id2: string)
    requires GetWeekRange(d1) == GetWeekRange(d2)
    ensures var r1 := GetOrCreateWeekData(s, d1, id1);
            GetOrCreateWeekData(r1.updatedState, d2, id2) == r1
  {
    var st, en := WeekStartText(d1), WeekEndText(d1);
    var f := (w: WeekData) => HasRange(w, st, en);
    var r1 := GetOrCreateWeekData(s, d1, id1);
    var ws := r1.updatedState.weeks;
    match FirstIndex(s.weeks, f)
    case Some(i) =>
      ExistingWeekSelected(r1.updatedState, d2, id2, i);
    case None =>
      assert ws[|s.weeks|] == NewWeek(id1, d1);
      ExistingWeekSelected(r1.updatedState, d2, id2, |s.weeks|);
  }

  /** Unique week ranges stay unique. */
  lemma KeepsRangesUnique(s: AppState, date: int, newId: string)
    requires UniqueRanges(s.weeks)
    ensures UniqueRanges(GetOrCreateWeekData(s, date, newId).updatedState.weeks)
  {
    var st, en := WeekStartText(date), WeekEndText(date);
    var ws := GetOrCreateWeekData(s, date, newId).updatedState.weeks;
    if FirstIndex(s.weeks, (w: WeekData) => HasRange(w, st, en)).None? {
      assert ws == s.weeks + [NewWeek(newId, date)];
      forall i, j | 0 <= i < j < |ws|
        ensures (ws[i].startDate, ws[i].endDate) != (ws[j].startDate, ws[j].endDate)
      {
        if j == |s.weeks| {
          assert !HasRange(s.weeks[i], st, en);
        }
      }
    }
  }

  /** `initializeState`: a single empty week, the one holding `now`, which is current. */
  function InitializeState(now: int, newId: string): (r: AppState)
    ensures |r.weeks| == 1 && r.weeks[0].expenses == [] && r.weeks[0].incomes == []
    ensures r.currentWeekId == Some(r.weeks[0].id)
  {
    var week := NewWeek(newId, now);
    AppState([week], Some(newId))
  }

  /** Initialising is finding-or-creating the week of `now` in an empty state. */
  lemma InitializeIsGetOrCreate(now: int, newId: string)
    ensures InitializeState(now, newId) == GetOrCreateWeekData(AppState([], None), now, newId).updatedState
  {
    NewWeekAppended(AppState([], None), now, newId);
  }
}
