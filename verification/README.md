# cash-truck core, modelled in Dafny

cash-truck is a small finance app for truck drivers. Drivers record
expenses (fuel, maintenance, other) and incomes. Each record belongs to a
Sunday-to-Saturday week bucket. The app shows weekly, monthly and yearly
rollups, a per-category breakdown and a profit margin.

This project models the app's pure core as immutable datatypes and total
functions, and proves properties of them:

- the week range resolver (`getWeekRange`) on integer day numbers, with a
  proleptic Gregorian calendar (module `Civil`) and the `YYYY-MM-DD` text
  the app stores dates as (module `IsoDate`);
- the aggregation engine (`calculationUtils.ts`): totals, net earnings, the
  category map, and the weekly, monthly and yearly rollups, including the
  rule that a week starting in one month and ending in another counts in
  both;
- the application reducer (`appReducer`) and the `currentWeek` lookup;
- find-or-create of a week bucket (`getOrCreateWeekData`, `initializeState`);
- the join of fetched weeks and records inside `loadUserData`;
- the two entry forms: validation, amount parsing, error clearing,
  description normalisation, the save call and what happens after it;
- the report period navigation, the newest-first record lists, the
  category badge and label;
- the expense breakdown and financial summary cards;
- the `.env` reader of `check-db.js`.

Assumptions:

- Dates are day numbers, with 1970-01-01 as day 0. All time arithmetic
  happens in a single zone with offset zero.
- Amounts are exact reals. `Math.round(x)` is `floor(x + 0.5)`.
- The clock ("now", "today"), generated ids, `parseFloat`, the backend's
  answers and the outcome of a save are parameters.
- `String.prototype.trim` and `split` are modelled in module `JsString`,
  with the ECMAScript whitespace set.

## Model

| member | source | states |
|---|---|---|
| Civil.CivilOf | src/utils/dateUtils.ts:24-26 | The calendar date of a day number is a valid date, and converting it back gives the same day number. |
| Civil.CivilOfDayNumber | src/utils/dateUtils.ts:24-26 | Converting a valid calendar date to a day number and back gives the date again, so the calendar is a bijection. |
| Civil.EpochIsNewYear1970 | src/utils/dateUtils.ts:24-26 | Day 0 is 1 January 1970. |
| Civil.YearUnique | src/utils/dateUtils.ts:24-26 | A day belongs to exactly one calendar year. |
| IsoDate.ParseDate | src/utils/calculationUtils.ts:70-76 | Reading a `YYYY-MM-DD` string with `new Date` yields only valid calendar dates. Malformed text, a month outside 1..12 and a day outside the month are invalid dates. |
| IsoDate.ParseFormatCivil | src/utils/dateUtils.ts:24-26 | Reading back the ISO text of a valid date with a representable year gives the same date. |
| IsoDate.ParseFormatDate | src/utils/dateUtils.ts:24-26 | Within the range of `Date`, reading back the formatted day gives the same day. |
| IsoDate.FormatDateInjective | src/utils/dateUtils.ts:24-26 | Within the range of `Date`, different days format to different strings. |
| IsoDate.YearTextParses | src/utils/dateUtils.ts:24-26 | The year field `toISOString` writes (four digits, or a sign and six digits) reads back as the same year. |
| DateUtils.Weekday | src/utils/dateUtils.ts:5 | `getDay` lies in 0..6. |
| DateUtils.GetWeekRange | src/utils/dateUtils.ts:4-19 | The range starts on a Sunday and ends on a Saturday six days later, and the input day lies inside it. |
| DateUtils.WeekRangeUnique | src/utils/dateUtils.ts:4-19 | The range is the only Sunday-started seven-day span that holds the day. |
| DateUtils.SameWeekIff | src/utils/dateUtils.ts:4-19 | Two days get the same range exactly when one lies inside the other's range. |
| DateUtils.WeekRangeIdempotent | src/utils/dateUtils.ts:4-19 | Resolving the start or the end of a range again gives the same range. |
| DateUtils.WeekRangeShift | src/utils/dateUtils.ts:4-19 | Moving the day by k weeks moves both ends of the range by 7k days. |
| DateUtils.WeekTextsReadBack | src/utils/dateUtils.ts:4-26 | Within the range of `Date`, a week's stored start and end strings read back as its Sunday and its Saturday. |
| DateUtils.WeekTextsIff | src/utils/dateUtils.ts:4-26 | Two days get the same stored start string exactly when they lie in the same week. |
| DateUtils.WeekLabel | src/utils/dateUtils.ts:43-45 | The label is the display text of the start, then " - ", then the display text of the end. |
| Calculation.TotalExpensesAppend | src/utils/calculationUtils.ts:6-8 | The empty list totals 0, and the total of a concatenation is the sum of the two totals. |
| Calculation.TotalIncomeAppend | src/utils/calculationUtils.ts:13-15 | The empty list totals 0, and the total of a concatenation is the sum of the two totals. |
| Calculation.TotalExpensesBounds | src/utils/calculationUtils.ts:6-8 | With no negative amount, the total is non-negative and at least every single amount. |
| Calculation.NetEarningsAdditive | src/utils/calculationUtils.ts:20-24 | Net earnings are 0 for no records and add up over concatenated record lists. |
| Calculation.ExpensesByCategoryKeys | src/utils/calculationUtils.ts:29-34 | The category map has a key exactly for each category that occurs. |
| Calculation.ExpensesByCategoryValues | src/utils/calculationUtils.ts:29-34 | Each value of the category map is the total of that category's expenses. |
| Calculation.ExpensesByCategorySpec | src/utils/calculationUtils.ts:29-34 | The category map has a key exactly for each category that occurs, and each value is the total of that category's expenses. |
| Calculation.CategoriesPartition | src/utils/calculationUtils.ts:29-34 | The three category totals add up to the total of all expenses. |
| Calculation.CategorySumIsTotal | src/utils/calculationUtils.ts:29-34 | The values of the category map sum to the total of expenses. |
| Calculation.NoneOfCategory | src/utils/calculationUtils.ts:29-34 | A category that does not occur has no expenses, so its map entry is absent. |
| Calculation.OfCategoryMembers | src/utils/calculationUtils.ts:29-34 | The expenses counted for a category are expenses of the list, and of that category. |
| Calculation.CategoryTotalBounds | src/utils/calculationUtils.ts:29-34 | With no negative amount, each category total lies between 0 and the total of all expenses. |
| Calculation.Summarize | src/utils/calculationUtils.ts:83-89 | Every rollup is consistent: net is income minus expenses, and the category map sums to the expense total. |
| Calculation.SummarizeEmpty | src/utils/calculationUtils.ts:83-89 | The rollup of no records is all zeros with an empty category map. |
| Calculation.WeeklySummary | src/utils/calculationUtils.ts:50-62 | The weekly summary is consistent and its totals are the week's own income and expense totals. |
| Calculation.PooledTotals | src/utils/calculationUtils.ts:80-85 | Pooling the records of several weeks totals the same as adding up their weekly totals. |
| Calculation.WeeksInMonth | src/utils/calculationUtils.ts:69-78 | A week is selected for a month exactly when its start or its end falls in that month of that year. |
| Calculation.WeeksInYear | src/utils/calculationUtils.ts:97-102 | A week is selected for a year exactly when its start year or its end year is that year. |
| Calculation.SelectionAppend | src/utils/calculationUtils.ts:69-102 | Selecting weeks from two lists in turn is selecting from the two together, so the selection keeps the weeks' order and repeated weeks, as `filter` does. |
| Calculation.MonthlySummarySpec | src/utils/calculationUtils.ts:67-90 | The monthly totals are the sums of the full weekly totals of the selected weeks. The count is at most the number of weeks, and it is 0 exactly when no week starts or ends in the month. Then every figure is 0 and the map is empty. |
| Calculation.WeekInYearIff | src/utils/calculationUtils.ts:69-102 | A week is selected for a year exactly when it is selected for one of its twelve months. |
| Calculation.MonthsWithinYear | src/utils/calculationUtils.ts:69-102 | Every week selected for a month of the year is selected for the year. |
| Calculation.SelectedRollup | src/utils/calculationUtils.ts:104-118 | The rollup of the selected weeks' pooled records adds up their weekly income and expense totals, and is all zeros with an empty category map when no week is selected. |
| Calculation.NoWeekInYear | src/utils/calculationUtils.ts:97-102 | No week is selected for a year exactly when no week starts or ends in that year. |
| Calculation.YearlySummarySpec | src/utils/calculationUtils.ts:95-119 | The yearly totals are the sums of the full weekly totals of the selected weeks. The count is at most the number of weeks, and it is 0 exactly when no week starts or ends in the year. Then every figure is 0. |
| Calculation.MonthEmptyWhenYearEmpty | src/utils/calculationUtils.ts:97-110 | When no week starts or ends in the year, no month of it counts a week. |
| Calculation.YearlyBreakdownSpec | src/utils/calculationUtils.ts:108-117 | The monthly breakdown has exactly 12 entries, and entry m is the monthly summary of month m. An empty year has twelve empty months. |
| Calculation.SpanningWeekCountsTwice | src/utils/calculationUtils.ts:74-76 | A week starting in one month and ending in another is selected for both months and both years. |
| Calculation.ReadsDec29 | src/utils/calculationUtils.ts:70 | The start date 2024-12-29 reads as 29 December 2024 (month 11). |
| Calculation.ReadsJan4 | src/utils/calculationUtils.ts:71 | The end date 2025-01-04 reads as 4 January 2025 (month 0). |
| Calculation.NewYearWeekExample | src/utils/calculationUtils.ts:69-102 | The week of 2024-12-29 to 2025-01-04 counts in December 2024, January 2025 and both years, and in no neighbouring month. |
| Calculation.WeeklySummaryExample | src/utils/calculationUtils.ts:50-62 | A week with fuel 100, other 50 and income 500 yields totals 500 and 150, net 350, and the map fuel 100, other 50. |
| Seqs.Map | src/context/AppContext.tsx:74-78 | `Array.prototype.map` keeps the length and applies the function at every position. |
| Seqs.Filter | src/context/AppContext.tsx:131-133 | `filter` keeps exactly the elements that pass, without adding any. |
| Seqs.FilterAppend | src/lib/supabaseService.ts:48-49 | Filtering distributes over concatenation. |
| Seqs.FilterKeepsAll | src/context/AppContext.tsx:131-133 | Filtering returns the whole list exactly when every element passes. |
| Seqs.FilterIdempotent | src/context/AppContext.tsx:124-150 | Filtering twice with the same test is filtering once. |
| Seqs.FirstIndexIs | src/utils/storageUtils.ts:64-66 | When element i satisfies the test and no earlier element does, the search finds index i. |
| Seqs.FirstIndex | src/utils/storageUtils.ts:64-66 | The index found is the first one satisfying the test, and none is found only when no element satisfies it. |
| Seqs.FindFirst | src/context/AppContext.tsx:177-179 | `find` returns nothing exactly when no element matches, and otherwise a matching element of the list. |
| Seqs.FindFirstIsFirst | src/lib/supabaseService.ts:55-58 | `find` returns the element at the first matching position. |
| AppReducer.Reduce | src/context/AppContext.tsx:51-168 | Only INITIALIZE and SELECT_WEEK change which weeks exist. Only INITIALIZE and SET_LOADING touch `loading`. Only INITIALIZE, SET_CURRENT_WEEK and SELECT_WEEK move the current week id. |
| AppReducer.CurrentWeek | src/context/AppContext.tsx:177-179 | The current week is a stored week carrying the truthy current week id. It is missing exactly when the id is falsy or names no week. |
| AppReducer.InitializeSpec | src/context/AppContext.tsx:56-57 | INITIALIZE takes the weeks and the current week id from the payload and clears `loading`. |
| AppReducer.SettersSpec | src/context/AppContext.tsx:59-66 | SET_LOADING changes only `loading`, and SET_CURRENT_WEEK changes only the current week id. |
| AppReducer.AddWithoutCurrentWeek | src/context/AppContext.tsx:68-84 | With a null or empty current week id, adding an expense or an income leaves the state unchanged. |
| AppReducer.AddExpenseSpec | src/context/AppContext.tsx:68-80 | ADD_EXPENSE appends the expense to each week carrying the current id and changes nothing else, keeping the week count. |
| AppReducer.AddIncomeSpec | src/context/AppContext.tsx:82-94 | ADD_INCOME appends the income to each week carrying the current id and changes nothing else, keeping the week count. |
| AppReducer.AddToMissingWeek | src/context/AppContext.tsx:74-92 | When the current week id names no week, an add is silently dropped. |
| AppReducer.AddToWeeksTotal | src/context/AppContext.tsx:74-78 | With unique ids, adding an expense to the weeks carrying an id raises the expense total over all weeks by the amount if such a week exists, and by 0 otherwise. |
| AppReducer.AddExpenseTotal | src/context/AppContext.tsx:68-80 | With unique week ids, ADD_EXPENSE raises the expense total over all weeks by exactly the amount added when the current week exists. |
| AppReducer.UpdateExpenseSpec | src/context/AppContext.tsx:96-108 | UPDATE_EXPENSE replaces every expense carrying the payload's id, in every week, keeping each list's length and order and every other field. |
| AppReducer.UpdateIncomeSpec | src/context/AppContext.tsx:110-122 | UPDATE_INCOME replaces every income carrying the payload's id, in place, and changes nothing else. |
| AppReducer.UpdateExpenseIdempotent | src/context/AppContext.tsx:96-108 | Applying the same UPDATE_EXPENSE twice is applying it once. |
| AppReducer.UpdateIncomeIdempotent | src/context/AppContext.tsx:110-122 | Applying the same UPDATE_INCOME twice is applying it once. |
| AppReducer.DeleteExpenseSpec | src/context/AppContext.tsx:124-136 | DELETE_EXPENSE leaves in each week exactly the expenses not carrying the id, in order. No expense with the id remains. |
| AppReducer.DeleteIncomeSpec | src/context/AppContext.tsx:138-150 | DELETE_INCOME leaves in each week exactly the incomes not carrying the id, in order. |
| AppReducer.DeleteExpenseIdempotent | src/context/AppContext.tsx:124-136 | Deleting the same expense id twice is deleting it once. |
| AppReducer.DeleteIncomeIdempotent | src/context/AppContext.tsx:138-150 | Deleting the same income id twice is deleting it once. |
| AppReducer.SelectWeekSpec | src/context/AppContext.tsx:152-163 | SELECT_WEEK replaces the weeks carrying the payload's id in place when there is one. Otherwise it appends the payload. Either way the payload's id becomes current. |
| AppReducer.SelectWeekKeepsIdsUnique | src/context/AppContext.tsx:152-163 | SELECT_WEEK keeps week ids unique. |
| AppReducer.SelectWeekOnlyPayload | src/context/AppContext.tsx:152-163 | After SELECT_WEEK a week with the payload's id exists, and every week with that id is the payload. |
| AppReducer.SelectWeekThenCurrentWeek | src/context/AppContext.tsx:152-179 | After SELECT_WEEK the current week is exactly the payload, unless the payload's id is empty. |
| StorageUtils.GetOrCreateWeekData | src/utils/storageUtils.ts:58-92 | The returned id is the new current week id, and it names a week stored under the date's range. The old weeks are a prefix of the new ones, and at most one week is added. |
| StorageUtils.ExistingWeekSelected | src/utils/storageUtils.ts:63-73 | When some week has the date's range, the weeks are unchanged and the first such week becomes current. |
| StorageUtils.NewWeekAppended | src/utils/storageUtils.ts:75-91 | Otherwise exactly one empty week with the date's range and the new id is appended and becomes current. |
| StorageUtils.SecondCallFindsWeek | src/utils/storageUtils.ts:58-92 | Asking again with any day of the same week finds the week the first call returned and changes nothing. |
| StorageUtils.KeepsRangesUnique | src/utils/storageUtils.ts:58-92 | Unique week ranges stay unique. |
| StorageUtils.InitializeState | src/utils/storageUtils.ts:37-53 | The initial state holds one empty week, and that week is current. |
| StorageUtils.InitializeIsGetOrCreate | src/utils/storageUtils.ts:37-53 | Initialising is finding-or-creating the week of "now" in an empty state. |
| UserData.OrEmpty | src/lib/supabaseService.ts:48-50 | A null fetch result becomes the empty list. |
| UserData.GroupByWeek | src/lib/supabaseService.ts:44-47 | One bucket per fetched week row, in fetched order, with the row's id and dates copied. |
| UserData.BucketContents | src/lib/supabaseService.ts:48-49 | Each bucket's records are the fetched records filed under its id, in fetched order and with their multiplicity. Every one is a fetched record, and every fetched record with that id is there. |
| UserData.OrphansDropped | src/lib/supabaseService.ts:44-50 | A record whose week id names no fetched week appears in no bucket. |
| UserData.FiledOnce | src/lib/supabaseService.ts:44-50 | With unique week ids, a record is filed in at most one bucket. |
| UserData.CurrentWeekId | src/lib/supabaseService.ts:53-63 | The current week id, when present, is non-empty and names a bucket stored under the range of "now". |
| UserData.CurrentWeekIsFirstMatch | src/lib/supabaseService.ts:53-63 | The current week id is the id of the first bucket with the range of "now", with an empty id read as null. |
| UserData.NoCurrentWeek | src/lib/supabaseService.ts:53-63 | With no bucket for the range of "now", the current week id is null. |
| UserData.NothingFetched | src/lib/supabaseService.ts:44-63 | With nothing fetched, the state has no weeks and no current week. |
| JsString.Trim | check-db.js:19 | `trim` returns a string no longer than its input that neither starts nor ends with whitespace. |
| JsString.TrimEmptyIff | src/components/expenses/ExpenseForm.tsx:96-99 | Trimming leaves nothing exactly when the string is all whitespace. |
| JsString.TrimIsSlice | check-db.js:19 | Trimming removes only leading and trailing whitespace. |
| JsString.TrimIdempotent | check-db.js:19 | Trimming twice is trimming once. |
| JsString.Split | check-db.js:16-17 | `split` yields at least one piece, and no piece contains the separator. |
| JsString.JoinSplit | check-db.js:16-17 | Joining the pieces of a split with the separator gives back the string. |
| JsString.SplitJoin | check-db.js:16-17 | Splitting separator-free pieces joined by the separator gives back the pieces. |
| JsString.SplitAfterFirst | check-db.js:17 | The first piece is the text before the first separator, and the rest are the pieces of the text after it. |
| EnvFile.LoadLines | check-db.js:16-21 | The key `__proto__` is never stored. |
| EnvFile.LoadEnv | check-db.js:10-28 | An unreadable file gives no variables. |
| EnvFile.LineEntryOf | check-db.js:16-19 | A line `key=value` reads as the trimmed key and value when both pieces are non-empty and is skipped otherwise. Text after a second `=` is dropped. |
| EnvFile.NoSeparatorSkipped | check-db.js:17-18 | A line without `=` sets nothing. |
| EnvFile.AssignSpec | check-db.js:19 | Storing an entry sets its key to its value, unless the key is `__proto__`, and changes no other key. A skipped line changes nothing. |
| EnvFile.StoreAll | check-db.js:16-21 | Storing the entries of all lines never stores the key `__proto__`. |
| EnvFile.StoreAllKeys | check-db.js:16-21 | After storing all entries, a key is present exactly when some entry sets it, `__proto__` excepted. |
| EnvFile.StoreAllLastWins | check-db.js:16-21 | After storing all entries, a key's value is the one given by the last entry that sets it. |
| EnvFile.BlankKeyKept | check-db.js:18-19 | A whitespace-only key passes the emptiness test and is stored as "". |
| EnvFile.BlankValueKept | check-db.js:18-19 | A whitespace-only value passes the emptiness test and is stored as "". |
| EnvFile.LoadLinesKeys | check-db.js:16-21 | A key is read exactly when some line sets it, `__proto__` excepted. |
| EnvFile.LastLineWins | check-db.js:16-21 | The value read for a key is the one given by the last line that sets it. |
| EntryForm.Validate | src/components/expenses/ExpenseForm.tsx:67-81 | There is a date error exactly when the date is empty, and an amount error exactly when the amount is not positive, with the source's messages and no other key. |
| EntryForm.ValidIff | src/components/income/IncomeForm.tsx:63-77 | A form passes validation exactly when its date is non-empty and its amount positive. |
| EntryForm.StoredAmount | src/components/expenses/ExpenseForm.tsx:44-50 | A NaN parse is stored as 0, and any other parse as the number read. |
| EntryForm.NonNumericAmountRejected | src/components/income/IncomeForm.tsx:40-70 | An amount the parser cannot read always fails validation with an amount error. |
| EntryForm.ClearError | src/components/expenses/ExpenseForm.tsx:58-64 | Changing a field empties that field's error if it has one, and keeps every other entry. |
| EntryForm.SubmittedDescription | src/components/expenses/ExpenseForm.tsx:96-99 | The description is null exactly when the text is empty or whitespace-only, and otherwise the untrimmed text. |
| EntryForm.FormDescription | src/components/expenses/ExpenseForm.tsx:31 | A null description loads into the form as "". |
| EntryForm.DescriptionRoundTrip | src/components/income/IncomeForm.tsx:29-94 | Loading a record's description into the form and submitting it gives it back, unless it is blank. |
| EntryForm.DefaultDate | src/components/expenses/ExpenseForm.tsx:25-28 | The form's date is the record's date, else the current week's start, else today, each taken when truthy. |
| ExpenseForm.InitialForm | src/components/expenses/ExpenseForm.tsx:25-31 | The starting date is never empty. A new form starts at amount 0, category fuel and no description. An edit starts with the record's amount and category. |
| ExpenseForm.HandleChange | src/components/expenses/ExpenseForm.tsx:44-64 | A change clears only its own field's error. The changed field takes the new value: the date or description text, the category, or the parsed amount. Every other field is kept. |
| ExpenseForm.Submit | src/components/expenses/ExpenseForm.tsx:83-131 | No call is made exactly when the form is invalid; then the form is kept and the validation errors shown. The form closes exactly when a call succeeded, and is then reset. |
| ExpenseForm.InvalidFormMakesNoCall | src/components/expenses/ExpenseForm.tsx:67-88 | An invalid form makes no call. It reports a date error exactly when the date is empty, and an amount error exactly when the amount is not positive. |
| ExpenseForm.NewEntryAdded | src/components/expenses/ExpenseForm.tsx:92-111 | A valid new entry is added with the form's fields and its normalised description. |
| ExpenseForm.EditKeepsIdentity | src/components/expenses/ExpenseForm.tsx:102-108 | A valid edit sends the new fields under the record's id, week id and user id, with no `created_at`. |
| ExpenseForm.FailedSaveKeepsForm | src/components/expenses/ExpenseForm.tsx:121-127 | A failed save keeps the form and shows the thrown message, or the fallback message, under `submit` only. |
| ExpenseForm.UntouchedEditRoundTrip | src/components/expenses/ExpenseForm.tsx:25-108 | Editing a stored expense and submitting it untouched sends the same expense back, less its `created_at`. |
| IncomeForm.InitialForm | src/components/income/IncomeForm.tsx:24-30 | The starting date is never empty. A new form starts at amount 0 and no description. An edit starts with the record's amount. |
| IncomeForm.HandleChange | src/components/income/IncomeForm.tsx:40-60 | A change clears only its own field's error. The changed field takes the new value: the date or description text, or the parsed amount. Every other field is kept. |
| IncomeForm.Submit | src/components/income/IncomeForm.tsx:79-125 | No call is made exactly when the form is invalid. The form closes, and is reset, exactly when a call succeeded. |
| IncomeForm.InvalidFormMakesNoCall | src/components/income/IncomeForm.tsx:63-84 | An invalid form triggers neither add nor update. Its date and amount errors are independent. |
| IncomeForm.NewEntryAdded | src/components/income/IncomeForm.tsx:88-106 | A valid new entry is added with the form's fields and its normalised description. |
| IncomeForm.EditKeepsIdentity | src/components/income/IncomeForm.tsx:97-103 | A valid edit sends the new fields under the record's id, week id and user id, with no `created_at`. |
| IncomeForm.FailedSaveKeepsForm | src/components/income/IncomeForm.tsx:115-121 | A failed save keeps the form and shows the failure under `submit` only. |
| IncomeForm.UntouchedEditRoundTrip | src/components/income/IncomeForm.tsx:24-103 | Editing a stored income and submitting it untouched sends the same income back, less its `created_at`. |
| Reports.PrevMonth | src/pages/Reports.tsx:15-22 | Going back a month keeps the month in 0..11 and lowers the month count by one, so January goes to December of the year before. |
| Reports.NextMonth | src/pages/Reports.tsx:24-31 | Going forward a month keeps the month in 0..11 and raises the month count by one, so December goes to January of the year after. |
| Reports.PrevYear | src/pages/Reports.tsx:34-36 | Year navigation back changes only the year, by -1. |
| Reports.NextYear | src/pages/Reports.tsx:38-40 | Year navigation forward changes only the year, by +1. |
| Reports.MonthIndexInjective | src/pages/Reports.tsx:15-31 | Valid periods with the same month count are equal. |
| Reports.PrevNextInverse | src/pages/Reports.tsx:15-31 | Next after previous, and previous after next, return to the same period. |
| Reports.TwelveMonthsIsAYear | src/pages/Reports.tsx:24-40 | Twelve steps forward by a month equal one step forward by a year. |
| NewestFirst.InsertPermutes | src/components/expenses/ExpenseList.tsx:20-22 | Inserting adds exactly the one record. |
| NewestFirst.InsertSorted | src/components/expenses/ExpenseList.tsx:20-22 | Inserting into a newest-first list keeps it newest first. |
| NewestFirst.Sort | src/components/expenses/ExpenseList.tsx:20-22 | The sorted list is a permutation of the input, newest first. |
| NewestFirst.InsertWithKey | src/components/expenses/ExpenseList.tsx:20-22 | Inserting a record puts it ahead of the records with its key and leaves the order of the rest of that key unchanged. |
| NewestFirst.SortStable | src/components/expenses/ExpenseList.tsx:20-22 | Sorting is stable, as `Array.prototype.sort` is: records with the same key keep their relative order. |
| ExpenseList.ExpenseView | src/components/expenses/ExpenseList.tsx:20-58 | No expenses show the message and no table. Otherwise the table holds every expense, newest first. |
| ExpenseList.ExpenseViewStable | src/components/expenses/ExpenseList.tsx:20-22 | Expenses of the same day keep the order in which they were given. |
| ExpenseList.CategoryBadge | src/components/expenses/ExpenseList.tsx:41-50 | The badge is amber exactly for fuel, blue exactly for maintenance, and gray otherwise. |
| ExpenseList.Capitalize | src/components/expenses/ExpenseList.tsx:91 | The label is the first character upper-cased followed by the rest unchanged. |
| ExpenseList.CategoryLabels | src/components/expenses/ExpenseList.tsx:91 | The three categories are labelled Fuel, Maintenance and Other. |
| ExpenseList.CapitalizeIdempotent | src/components/expenses/ExpenseList.tsx:91 | Capitalising a label again changes nothing. |
| IncomeList.IncomeView | src/components/income/IncomeList.tsx:20-46 | No incomes show the message. Otherwise the table holds every income, newest first. |
| IncomeList.IncomeViewStable | src/components/income/IncomeList.tsx:20-22 | Incomes of the same day keep the order in which they were given. |
| Dashboard.Round | src/components/dashboard/ExpenseBreakdown.tsx:42 | `Math.round` gives the integer nearest to x, rounding halves up. |
| Dashboard.Percentage | src/components/dashboard/ExpenseBreakdown.tsx:42 | A non-positive total gives 0. An amount between 0 and the total gives a share between 0 and 100. |
| Dashboard.CategoryOrder | src/components/dashboard/ExpenseBreakdown.tsx:41 | The keys of the category map are listed once each, exactly the categories that occur. |
| Dashboard.SumValuesListed | src/components/dashboard/ExpenseBreakdown.tsx:36 | Summing a map's values along duplicate-free keys adds each listed category's entry once. |
| Dashboard.SumValuesIsCategorySum | src/components/dashboard/ExpenseBreakdown.tsx:36 | Summing a map's values along its keys gives the sum of the map. |
| Dashboard.ExpenseBreakdown | src/components/dashboard/ExpenseBreakdown.tsx:10-12 | Nothing is shown exactly when there is no current week or it has no expenses. |
| Dashboard.Rows | src/components/dashboard/ExpenseBreakdown.tsx:41-42 | One row per listed category, in order, with its amount and its share of the total. |
| Dashboard.BreakdownTotal | src/components/dashboard/ExpenseBreakdown.tsx:14-36 | The total the shares are taken of is the total of the week's expenses. |
| Dashboard.BreakdownRowsDistinct | src/components/dashboard/ExpenseBreakdown.tsx:41 | No category gets two rows. |
| Dashboard.BreakdownRowsCover | src/components/dashboard/ExpenseBreakdown.tsx:41 | There is a row for a category exactly when some expense of the week has it. |
| Dashboard.BreakdownRowAmounts | src/components/dashboard/ExpenseBreakdown.tsx:41-42 | Each row holds its category's total and `round(amount / total * 100)`. |
| Dashboard.PercentagesBounded | src/components/dashboard/ExpenseBreakdown.tsx:42 | With no negative amount, every share lies in 0..100. |
| Dashboard.ProfitMargin | src/components/dashboard/FinancialSummary.tsx:42-44 | The margin is 0 when income is not positive. Otherwise it is at most 100 when net does not exceed income, and exactly 100 when they are equal. |
| Dashboard.FinancialSummary | src/components/dashboard/FinancialSummary.tsx:11-13 | Nothing is shown exactly when there is no current week. |
| Dashboard.FinancialSummarySpec | src/components/dashboard/FinancialSummary.tsx:15-44 | The cards show the week's income and expense totals and their difference. The margin is 0 without positive income, at most 100 with no negative expense, and exactly 100 with no expenses and positive income. |

## Left out

- The backend and authentication: every Supabase call, the async helpers of `AppContext.tsx` and the rest of `supabaseService.ts`. Their results enter the model as parameters.
- The connection and RLS checks of `check-db.js`, `databaseCheck.ts` and `debug.ts`: they only do I/O.
- `localStorage` (`loadState`, `saveState`): JSON persistence only.
- Id generation with `Date.now` and `Math.random`: ids are parameters.
- Time zones: one zone with offset zero is assumed. The source computes week ranges in local time and formats them in UTC; that drift is not modelled.
- `Date` parsing of anything but `YYYY-MM-DD` text, and V8's lenient forms: stored dates are always in that format.
- `getWeekNumber`, `formatCurrency`, `formatDateForDisplay`, `getCurrentMonthYear`, `getCurrentYear`: locale formatting and millisecond floating point. `DateUtils.WeekLabel` takes the display function as a parameter.
- Floating point: amounts are exact reals, so rounding error and `NaN`/`Infinity` amounts are out of scope.
- `parseFloat`'s prefix parsing: the parser is a parameter that returns a number or None for NaN.
- Rendering, modals, icons, the `loading` flag of the forms and the confirmation dialog before a delete.
- The report components and the dashboard's week navigation. They only branch on `numberOfWeeks` or shift dates by seven days; `DateUtils.WeekRangeShift` covers the shift.
- NewestFirst.Sort: records whose date does not parse are placed after all dated records. The source's comparator returns NaN for them, which `Array.prototype.sort` treats as "equal to everything", so their position there depends on the engine.
- ExpenseList.ExpenseView: the sort key is the stored date only, so same-day records keep their given order (`ExpenseList.ExpenseViewStable`). That is the order the source's stable sort gives.
- ExpenseList.UpperChar: `toUpperCase` is modelled on the ASCII letters only. Other characters are kept, which covers the three category names but not Unicode case mapping.
- Expense and Income: `created_at` is modelled as an optional text that the application never reads. An edit rebuilds the record without it, so `ExpenseForm.UntouchedEditRoundTrip` and `IncomeForm.UntouchedEditRoundTrip` give back the record less its `created_at`.
- Dashboard.CategoryOrder: the row order is the order in which categories first occur. That is the insertion order `Object.entries` uses for string keys; only the set of rows is stated about it.
- Dashboard.PercentagesBounded: shares are bounded only for non-negative amounts. With negative amounts the source's shares can leave 0..100, and the model does not constrain them.
- EnvFile.LoadEnv: a read failure gives the empty map, as the source does; the logged error message is not modelled.
- Civil.CivilOf and IsoDate.ParseDate cover every integer day. `Date`'s limit of 10^8 days either side of the epoch appears only as a precondition of the read-back lemmas (`IsoDate.InDateRange`); the `RangeError` beyond it is not modelled.
