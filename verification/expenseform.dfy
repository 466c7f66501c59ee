/**
 The expense form of `src/components/expenses/ExpenseForm.tsx` as a state
 machine: its starting contents, the change handler and the submit
 handler. The save call is reported as a value (`Call`) and its outcome is
 a parameter (None when the save succeeds); `today` is the clock's day.
 */
module ExpenseForm {
  import opened Types
  import opened IsoDate
  import opened EntryForm

  datatype FormData = FormData(date: string, amount: real, category: Category, description: string)

  /** A form and its error record. */
  datatype Editing = Editing(form: FormData, errors: Errors)

  datatype Change =
    | DateChanged(text: string)
    | AmountChanged(text: string)
    | CategoryChanged(category: Category)
    | DescriptionChanged(text: string)

  /** The `name` attribute of the input a change comes from. */
  function FieldName(ch: Change): string
  {
    match ch
    case DateChanged(_) => "date"
    case AmountChanged(_) => "amount"
    case CategoryChanged(_) => "category"
    case DescriptionChanged(_) => "description"
  }

  /** The call a submit makes: none, `addExpense`, or `updateExpense`. */
  datatype Call = NoCall | Add(input: ExpenseInput) | Update(expense: Expense)

  /** The form, error record and call after a submit; `closed` when `onSubmit` runs. */
  datatype SubmitResult = SubmitResult(call: Call, form: FormData, errors: Errors, closed: bool)

  const SaveFailed := "Failed to save expense. Please try again."

  /** The blank form a successful save leaves: today's date, 0, fuel, no description. */
  function BlankForm(today: int): FormData
  {
    FormData(FormatDate(today), 0.0, Fuel, "")
  }

  /**
   The form's starting contents: the record's fields when editing, else the
   defaults (amount 0, category fuel, no description); the date comes from
   the record, else the current week's start, else today.
   */
  function InitialForm(record: Option<Expense>, currentWeek: Option<WeekData>, today: int): (f: FormData)
    ensures f.date != ""
    ensures record.None? ==> f.amount == 0.0 && f.category == Fuel && f.description == ""
    ensures record.Some? ==> f.amount == record.value.amount && f.category == record.value.category
  {
    var recordDate := if record.Some? then Some(record.value.date) else None;
    var weekStart := if currentWeek.Some? then Some(currentWeek.value.startDate) else None;
    var date := DefaultDate(recordDate, weekStart, FormatDate(today));
    match record
    case None => FormData(date, 0.0, Fuel, "")
    case Some(e) => FormData(date, e.amount, e.category, FormDescription(e.description))
  }

  /**
   `handleChange`: the changed field takes the new value (the amount through
   the parser, NaN stored as 0) and its error, if truthy, is cleared.
   */
  function HandleChange(st: Editing, ch: Change, parse: string -> Option<real>): (r: Editing)
    ensures forall k :: k != FieldName(ch) ==> (k in r.errors <==> k in st.errors)
    ensures forall k :: k != FieldName(ch) && k in st.errors ==> r.errors[k] == st.errors[k]
    ensures FieldName(ch) in r.errors ==> r.errors[FieldName(ch)] == ""
    ensures ch.AmountChanged? ==> r.form == st.form.(amount := StoredAmount(parse(ch.text)))
    ensures ch.DateChanged? ==> r.form == st.form.(date := ch.text)
    ensures ch.CategoryChanged? ==> r.form == st.form.(category := ch.category)
    ensures ch.DescriptionChanged? ==> r.form == st.form.(description := ch.text)
  {
    var form :=
      match ch
      case DateChanged(t) => st.form.(date := t)
      case AmountChanged(t) => st.form.(amount := StoredAmount(parse(t)))
      case CategoryChanged(c) => st.form.(category := c)
      case DescriptionChanged(t) => st.form.(description := t);
    Editing(form, ClearError(st.errors, FieldName(ch)))
  }

  /** `handleSubmit`. */
  function Submit(form: FormData, isEditing: bool, record: Option<Expense>, today: int, failure: Option<Failure>)
    : (r: SubmitResult)
    ensures r.call.NoCall? <==> !IsValid(form.date, form.amount)
    ensures r.call.NoCall? ==> r.form == form && r.errors == Validate(form.date, form.amount) && !r.closed
    ensures r.closed <==> !r.call.NoCall? && failure.None?
    ensures r.closed ==> r.form == BlankForm(today) && r.errors == map[]
  {
    var errors := Validate(form.date, form.amount);
    if |errors| != 0 then SubmitResult(NoCall, form, errors, false)
    else
      var input := ExpenseInput(form.date, form.amount, form.category, SubmittedDescription(form.description));
      var call :=
        if isEditing && record.Some? then
          var e := record.value;
          Update(Expense(e.id, e.weekId, e.userId, input.date, input.amount, input.category, input.description, None))
        else Add(input);
      match failure
      case None => SubmitResult(call, BlankForm(today), map[], true)
      case Some(f) => SubmitResult(call, form, map["submit" := FailureMessage(f, SaveFailed)], false)
  }

  /** An invalid form makes no call, reports a date error exactly when the date is empty and an amount error exactly when the amount is not positive. */
  lemma InvalidFormMakesNoCall(form: FormData, isEditing: bool, record: Option<Expense>, today: int, failure: Option<Failure>)
    requires form.date == "" || form.amount <= 0.0
    ensures Submit(form, isEditing, record, today, failure).call == NoCall
    ensures "date" in Submit(form, isEditing, record, today, failure).errors <==> form.date == ""
    ensures "amount" in Submit(form, isEditing, record, today, failure).errors <==> form.amount <= 0.0
  {
    ValidIff(form.date, form.amount);
  }

  /** A valid new entry is added with the form's fields and its normalised description. */
  lemma NewEntryAdded(form: FormData, isEditing: bool, record: Option<Expense>, today: int, failure: Option<Failure>)
    requires form.date != "" && form.amount > 0.0
    requires !isEditing || record.None?
    ensures Submit(form, isEditing, record, today, failure).call
            == Add(ExpenseInput(form.date, form.amount, form.category, SubmittedDescription(form.description)))
  {
    ValidIff(form.date, form.amount);
  }

  /**
   A valid edit sends the form's fields under the record's id, week id and
   user id; the payload carries no creation time.
   */
  lemma EditKeepsIdentity(form: FormData, record: Expense, today: int, failure: Option<Failure>)
    requires form.date != "" && form.amount > 0.0
    ensures var c := Submit(form, true, Some(record), today, failure).call;
      && c.Update?
      && c.expense.id == record.id && c.expense.weekId == record.weekId && c.expense.userId == record.userId
      && c.expense.date == form.date && c.expense.amount == form.amount && c.expense.category == form.category
      && c.expense.description == SubmittedDescription(form.description)
      && c.expense.createdAt.None?
  {
    ValidIff(form.date, form.amount);
  }

  /** A failed save keeps the form and shows the failure under `submit` only. */
  lemma FailedSaveKeepsForm(form: FormData, isEditing: bool, record: Option<Expense>, today: int, f: Failure)
    requires form.date != "" && form.amount > 0.0
    ensures Submit(form, isEditing, record, today, Some(f)).form == form
    ensures Submit(form, isEditing, record, today, Some(f)).errors == map["submit" := FailureMessage(f, SaveFailed)]
  {
    ValidIff(form.date, form.amount);
  }

  /**
   Opening a stored expense for editing and submitting it untouched sends the
   same expense back, less its creation time, as long as its amount is
   positive, its date non-empty and its description null or not blank.
   */
  lemma UntouchedEditRoundTrip(e: Expense, currentWeek: Option<WeekData>, today: int, failure: Option<Failure>)
    requires e.amount > 0.0 && e.date != ""
    requires e.description.None? || !JsString.AllWhitespace(e.description.value)
    ensures Submit(InitialForm(Some(e), currentWeek, today), true, Some(e), today, failure).call == Update(e.(createdAt := None))
  {
    var form := InitialForm(Some(e), currentWeek, today);
    assert form.date == e.date;
    ValidIff(form.date, form.amount);
    DescriptionRoundTrip(e.description);
  }
}
