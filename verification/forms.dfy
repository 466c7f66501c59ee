/**
 The entry logic shared by the expense form and the income form
 (`src/components/expenses/ExpenseForm.tsx`,
 `src/components/income/IncomeForm.tsx`): validation, the amount parser's
 fallback, per-field error clearing, description normalisation and the
 date default. `parseFloat` is a parameter: it yields a number or None
 for NaN.
 */
module EntryForm {
  import opened Types
  import opened JsString

  /** The error record of a form: field name to message. */
  type Errors = map<string, string>

  const DateRequired := "Date is required"
  const AmountNotPositive := "Amount must be greater than zero"

  /** `validateForm`'s error record for a form holding this date and amount. */
  function Validate(date: string, amount: real): (errors: Errors)
    ensures "date" in errors <==> date == ""
    ensures "amount" in errors <==> amount <= 0.0
    ensures forall k :: k in errors ==> k == "date" || k == "amount"
    ensures "date" in errors ==> errors["date"] == DateRequired
    ensures "amount" in errors ==> errors["amount"] == AmountNotPositive
  {
    var dateErrors: Errors := if date == "" then map["date" := DateRequired] else map[];
    if amount <= 0.0 then dateErrors["amount" := AmountNotPositive] else dateErrors
  }

  /** `validateForm`'s verdict: no key in the error record. */
  predicate IsValid(date: string, amount: real)
  {
    |Validate(date, amount)| == 0
  }

  /** A form passes validation exactly when its date is non-empty and its amount positive. */
  lemma ValidIff(date: string, amount: real)
    ensures IsValid(date, amount) <==> date != "" && amount > 0.0
  {
    var errors := Validate(date, amount);
    if date == "" {
      assert "date" in errors;
    } else if amount <= 0.0 {
      assert "amount" in errors;
    } else {
      assert errors.Keys == {};
    }
  }

  /** The amount `handleChange` stores for a `parseFloat` result: NaN becomes 0. */
  function StoredAmount(parsed: Option<real>): (amount: real)
    ensures parsed.None? ==> amount == 0.0
    ensures parsed.Some? ==> amount == parsed.value
  {
    match parsed
    case None => 0.0
    case Some(v) => v
  }

  /** Text the parser cannot read is stored as 0 and so always fails validation with an amount error. */
  lemma NonNumericAmountRejected(date: string, parsed: Option<real>)
    requires parsed.None?
    ensures !IsValid(date, StoredAmount(parsed))
    ensures "amount" in Validate(date, StoredAmount(parsed))
  {
    ValidIff(date, StoredAmount(parsed));
  }

  /**
   The error clearing of `handleChange`: a truthy error under the changed
   field becomes "", every other entry is kept as it was.
   */
  function ClearError(errors: Errors, name: string): (r: Errors)
    ensures forall k :: k != name ==> (k in r <==> k in errors)
    ensures forall k :: k != name && k in errors ==> r[k] == errors[k]
    ensures name in r <==> name in errors
    ensures name in r ==> r[name] == ""
  {
    if name in errors && errors[name] != "" then errors[name := ""] else errors
  }

  /**
   The description submitted for the text in the form: null when the text is
   empty or whitespace only, otherwise the text itself, untrimmed.
   */
  function SubmittedDescription(text: string): (r: Option<string>)
    ensures r.None? <==> AllWhitespace(text)
    ensures r.Some? ==> r.value == text
  {
    TrimEmptyIff(text);
    if text != "" && Trim(text) != "" then Some(text) else None
  }

  /** The description a record loads into the form: `description || ""`. */
  function FormDescription(d: Option<string>): (text: string)
    ensures d.Some? ==> text == d.value
    ensures d.None? ==> text == ""
  {
    match d
    case None => ""
    case Some(t) => t
  }

  /** A record's description survives loading into the form and submitting, unless it is blank. */
  lemma DescriptionRoundTrip(d: Option<string>)
    ensures SubmittedDescription(FormDescription(d)) == if d.Some? && !AllWhitespace(d.value) then d else None
  {
  }

  /**
   The form's starting date: the record's date when truthy, else the start of
   the current week when truthy, else today's date.
   */
  function DefaultDate(recordDate: Option<string>, weekStart: Option<string>, today: string): (r: string)
    ensures Truthy(recordDate) ==> r == recordDate.value
    ensures !Truthy(recordDate) && Truthy(weekStart) ==> r == weekStart.value
    ensures !Truthy(recordDate) && !Truthy(weekStart) ==> r == today
  {
    if Truthy(recordDate) then recordDate.value
    else if Truthy(weekStart) then weekStart.value
    else today
  }

  /** What a failed save threw: an `Error` with its message, or something else. */
  datatype Failure = ErrorThrown(message: string) | OtherThrown

  /** The message shown under the `submit` key after a failed save. */
  function FailureMessage(f: Failure, fallback: string): string
  {
    match f
    case ErrorThrown(m) => m
    case OtherThrown => fallback
  }
}
