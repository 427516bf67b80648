/** The add-expense page, `app/routes/add.tsx`: the server action that validates a submitted
    form and stores it with a normalised amount, and the keystroke handler that filters what
    may be typed and clears errors as fields are filled in. */
module AddRoute {
  import opened Common
  import opened Text
  import opened Amounts
  import opened Store

  /** The four inputs of the form, which are also the keys of its error object. */
  datatype Field = Description | Amount | Category | Date

  /** `Object.fromEntries(formData)`: each input's submitted value, `None` when missing. */
  datatype FormData = FormData(
    description: Option<string>, amount: Option<string>, category: Option<string>, date: Option<string>)

  const DescriptionRequired := "Description is required"
  const DescriptionSpecialChars := "No special characters allowed in description"
  const AmountRequired := "Amount is required"
  const AmountFormat := "Amount must be a number up to 2 decimal places"
  const CategoryRequired := "Category is required"
  const DateRequired := "Date is required"

  /** `[a-zA-Z0-9\s]`. */
  predicate IsDescriptionChar(c: char)
  {
    IsAsciiLetter(c) || IsDigit(c) || IsSpace(c)
  }

  /** The description pattern checked on submit, `^[a-zA-Z0-9\s]+$`. */
  predicate SubmitDescription(s: string)
  {
    |s| >= 1 && forall i :: 0 <= i < |s| ==> IsDescriptionChar(s[i])
  }

  /** The description pattern every keystroke must keep, `^[a-zA-Z0-9\s]*$`. */
  predicate KeystrokeDescription(s: string)
  {
    forall i :: 0 <= i < |s| ==> IsDescriptionChar(s[i])
  }

  /** Whether a field of the submitted form passes its check. */
  predicate FieldOk(data: FormData, f: Field)
  {
    match f
    case Description => Truthy(data.description) && SubmitDescription(data.description.value)
    case Amount => Truthy(data.amount) && SubmitAmount(data.amount.value)
    case Category => Truthy(data.category)
    case Date => Truthy(data.date)
  }

  predicate AllFieldsOk(data: FormData)
  {
    FieldOk(data, Description) && FieldOk(data, Amount) && FieldOk(data, Category) && FieldOk(data, Date)
  }

  /** The `errors` object the submit checks owe a form: an entry for exactly the failing
      fields, saying whether the field was missing or malformed. */
  predicate Reports(errors: map<Field, string>, data: FormData)
  {
    && (forall f :: f in errors <==> !FieldOk(data, f))
    && (Description in errors ==>
          errors[Description] == if Truthy(data.description) then DescriptionSpecialChars else DescriptionRequired)
    && (Amount in errors ==> errors[Amount] == if Truthy(data.amount) then AmountFormat else AmountRequired)
    && (Category in errors ==> errors[Category] == CategoryRequired)
    && (Date in errors ==> errors[Date] == DateRequired)
  }

  /** The submit checks, building the `errors` object one field at a time. */
  method Validate(data: FormData) returns (errors: map<Field, string>)
    ensures Reports(errors, data)
    ensures MessagesNonEmpty(errors)
  {
    errors := map[];
    if !Truthy(data.description) {
      errors := errors[Description := DescriptionRequired];
    } else if !SubmitDescription(data.description.value) {
      errors := errors[Description := DescriptionSpecialChars];
    }
    if !Truthy(data.amount) {
      errors := errors[Amount := AmountRequired];
    } else if !SubmitAmount(data.amount.value) {
      errors := errors[Amount := AmountFormat];
    }
    if !Truthy(data.category) {
      errors := errors[Category := CategoryRequired];
    }
    if !Truthy(data.date) {
      errors := errors[Date := DateRequired];
    }
  }

  /** `{ ...data, amount: parseFloat(data.amount).toFixed(2) }` for a form that passed. */
  function Formatted(data: FormData): Draft
    requires AllFieldsOk(data)
  {
    Draft(None, data.description.value, Normalize(data.amount.value), data.category.value, data.date.value)
  }

  /** What the action answers: the errors with the submitted values (status 400), or a
      redirect to the list. */
  datatype ActionResult = Invalid(errors: map<Field, string>, values: FormData) | Redirect

  /** The page's `action`: validate, then add the formatted record only when nothing failed. */
  method Action(store: ExpenseStore, data: FormData, now: int) returns (result: ActionResult)
    modifies store
    ensures result.Invalid? <==> !AllFieldsOk(data)
    ensures result.Invalid? ==> store.doc == old(store.doc) && result.values == data
    ensures result.Invalid? ==> Reports(result.errors, data) && MessagesNonEmpty(result.errors)
    ensures result.Redirect? ==> store.doc == old(store.doc) + [Stamp(Formatted(data), now)]
  {
    var errors := Validate(data);
    if |errors| > 0 {
      return Invalid(errors, data);
    }
    assert forall f :: FieldOk(data, f) by {
      forall f ensures FieldOk(data, f) {
        assert f !in errors;
      }
    }
    var created := store.AddExpense(Formatted(data), now);
    result := Redirect;
  }

  /** A stored amount has exactly two decimals and the value that was submitted. */
  lemma StoredAmountNormalised(data: FormData, now: int)
    requires AllFieldsOk(data)
    ensures var a := Stamp(Formatted(data), now).amount;
            SubmitAmount(a) && a[|a| - 3] == '.' && ParseCents(a) == ParseCents(data.amount.value)
    ensures Stamp(Formatted(data), now).id == now
  {
  }

  /** Every description accepted on submit passes the keystroke pattern, and that pattern
      admits every prefix of what it admits, so a valid description can be typed. */
  lemma DescriptionTypeable(s: string)
    requires SubmitDescription(s)
    ensures forall n :: 0 <= n <= |s| ==> KeystrokeDescription(s[..n])
  {
  }

  /** The controlled inputs' values, the `fields` state. */
  datatype Fields = Fields(description: string, amount: string, category: string, date: string)

  /** `{ ...prev, [name]: value }`. */
  function Put(fs: Fields, name: Field, value: string): Fields
  {
    match name
    case Description => fs.(description := value)
    case Amount => fs.(amount := value)
    case Category => fs.(category := value)
    case Date => fs.(date := value)
  }

  /** `v || fallback`. */
  function Restore(v: Option<string>, fallback: string): string
  {
    if Truthy(v) then v.value else fallback
  }

  /** Every error the form shows has a non-empty message, as all of `Validate`'s do. */
  predicate MessagesNonEmpty(errors: map<Field, string>)
  {
    forall f :: f in errors ==> errors[f] != ""
  }

  /** The client-side state of the form: the `fields` and `errors` state variables. */
  class AddForm {
    var fields: Fields
    var errors: map<Field, string>

    /** The state the form is mounted with: when the page loads with a rejected submission's
        answer, the values and errors the action sent back (a falsy value giving way to the
        empty string, and the date to `today`); otherwise empty fields, today's date and no
        errors. A form that is already mounted does not run this again. */
    constructor (answer: Option<ActionResult>, today: string)
      ensures answer.Some? && answer.value.Invalid? ==>
                && fields == Fields(Restore(answer.value.values.description, ""),
                                    Restore(answer.value.values.amount, ""),
                                    Restore(answer.value.values.category, ""),
                                    Restore(answer.value.values.date, today))
                && errors == answer.value.errors
      ensures !(answer.Some? && answer.value.Invalid?) ==> fields == Fields("", "", "", today) && errors == map[]
    {
      if answer.Some? && answer.value.Invalid? {
        var values := answer.value.values;
        fields := Fields(Restore(values.description, ""), Restore(values.amount, ""),
                         Restore(values.category, ""), Restore(values.date, today));
        errors := answer.value.errors;
      } else {
        fields := Fields("", "", "", today);
        errors := map[];
      }
    }

    /** `handleChange`: a description keystroke outside its pattern is ignored; an amount
        keystroke is kept only if it matches its pattern and never touches the errors; any
        other change is kept, and clears that field's error when the new value is not blank. */
    method HandleChange(name: Field, value: string)
      modifies this
      ensures name == Description && !KeystrokeDescription(value) ==>
                fields == old(fields) && errors == old(errors)
      ensures name == Amount ==> errors == old(errors)
      ensures name == Amount ==>
                fields == if KeystrokeAmount(value) then Put(old(fields), Amount, value) else old(fields)
      ensures name != Amount && (name == Description ==> KeystrokeDescription(value)) ==>
                && fields == Put(old(fields), name, value)
                && errors == if name in old(errors) && old(errors)[name] != "" && !IsBlank(value)
                             then old(errors) - {name} else old(errors)
    {
      if name == Description && !KeystrokeDescription(value) {
        return;
      }
      if name == Amount {
        if !KeystrokeAmount(value) {
          return;
        }
        fields := Put(fields, name, value);
        return;
      }
      fields := Put(fields, name, value);
      if name in errors && errors[name] != "" && !IsBlank(value) {
        errors := errors - {name};
      }
    }
  }

  /** Typing a non-blank value that passes the filter into any field but the amount removes
      that field's error and keeps the others. */
  method ErrorClearing(form: AddForm, name: Field, value: string)
    modifies form
    requires MessagesNonEmpty(form.errors)
    requires name != Amount && !IsBlank(value) && (name == Description ==> KeystrokeDescription(value))
    ensures MessagesNonEmpty(form.errors)
    ensures name !in form.errors
    ensures forall f :: f != name ==> (f in form.errors <==> f in old(form.errors))
  {
    form.HandleChange(name, value);
  }

  /** A rejected submission stores nothing; when its answer loads the page afresh, the form
      is mounted with the action's errors, and typing a non-blank value that passes the filter
      into description, category or date then clears that field's error, while the other
      failing fields keep theirs. */
  method RejectThenCorrect(store: ExpenseStore, data: FormData, now: int, today: string, name: Field, value: string)
    returns (form: AddForm)
    modifies store
    requires !AllFieldsOk(data)
    requires name != Amount && !IsBlank(value) && (name == Description ==> KeystrokeDescription(value))
    ensures store.doc == old(store.doc)
    ensures name !in form.errors
    ensures forall f :: f != name ==> (f in form.errors <==> !FieldOk(data, f))
  {
    var answer := Action(store, data, now);
    form := new AddForm(Some(answer), today);
    ErrorClearing(form, name, value);
  }
}
