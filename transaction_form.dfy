/** The new-entry form: a record of field values that the inputs change one
    at a time (choosing the transfer category also clears the
    sub-category), and a submit that hands a transaction on and then clears
    the amount, the notes and the description. */
module TransactionForm {
  import opened Common
  import opened Text
  import opened Ledger
  import opened ApiMapping
  import opened OptionLists

  /** The amount is the number 0 until the amount input is used; from then
      on it is the input's text, which a number input keeps either empty or
      a number. */
  datatype FormAmount = NumberValue(n: int) | TypedValue(text: string)

  /** What a number input can hold. */
  predicate NumberInputText(s: string)
  {
    s == "" || ParseNumber(s).Some?
  }

  predicate WellTyped(a: FormAmount)
  {
    a.TypedValue? ==> NumberInputText(a.text)
  }

  /** `Number(formData.amount)`: the empty text is 0. */
  function AmountValue(a: FormAmount): int
  {
    match a
    case NumberValue(n) => n
    case TypedValue(s) => if s != "" && ParseNumber(s).Some? then ParseNumber(s).value else 0
  }

  /** `!!formData.amount`: the number 0 and the empty text are falsy, every
      other text (also "0") is truthy. */
  predicate AmountTruthy(a: FormAmount)
  {
    match a
    case NumberValue(n) => n != 0
    case TypedValue(s) => s != ""
  }

  datatype FormData = FormData(
    date: string,
    account: string,
    category: string,
    subCategory: string,
    notes: string,
    amount: FormAmount,
    name: string,
    description: string)

  datatype FormField =
    | DateField | AccountField | CategoryField | SubCategoryField
    | NotesField | AmountField | NameField | DescriptionField

  /** The text a field shows; the amount shows `formData.amount || ''`, so a
      falsy amount (the number 0 or the empty text) shows as empty. */
  function FieldText(d: FormData, field: FormField): (r: string)
    ensures field == AmountField ==> (r == "" <==> !AmountTruthy(d.amount))
  {
    match field
    case DateField => d.date
    case AccountField => d.account
    case CategoryField => d.category
    case SubCategoryField => d.subCategory
    case NotesField => d.notes
    case AmountField =>
      if !AmountTruthy(d.amount) then ""
      else if d.amount.TypedValue? then d.amount.text
      else IntToString(d.amount.n)
    case NameField => d.name
    case DescriptionField => d.description
  }

  /** `{ ...prev, [field]: value }`: the field takes the value and no other
      field changes. */
  function WithField(d: FormData, field: FormField, value: string): (r: FormData)
    ensures FieldText(r, field) == value
    ensures forall other :: other != field ==> FieldText(r, other) == FieldText(d, other)
    ensures field != AmountField ==> r.amount == d.amount
    ensures field == AmountField ==> r.amount == TypedValue(value)
  {
    match field
    case DateField => d.(date := value)
    case AccountField => d.(account := value)
    case CategoryField => d.(category := value)
    case SubCategoryField => d.(subCategory := value)
    case NotesField => d.(notes := value)
    case AmountField => d.(amount := TypedValue(value))
    case NameField => d.(name := value)
    case DescriptionField => d.(description := value)
  }

  /** The first entry of an option list; an empty list gives "". In the
      form an empty list gives `undefined` (TransactionForm.tsx:27-32), and
      the field is then absent from the submitted transaction; the model
      has it as the empty text. */
  function FirstOr(list: seq<string>): string
  {
    if list == [] then "" else list[0]
  }

  /** The guard as the form writes it: a truthy amount and a date. */
  predicate GuardAsWritten(d: FormData)
  {
    AmountTruthy(d.amount) && d.date != ""
  }

  /** The guard the form means: a non-zero amount and a date. */
  predicate SubmitAllowed(d: FormData)
  {
    AmountValue(d.amount) != 0 && d.date != ""
  }

  /** The transaction a submit hands on. */
  function Submitted(d: FormData, id: string): (t: ClientTransaction)
    ensures t.id == id && t.date == d.date && t.account == d.account && t.subCategory == d.subCategory
    ensures t.name == d.name && t.notes == d.notes && t.description == d.description
    ensures CategoryName(t.category) == d.category
    ensures t.amount == AmountValue(d.amount)
  {
    CategoryNameRoundTrip(d.category);
    ClientTransaction(id, d.date, d.account, ParseCategory(d.category), d.subCategory, d.notes,
                      AmountValue(d.amount), d.name, d.description)
  }

  /** The form after a submit: amount 0, notes and description empty. */
  function Cleared(d: FormData): FormData
  {
    d.(amount := NumberValue(0), notes := "", description := "")
  }

  /** A submit keeps the date, account, category, sub-category and name,
      and the cleared form cannot be submitted again before a new amount
      is typed. */
  lemma ClearedMeaning(d: FormData)
    ensures var c := Cleared(d);
      c.date == d.date && c.account == d.account && c.category == d.category
      && c.subCategory == d.subCategory && c.name == d.name
      && c.notes == "" && c.description == "" && AmountValue(c.amount) == 0
    ensures !SubmitAllowed(Cleared(d)) && !GuardAsWritten(Cleared(d))
    ensures forall f :: f != AmountField && f != NotesField && f != DescriptionField ==>
      FieldText(Cleared(d), f) == FieldText(d, f)
    ensures FieldText(Cleared(d), AmountField) == ""
  {
  }

  /** The text "0" passes the written guard, so a zero amount is handed
      on, which the server then refuses. */
  lemma ZeroTextPassesGuard(d: FormData, id: string)
    requires d.date != "" && d.amount == TypedValue("0")
    ensures GuardAsWritten(d)
    ensures Submitted(d, id).amount == 0
    ensures !SubmitAllowed(d)
  {
    assert IsIntegerText("0");
    assert DigitsValue("0") == 0;
  }

  /** The meant guard is the written one together with a non-zero
      submitted amount. */
  lemma SubmitAllowedMeaning(d: FormData, id: string)
    ensures SubmitAllowed(d) <==> GuardAsWritten(d) && Submitted(d, id).amount != 0
  {
  }

  class FormState {
    var formData: FormData

    predicate Valid()
      reads this
    {
      WellTyped(formData.amount)
    }

    /** The initial form: today's date, the first entry of each list, no
        notes, no description, amount 0. */
    constructor (today: string, options: OptionState)
      ensures Valid()
      ensures formData == FormData(
        today, FirstOr(options.accounts), FirstOr(options.categories), FirstOr(options.subCategories),
        "", NumberValue(0), FirstOr(options.names), "")
    {
      formData := FormData(
        today, FirstOr(options.accounts), FirstOr(options.categories), FirstOr(options.subCategories),
        "", NumberValue(0), FirstOr(options.names), "");
    }

    /** `handleChange`: choosing the transfer category also clears the
        sub-category. */
    method HandleChange(field: FormField, value: string)
      requires Valid()
      requires field == AmountField ==> NumberInputText(value)
      modifies this
      ensures Valid()
      ensures field == CategoryField && value == TRANSFER_NAME ==>
        formData == WithField(old(formData), field, value).(subCategory := "")
      ensures !(field == CategoryField && value == TRANSFER_NAME) ==>
        formData == WithField(old(formData), field, value)
    {
      var next := WithField(formData, field, value);
      if field == CategoryField && value == TRANSFER_NAME {
        next := next.(subCategory := "");
      }
      formData := next;
    }

    /** `handleSubmit`, with the meant guard: without a non-zero amount or
        a date nothing happens; otherwise the transaction is handed on and
        the form is cleared. */
    method HandleSubmit(id: string) returns (submitted: Option<ClientTransaction>)
      requires Valid()
      modifies this
      ensures Valid()
      ensures !SubmitAllowed(old(formData)) ==> submitted.None? && formData == old(formData)
      ensures SubmitAllowed(old(formData)) ==>
        submitted == Some(Submitted(old(formData), id)) && formData == Cleared(old(formData))
    {
      if !SubmitAllowed(formData) {
        return None;
      }
      submitted := Some(Submitted(formData, id));
      formData := Cleared(formData);
    }
  }

  /** Choosing the transfer category leaves the sub-category empty and
      changes nothing else besides the category; any other change touches
      only its own field. */
  lemma ChangeMeaning(d: FormData, field: FormField, value: string)
    ensures var r := WithField(d, field, value).(subCategory := "");
      field == CategoryField ==>
        r.category == value && r.subCategory == ""
        && forall f :: f != CategoryField && f != SubCategoryField ==> FieldText(r, f) == FieldText(d, f)
  {
  }
}
