/** The client's view of the API: an error response becomes its body text
    (or a fixed message when the body is empty), and each transaction the
    server sends is mapped to the client's record, with every missing part
    replaced by a default. */
module ApiMapping {
  import opened Common
  import opened Text
  import opened Ledger

  // ---------------------------------------------------------------------------
  // Responses

  datatype Response = Response(ok: bool, body: string)

  datatype Reply = Body(text: string) | RequestError(message: string)

  const REQUEST_FAILED: string := "Request failed"

  /** `handleResponse`. */
  function HandleResponse(res: Response): (r: Reply)
    ensures res.ok <==> r.Body?
    ensures r.Body? ==> r.text == res.body
    ensures r.RequestError? ==> r.message != ""
    ensures r.RequestError? && res.body != "" ==> r.message == res.body
  {
    if !res.ok then RequestError(if res.body == "" then REQUEST_FAILED else res.body) else Body(res.body)
  }

  // ---------------------------------------------------------------------------
  // Transactions as the server sends them

  /** The JSON amount: a number, a decimal text, or null. */
  datatype ApiAmount = NumberAmount(value: int) | TextAmount(text: string) | NullAmount

  datatype ApiSubcategory = ApiSubcategory(name: Option<string>, categoryName: Option<string>)

  datatype ApiTransaction = ApiTransaction(
    id: string,
    txnDate: Option<string>,
    amount: ApiAmount,
    notes: Option<string>,
    description: Option<string>,
    accountName: Option<string>,
    subcategory: Option<ApiSubcategory>,
    fullName: Option<string>)

  /** The client's transaction record: dates as `YYYY-MM-DD` text. */
  datatype ClientTransaction = ClientTransaction(
    id: string,
    date: string,
    account: string,
    category: Category,
    subCategory: string,
    notes: string,
    amount: int,
    name: string,
    description: string)

  function OrDefault(o: Option<string>, default: string): string
  {
    if o.Some? then o.value else default
  }

  /** `Number(api.amount) || 0`: a text that is not a number, and null, give 0. */
  function AmountNumber(a: ApiAmount): (r: int)
    ensures a.NullAmount? ==> r == 0
    ensures a.NumberAmount? ==> r == a.value
    ensures a.TextAmount? && IsIntegerText(Trim(a.text)) ==> Some(r) == ParseNumber(Trim(a.text))
    ensures a.TextAmount? && !IsIntegerText(Trim(a.text)) ==> r == 0
  {
    match a
    case NumberAmount(n) => n
    case TextAmount(s) => var v := ParseNumber(Trim(s)); if v.Some? then v.value else 0
    case NullAmount => 0
  }

  /** `mapApiTransaction`. */
  function MapApiTransaction(api: ApiTransaction): (r: ClientTransaction)
    ensures r.id == api.id && r.name == OrDefault(api.fullName, "")
    ensures api.txnDate.None? ==> r.date == ""
    ensures api.txnDate.Some? ==> 'T' !in r.date && StartsWith(api.txnDate.value, r.date)
    ensures api.txnDate.Some? ==>
      r.date == api.txnDate.value || (|r.date| < |api.txnDate.value| && api.txnDate.value[|r.date|] == 'T')
    ensures r.amount == AmountNumber(api.amount)
    ensures r.category == ParseCategory(
      if api.subcategory.Some? then OrDefault(api.subcategory.value.categoryName, EXPENSE_NAME) else EXPENSE_NAME)
    ensures api.accountName.None? ==> r.account == ""
    ensures api.notes.None? ==> r.notes == ""
    ensures api.description.None? ==> r.description == ""
    ensures api.subcategory.None? ==> r.subCategory == "" && r.category == Expense
    ensures api.accountName.Some? ==> r.account == api.accountName.value
    ensures api.notes.Some? ==> r.notes == api.notes.value
    ensures api.description.Some? ==> r.description == api.description.value
    ensures api.subcategory.Some? ==> r.subCategory == OrDefault(api.subcategory.value.name, "")
  {
    var date :=
      if api.txnDate.Some? then (SplitFirstIsPrefix(api.txnDate.value, 'T'); Split(api.txnDate.value, 'T')[0])
      else "";
    var sub := api.subcategory;
    ClientTransaction(
      api.id, date, OrDefault(api.accountName, ""),
      ParseCategory(if sub.Some? then OrDefault(sub.value.categoryName, EXPENSE_NAME) else EXPENSE_NAME),
      if sub.Some? then OrDefault(sub.value.name, "") else "",
      OrDefault(api.notes, ""), AmountNumber(api.amount), OrDefault(api.fullName, ""),
      OrDefault(api.description, ""))
  }

  /** The first piece of a split is a prefix of the text: all of it, or
      the whole stretch before the first separator. */
  lemma {:induction false} SplitFirstIsPrefix(s: string, sep: char)
    ensures StartsWith(s, Split(s, sep)[0])
    ensures Split(s, sep)[0] == s || (|Split(s, sep)[0]| < |s| && s[|Split(s, sep)[0]|] == sep)
    decreases |s|
  {
    if s != [] && s[0] != sep {
      SplitFirstIsPrefix(s[1..], sep);
      var rest := Split(s[1..], sep);
      assert s[..1 + |rest[0]|] == [s[0]] + s[1..][..|rest[0]|];
    }
  }

  // ---------------------------------------------------------------------------
  // The round trip through the API

  /** How the server sends a stored record: the date as an ISO timestamp at
      midnight UTC, the amount as decimal text, every relation present. */
  function ApiOf(t: Transaction): ApiTransaction
  {
    ApiTransaction(
      t.id, Some(IsoText(t.date) + "T00:00:00.000Z"), TextAmount(IntToString(t.amount)),
      Some(t.notes), Some(t.description), Some(t.account),
      Some(ApiSubcategory(Some(t.subCategory), Some(CategoryName(t.category)))), Some(t.name))
  }

  /** The date part of the server's timestamp is the stored date's ISO text. */
  lemma StampDatePart(d: Date)
    ensures Split(IsoText(d) + "T00:00:00.000Z", 'T')[0] == IsoText(d)
  {
    var iso := IsoText(d);
    assert forall i :: 0 <= i < |iso| ==> iso[i] != 'T' by {
      assert iso == Digits(d.year, 4) + "-" + Digits(d.month, 2) + "-" + Digits(d.day, 2);
    }
    assert iso + "T00:00:00.000Z" == iso + ['T'] + "00:00:00.000Z";
    SplitAppendSeparated(iso, 'T', "00:00:00.000Z");
  }

  /** An amount sent as its decimal text reads back as itself. */
  lemma AmountTextRoundTrip(n: int)
    ensures AmountNumber(TextAmount(IntToString(n))) == n
  {
    var s := IntToString(n);
    assert !IsSpace(s[|s| - 1]) by {
      if n < 0 {
        assert s[|s| - 1] == NatToString(-n)[|NatToString(-n)| - 1];
      }
    }
    TrimOfTrimmed(s);
    NumberRoundTrip(n);
  }

  /** Mapping what the server sends gives back the stored record, its
      date as the ISO text of the stored date. */
  lemma MapApiRoundTrip(t: Transaction)
    ensures var c := MapApiTransaction(ApiOf(t));
      c.date == IsoText(t.date) && ParseIso(c.date) == Some(t.date)
      && c.id == t.id && c.account == t.account && c.subCategory == t.subCategory
      && c.notes == t.notes && c.amount == t.amount && c.name == t.name && c.description == t.description
      && (WellFormedCategory(t.category) ==> c.category == t.category)
  {
    var api := ApiOf(t);
    var c := MapApiTransaction(api);
    StampDatePart(t.date);
    assert c.date == IsoText(t.date);
    IsoRoundTrip(t.date);
    AmountTextRoundTrip(t.amount);
    assert c.category == ParseCategory(CategoryName(t.category));
    if WellFormedCategory(t.category) {
      ParseCategoryRoundTrip(t.category);
    }
  }
}
