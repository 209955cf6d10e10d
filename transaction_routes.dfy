/** The server's transaction routes over a store of records: creating a
    record (a transfer also creates the other party's leg with the amount
    negated), the listing that hides the negative transfer legs, updating
    with a field-by-field change log, deleting, the bulk import with its
    row validation and date normalisation, and the e-mail address derived
    from a person's name. */
module TransactionRoutes {
  import opened Common
  import opened Text
  import opened Ledger
  import opened Grouping
  import opened TransactionSchema

  // ---------------------------------------------------------------------------
  // The e-mail address of a name

  const EMAIL_DOMAIN: string := "@fintrack.local"
  const FALLBACK_SLUG: string := "user"

  /** Trimmed, lower-cased, every run of white space replaced by one dot. */
  function Slug(name: string): string
  {
    CollapseSpaces(Lower(Trim(name)), '.')
  }

  /** `userEmailFromName`: the slug, or "user" when it is empty, at the
      local domain. */
  function EmailFromName(name: string): (e: string)
    ensures |e| > |EMAIL_DOMAIN| && e[|e| - |EMAIL_DOMAIN|..] == EMAIL_DOMAIN
  {
    var slug := Slug(name);
    (if slug == "" then FALLBACK_SLUG else slug) + EMAIL_DOMAIN
  }

  /** The slug holds no white space and no upper-case letter, and is empty
      exactly when the name is blank. */
  lemma SlugShape(name: string)
    ensures forall i :: 0 <= i < |Slug(name)| ==> !IsSpace(Slug(name)[i]) && !IsUpper(Slug(name)[i])
    ensures Slug(name) == [] <==> forall i :: 0 <= i < |name| ==> IsSpace(name[i])
  {
    var low := Lower(Trim(name));
    CollapseNoSpace(low, '.');
    CollapseChars(low, '.');
    CollapseEmpty(low, '.');
    forall i | 0 <= i < |Slug(name)|
      ensures !IsSpace(Slug(name)[i]) && !IsUpper(Slug(name)[i])
    {
      var c := Slug(name)[i];
      assert !IsSpace('.');
      if c != '.' {
        assert c in low;
      }
    }
    TrimEmptyIff(name);
  }

  /** A name written as words with runs of white space between them, and
      perhaps around them, slugs to its lower-cased words joined by one
      dot each. */
  lemma SlugOfWords(lead: string, words: seq<string>, gaps: seq<string>, trail: string)
    requires |words| == |gaps| + 1
    requires forall k :: 0 <= k < |words| ==> IsWord(words[k])
    requires forall k :: 0 <= k < |gaps| ==> IsGap(gaps[k])
    requires AllSpace(lead) && AllSpace(trail)
    ensures Slug(lead + Interleave(words, gaps) + trail) == Join(MapSeq(words, Lower), ".")
  {
    var x := Interleave(words, gaps);
    InterleaveEnds(words, gaps);
    TrimAround(lead, x, trail);
    LowerInterleave(words, gaps);
    var lowered := MapSeq(words, Lower);
    forall k | 0 <= k < |lowered|
      ensures IsWord(lowered[k])
    {
      LowerWord(words[k]);
    }
    CollapseInterleave(lowered, gaps, '.');
  }

  /** What the slug of any name is: a blank name gives the empty slug;
      every other name is words with runs of white space between and
      around them, and gives those words lower-cased, joined by dots. */
  lemma SlugMeaning(name: string) returns (lead: string, words: seq<string>, gaps: seq<string>, trail: string)
    ensures AllSpace(name) ==> Slug(name) == ""
    ensures !AllSpace(name) ==>
      |words| == |gaps| + 1
      && (forall k :: 0 <= k < |words| ==> IsWord(words[k]))
      && (forall k :: 0 <= k < |gaps| ==> IsGap(gaps[k]))
      && AllSpace(lead) && AllSpace(trail)
      && name == lead + Interleave(words, gaps) + trail
      && Slug(name) == Join(MapSeq(words, Lower), ".")
  {
    if AllSpace(name) {
      SlugShape(name);
      lead, words, gaps, trail := name, [], [], "";
    } else {
      lead, words, gaps, trail := WordsOfText(name);
      SlugOfWords(lead, words, gaps, trail);
    }
  }

  /** Words joined by single spaces slug to the lower-cased words joined by
      dots. */
  lemma SlugOfSpacedWords(words: seq<string>)
    requires words != []
    requires forall k :: 0 <= k < |words| ==> IsWord(words[k])
    ensures Slug(Join(words, " ")) == Join(MapSeq(words, Lower), ".")
  {
    var gaps := SpacedGaps(words);
    SlugOfWords("", words, gaps, "");
  }

  /** Single spaces are gaps, and words joined by them are interleaved
      with them. */
  lemma SpacedGaps(words: seq<string>) returns (gaps: seq<string>)
    requires words != []
    ensures |words| == |gaps| + 1
    ensures forall k :: 0 <= k < |gaps| ==> IsGap(gaps[k])
    ensures Join(words, " ") == "" + Interleave(words, gaps) + ""
  {
    gaps := seq(|words| - 1, _ => " ");
    assert IsGap(" ");
    JoinIsInterleave(words, " ");
    assert "" + Interleave(words, gaps) + "" == Interleave(words, gaps);
  }

  /** A slug is its own slug, so names that differ only in case and
      spacing share one address. */
  lemma SlugIdempotent(name: string)
    ensures Slug(Slug(name)) == Slug(name)
  {
    var s := Slug(name);
    SlugShape(name);
    TrimOfTrimmed(s);
    assert Lower(s) == s;
    CollapseNone(s, '.');
  }

  /** A blank name gets the fallback address. */
  lemma BlankNameEmail(name: string)
    requires forall i :: 0 <= i < |name| ==> IsSpace(name[i])
    ensures EmailFromName(name) == FALLBACK_SLUG + EMAIL_DOMAIN
  {
    SlugShape(name);
  }

  // ---------------------------------------------------------------------------
  // Records and their identities

  /** The identity the store gives its `n`-th record (the database's
      generated key). */
  function IdText(n: nat): string
  {
    NatToString(n)
  }

  /** `s` is the identity of some record numbered below `n`. */
  predicate IdBelow(s: string, n: nat)
  {
    (forall i :: 0 <= i < |s| ==> IsDigit(s[i])) && DigitsValue(s) < n
  }

  /** The next identity is new, and below the advanced counter. */
  lemma FreshId(n: nat, s: string)
    requires IdBelow(s, n)
    ensures IdText(n) != s
  {
    DigitsValueOfNat(n);
  }

  lemma NextIdBelow(n: nat)
    ensures IdBelow(IdText(n), n + 1)
  {
    DigitsValueOfNat(n);
  }

  ghost predicate IdsBelow(records: seq<Transaction>, n: nat)
  {
    forall i :: 0 <= i < |records| ==> IdBelow(records[i].id, n)
  }

  ghost predicate DistinctIds(records: seq<Transaction>)
  {
    forall i, j :: 0 <= i < j < |records| ==> records[i].id != records[j].id
  }

  /** The position of the record with identity `id`, if there is one. */
  function FindId(records: seq<Transaction>, id: string): (r: Option<nat>)
    ensures r.Some? ==> r.value < |records| && records[r.value].id == id
    ensures r.None? ==> forall i :: 0 <= i < |records| ==> records[i].id != id
    decreases |records|
  {
    if records == [] then None
    else if records[0].id == id then Some(0)
    else
      var rest := FindId(records[1..], id);
      if rest.Some? then Some(rest.value + 1) else None
  }

  function OrEmpty(o: Option<string>): string
  {
    if o.Some? then o.value else ""
  }

  /** The stored record of a payload whose date text `new Date` accepts:
      the date is the one a `Date` holds, a day past the month's end
      carried into the next month. */
  function PayloadRecord(p: Payload, id: string): (t: Transaction)
    requires ParseIso(p.date).Some?
    ensures t.date == Rollover(ParseIso(p.date).value)
    ensures IsoText(t.date) == p.date <==> IsCalendarDate(ParseIso(p.date).value)
    ensures CategoryName(t.category) == p.category
    ensures t.amount == p.amount && t.name == p.name && t.id == id
    ensures t.account == p.account && t.subCategory == p.subCategory
    ensures t.notes == OrEmpty(p.notes) && t.description == OrEmpty(p.description)
  {
    var d := ParseIso(p.date).value;
    StoredIsoText(p.date);
    CategoryNameRoundTrip(p.category);
    Transaction(id, Rollover(d), p.account, ParseCategory(p.category), p.subCategory, OrEmpty(p.notes),
                p.amount, p.name, OrEmpty(p.description))
  }

  // ---------------------------------------------------------------------------
  // Transfer mirroring

  /** The other party of a transfer: Skenderi for Burimi, Burimi for every
      other name. */
  function OtherParty(name: string): (other: string)
    ensures other == SKENDERI <==> name == BURIMI
    ensures other == BURIMI <==> name != BURIMI
  {
    if name == BURIMI then SKENDERI else BURIMI
  }

  lemma OtherPartyInvolution(name: string)
    requires IsTrackedName(name)
    ensures OtherParty(OtherParty(name)) == name
  {
  }

  /** The payload of the other party's leg. */
  function Mirror(p: Payload): (m: Payload)
    ensures m.amount == -p.amount && m.name == OtherParty(p.name)
    ensures m.(name := p.name, amount := p.amount) == p
  {
    p.(name := OtherParty(p.name), amount := -p.amount)
  }

  /** What a successful create stores, numbering from `n`. */
  function CreatedRecords(p: Payload, n: nat): seq<Transaction>
    requires ParseIso(p.date).Some?
  {
    [PayloadRecord(p, IdText(n))]
      + (if p.category == TRANSFER_NAME then [PayloadRecord(Mirror(p), IdText(n + 1))] else [])
  }

  /** A transfer stores two legs whose amounts cancel; any other category
      stores one record. */
  lemma CreatedLegs(p: Payload, n: nat)
    requires ParseIso(p.date).Some?
    ensures |CreatedRecords(p, n)| == if p.category == TRANSFER_NAME then 2 else 1
    ensures SumOf(CreatedRecords(p, n), TransferAmount) == 0 || p.category != TRANSFER_NAME
    ensures p.category == TRANSFER_NAME ==>
      CreatedRecords(p, n)[1].name == OtherParty(p.name) && CreatedRecords(p, n)[1].amount == -p.amount
      && CreatedRecords(p, n)[1].category == Transfer
  {
    if p.category == TRANSFER_NAME {
      var legs := CreatedRecords(p, n);
      assert legs[0].category == Transfer && legs[1].category == Transfer;
      assert legs == [legs[0]] + [legs[1]];
      SumOfAppend([legs[0]], [legs[1]], TransferAmount);
      SumOfSingleton(legs[0], TransferAmount);
      SumOfSingleton(legs[1], TransferAmount);
    }
  }

  // ---------------------------------------------------------------------------
  // The listing

  /** The leg a listing hides: a transfer with a negative amount. */
  predicate Hidden(t: Transaction)
  {
    t.category == Transfer && t.amount < 0
  }

  function Shown(t: Transaction): bool
  {
    !Hidden(t)
  }

  function NewestFirst(t: Transaction): int
  {
    -DateKey(t.date)
  }

  /** GET: the records newest first, without the negative transfer legs. */
  function Listing(records: seq<Transaction>): seq<Transaction>
  {
    Filter(SortBy(records, NewestFirst), Shown)
  }

  /** The listing holds exactly the records that are not negative transfer
      legs, each as often as the store does, newest first. */
  lemma ListingMeaning(records: seq<Transaction>)
    ensures multiset(Listing(records)) == multiset(Filter(records, Shown))
    ensures forall t :: t in Listing(records) <==> t in records && !Hidden(t)
    ensures forall i, j :: 0 <= i < j < |Listing(records)| ==>
      DateLe(Listing(records)[j].date, Listing(records)[i].date)
  {
    var sorted := SortBy(records, NewestFirst);
    var r := Listing(records);
    FilterPermutation(sorted, records, Shown);
    FilterKeepsSorted(sorted, NewestFirst, Shown);
    FilterMembers(records, Shown);
    SameMembers(Filter(records, Shown), r);
    forall t
      ensures t in r <==> t in records && !Hidden(t)
    {
      if t in Filter(records, Shown) {
        var k :| 0 <= k < |Filter(records, Shown)| && Filter(records, Shown)[k] == t;
        assert Shown(Filter(records, Shown)[k]);
      }
      if t in records && !Hidden(t) {
        var k :| 0 <= k < |records| && records[k] == t;
        assert Shown(records[k]);
      }
    }
    forall i, j | 0 <= i < j < |r|
      ensures DateLe(r[j].date, r[i].date)
    {
      assert NewestFirst(r[i]) <= NewestFirst(r[j]);
      DateKeyOrdersDates(r[j].date, r[i].date);
    }
  }

  /** Of the two legs of a transfer created with a positive amount, the
      listing shows the one posted and hides the mirror. */
  lemma ListingShowsPostedLeg(p: Payload, n: nat)
    requires ParseIso(p.date).Some? && p.category == TRANSFER_NAME && p.amount > 0
    ensures Shown(CreatedRecords(p, n)[0]) && Hidden(CreatedRecords(p, n)[1])
  {
    CreatedLegs(p, n);
  }

  // ---------------------------------------------------------------------------
  // The change log of an update

  datatype FieldValue = Text(text: string) | Number(number: int)

  datatype Change = Change(field: Field, from: FieldValue, to: FieldValue)

  /** A field whose old and new values differ. */
  function IsChange(c: Change): bool
  {
    c.from != c.to
  }

  /** Every compared field, in the order compared: the stored values
      against the payload's, notes and description defaulting to empty. */
  function ComparedFields(original: Transaction, p: Payload): (r: seq<Change>)
    ensures |r| == 8
  {
    [Change(DateField, Text(IsoText(original.date)), Text(p.date)),
     Change(Account, Text(original.account), Text(p.account)),
     Change(Category, Text(CategoryName(original.category)), Text(p.category)),
     Change(SubCategory, Text(original.subCategory), Text(p.subCategory)),
     Change(Amount, Number(original.amount), Number(p.amount)),
     Change(Name, Text(original.name), Text(p.name)),
     Change(Notes, Text(original.notes), Text(OrEmpty(p.notes))),
     Change(Description, Text(original.description), Text(OrEmpty(p.description)))]
  }

  /** Pushes the field's entry when its old and new values differ: one
      more compared field, `compared[k]`, filtered into the log. */
  method Record(ghost compared: seq<Change>, ghost k: nat, changes: seq<Change>,
                field: Field, from: FieldValue, to: FieldValue)
    returns (r: seq<Change>)
    requires k < |compared| && compared[k] == Change(field, from, to)
    requires changes == Filter(compared[..k], IsChange)
    ensures r == Filter(compared[..k + 1], IsChange)
  {
    FilterPrefixStep(compared, k, IsChange);
    r := changes;
    if from != to {
      r := r + [Change(field, from, to)];
    }
  }

  /** The change log pushes one entry per compared field whose values
      differ, in field order. */
  method ChangeLog(original: Transaction, p: Payload) returns (changes: seq<Change>)
    ensures changes == Filter(ComparedFields(original, p), IsChange)
  {
    ghost var all := ComparedFields(original, p);
    changes := [];
    assert all[..0] == [];
    changes := Record(all, 0, changes, DateField, Text(IsoText(original.date)), Text(p.date));
    changes := Record(all, 1, changes, Account, Text(original.account), Text(p.account));
    changes := Record(all, 2, changes, Category, Text(CategoryName(original.category)), Text(p.category));
    changes := Record(all, 3, changes, SubCategory, Text(original.subCategory), Text(p.subCategory));
    changes := Record(all, 4, changes, Amount, Number(original.amount), Number(p.amount));
    changes := Record(all, 5, changes, Name, Text(original.name), Text(p.name));
    changes := Record(all, 6, changes, Notes, Text(original.notes), Text(OrEmpty(p.notes)));
    changes := Record(all, 7, changes, Description, Text(original.description), Text(OrEmpty(p.description)));
    assert all[..8] == all;
  }

  /** Filtering one element further along a sequence. */
  lemma FilterPrefixStep<T>(s: seq<T>, k: nat, p: T -> bool)
    requires k < |s|
    ensures Filter(s[..k + 1], p) == Filter(s[..k], p) + (if p(s[k]) then [s[k]] else [])
  {
    assert s[..k + 1] == s[..k] + [s[k]];
    FilterSnoc(s[..k], s[k], p);
  }

  /** A field is logged exactly when its values differ; every entry is a
      real change; and nothing is logged when the payload restates the
      record. */
  lemma ChangeLogMeaning(original: Transaction, p: Payload)
    ensures forall k :: 0 <= k < 8 ==>
      (ComparedFields(original, p)[k] in Filter(ComparedFields(original, p), IsChange)
       <==> IsChange(ComparedFields(original, p)[k]))
    ensures forall c :: c in Filter(ComparedFields(original, p), IsChange) ==> c.from != c.to
    ensures |Filter(ComparedFields(original, p), IsChange)| <= 8
  {
    var all := ComparedFields(original, p);
    var log := Filter(all, IsChange);
    FilterMembers(all, IsChange);
    forall c | c in log
      ensures c.from != c.to
    {
      var k :| 0 <= k < |log| && log[k] == c;
      assert IsChange(log[k]);
    }
  }

  /** Updating a record with its own values logs nothing, unless the date
      text names a day past its month's end: the stored date then reads
      back as the rolled-over date and the date alone is logged. */
  lemma UnchangedLogsNothing(original: Transaction, p: Payload)
    requires ParseIso(p.date).Some?
    requires PayloadRecord(p, original.id) == original
    ensures IsCalendarDate(ParseIso(p.date).value) ==> Filter(ComparedFields(original, p), IsChange) == []
    ensures !IsCalendarDate(ParseIso(p.date).value) ==>
      Filter(ComparedFields(original, p), IsChange) == [ComparedFields(original, p)[0]]
  {
    var all := ComparedFields(original, p);
    forall j | 1 <= j < |all|
      ensures !IsChange(all[j])
    {
    }
    assert all == [all[0]] + all[1..];
    FilterNone(all[1..], IsChange);
    FilterAppend([all[0]], all[1..], IsChange);
  }

  // ---------------------------------------------------------------------------
  // Import rows

  /** The amount of an import row as the request carries it. */
  datatype AmountField = Absent | Num(value: int) | Literal(text: string)

  /** An import row; an empty text stands for an absent value. */
  datatype ImportRow = ImportRow(
    date: string,
    name: string,
    account: string,
    category: string,
    subCategory: string,
    amount: AmountField,
    notes: string,
    description: string)

  /** `DD/MM/YYYY`. */
  predicate IsEuShape(s: string)
  {
    |s| == 10 && s[2] == '/' && s[5] == '/'
    && forall i :: 0 <= i < 10 && i != 2 && i != 5 ==> IsDigit(s[i])
  }

  /** An ISO text is kept, `DD/MM/YYYY` is reordered to `YYYY-MM-DD`, and
      any other text has no normal form. */
  function NormaliseDate(s: string): (r: Option<string>)
    ensures r.Some? ==> IsIsoShape(r.value)
    ensures IsIsoShape(s) ==> r == Some(s)
    ensures !IsIsoShape(s) && !IsEuShape(s) ==> r.None?
  {
    if IsIsoShape(s) then Some(s)
    else if IsEuShape(s) then
      var iso := s[6..10] + "-" + s[3..5] + "-" + s[0..2];
      assert forall i :: 0 <= i < 4 ==> iso[i] == s[6 + i];
      assert iso[5] == s[3] && iso[6] == s[4] && iso[8] == s[0] && iso[9] == s[1];
      Some(iso)
    else None
  }

  /** The European text of a date. */
  function EuText(d: Date): string
  {
    Digits(d.day, 2) + "/" + Digits(d.month, 2) + "/" + Digits(d.year, 4)
  }

  /** A European date normalises to the ISO text of the same date. */
  lemma EuNormalises(d: Date)
    ensures NormaliseDate(EuText(d)) == Some(IsoText(d))
  {
    var s := EuText(d);
    assert IsEuShape(s);
    assert s[6..10] == Digits(d.year, 4);
    assert s[3..5] == Digits(d.month, 2);
    assert s[0..2] == Digits(d.day, 2);
  }

  const DATE_MISSING: string := "date is missing"
  const NAME_MISSING: string := "name is missing"
  const ACCOUNT_MISSING: string := "account is missing"
  const CATEGORY_MISSING: string := "category is missing"
  const AMOUNT_MISSING: string := "amount is missing"

  function Quoted(s: string): string
  {
    "\"" + s + "\""
  }

  /** The date's reasons: missing, of neither shape, or not a calendar date. */
  function DateErrors(date: string): (r: seq<string>)
    ensures |r| <= 1
    ensures r == [] <==> date != "" && NormaliseDate(date).Some? && ParseIso(NormaliseDate(date).value).Some?
    ensures date == "" ==> r == [DATE_MISSING]
  {
    if date == "" then [DATE_MISSING]
    else
      var normal := NormaliseDate(date);
      if normal.None? then ["date " + Quoted(date) + " is invalid (use YYYY-MM-DD or DD/MM/YYYY)"]
      else if ParseIso(normal.value).None? then ["date " + Quoted(date) + " could not be parsed"]
      else []
  }

  function NameErrors(name: string): (r: seq<string>)
    ensures |r| <= 1
    ensures r == [] <==> IsTrackedName(name)
    ensures name == "" ==> r == [NAME_MISSING]
  {
    if name == "" then [NAME_MISSING]
    else if !IsTrackedName(name) then ["name " + Quoted(name) + " is invalid (must be \"Burimi\" or \"Skenderi\")"]
    else []
  }

  function AccountErrors(account: string): (r: seq<string>)
    ensures r == [] <==> account != ""
  {
    if account == "" then [ACCOUNT_MISSING] else []
  }

  function CategoryErrors(category: string): (r: seq<string>)
    ensures |r| <= 1
    ensures r == [] <==> IsKnownCategoryName(category)
    ensures category == "" ==> r == [CATEGORY_MISSING]
  {
    if category == "" then [CATEGORY_MISSING]
    else if !IsKnownCategoryName(category) then
      ["category " + Quoted(category) + " is invalid (must be \"Te Hyra\", \"Shpenzime\", or \"Transfere\")"]
    else []
  }

  /** The amount read as `parseFloat` reads it; `None` for `NaN`. */
  function AmountValue(a: AmountField): Option<int>
  {
    match a
    case Absent => None
    case Num(n) => Some(n)
    case Literal(s) => ParseNumber(s)
  }

  /** The amount's reasons: missing (absent or the empty text), or not a number. */
  function AmountErrors(a: AmountField): (r: seq<string>)
    ensures |r| <= 1
    ensures r == [] <==> AmountValue(a).Some?
    ensures (a == Absent || a == Literal("")) ==> r == [AMOUNT_MISSING]
  {
    if a == Absent || a == Literal("") then [AMOUNT_MISSING]
    else if AmountValue(a).None? then ["amount " + Quoted(a.text) + " is not a valid number"]
    else []
  }

  /** Every applicable reason, in the order checked. */
  function RowErrors(row: ImportRow): seq<string>
  {
    DateErrors(row.date) + NameErrors(row.name) + AccountErrors(row.account)
      + CategoryErrors(row.category) + AmountErrors(row.amount)
  }

  /** The import's acceptance rule, stated field by field. */
  predicate RowOk(row: ImportRow)
  {
    row.date != "" && NormaliseDate(row.date).Some? && ParseIso(NormaliseDate(row.date).value).Some?
    && IsTrackedName(row.name) && row.account != "" && IsKnownCategoryName(row.category)
    && AmountValue(row.amount).Some?
  }

  function IsRowOk(row: ImportRow): bool
  {
    RowOk(row)
  }

  lemma RowErrorsMeaning(row: ImportRow)
    ensures RowErrors(row) == [] <==> RowOk(row)
    ensures |RowErrors(row)| <= 5
  {
  }

  /** A row of zero amount is accepted: the import has no zero check. */
  lemma ZeroAmountImported(row: ImportRow)
    requires RowOk(row)
    ensures RowOk(row.(amount := Num(0)))
  {
  }

  /** The record an accepted row becomes; its date is the one `new Date`
      holds for the normalised text. */
  function RowRecord(row: ImportRow, id: string): Transaction
    requires RowOk(row)
  {
    var d := ParseIso(NormaliseDate(row.date).value).value;
    Transaction(id, Rollover(d), row.account, ParseCategory(row.category), row.subCategory, row.notes,
                AmountValue(row.amount).value, row.name, row.description)
  }

  /** The failure message of row `i` (the first data row is row 2). */
  function FailureMessage(i: nat, errors: seq<string>): string
  {
    "Row " + NatToString(i + 2) + ": " + Join(errors, "; ")
  }

  /** The records of the accepted rows, numbered from `n` in row order. */
  function ImportedRecords(rows: seq<ImportRow>, n: nat): seq<Transaction>
    decreases |rows|
  {
    if rows == [] then []
    else
      var prev := ImportedRecords(rows[..|rows| - 1], n);
      var row := rows[|rows| - 1];
      if RowOk(row) then prev + [RowRecord(row, IdText(n + |prev|))] else prev
  }

  /** The failure messages of the rejected rows, in row order. */
  function ImportFailures(rows: seq<ImportRow>): seq<string>
    decreases |rows|
  {
    if rows == [] then []
    else
      var prev := ImportFailures(rows[..|rows| - 1]);
      var row := rows[|rows| - 1];
      if RowOk(row) then prev else prev + [FailureMessage(|rows| - 1, RowErrors(row))]
  }

  /** One more row: an accepted row adds its record under the next number,
      a rejected one its failure message. */
  lemma ImportStep(rows: seq<ImportRow>, i: nat, n: nat)
    requires i < |rows|
    ensures var prev := ImportedRecords(rows[..i], n);
      ImportedRecords(rows[..i + 1], n)
        == prev + (if RowOk(rows[i]) then [RowRecord(rows[i], IdText(n + |prev|))] else [])
    ensures ImportFailures(rows[..i + 1])
      == ImportFailures(rows[..i]) + (if RowOk(rows[i]) then [] else [FailureMessage(i, RowErrors(rows[i]))])
  {
    assert rows[..i + 1][..i] == rows[..i];
  }

  /** Every row is either imported or reported, never both. */
  lemma {:induction false} ImportCounts(rows: seq<ImportRow>, n: nat)
    ensures |ImportedRecords(rows, n)| + |ImportFailures(rows)| == |rows|
    decreases |rows|
  {
    if rows != [] {
      ImportCounts(rows[..|rows| - 1], n);
    }
  }

  /** The imported records are the accepted rows, one record each, in row
      order: the import mirrors no transfer. */
  lemma {:induction false} ImportedAreAcceptedRows(rows: seq<ImportRow>, n: nat)
    ensures |ImportedRecords(rows, n)| == |Filter(rows, IsRowOk)|
    ensures forall k :: 0 <= k < |Filter(rows, IsRowOk)| ==>
      RowOk(Filter(rows, IsRowOk)[k])
      && ImportedRecords(rows, n)[k] == RowRecord(Filter(rows, IsRowOk)[k], IdText(n + k))
    decreases |rows|
  {
    if rows != [] {
      var init, last := rows[..|rows| - 1], rows[|rows| - 1];
      ImportedAreAcceptedRows(init, n);
      assert rows == init + [last];
      FilterSnoc(init, last, IsRowOk);
    }
  }

  /** `message` is the failure message of rejected row `i`. */
  predicate NamesRow(rows: seq<ImportRow>, i: int, message: string)
  {
    0 <= i < |rows| && !RowOk(rows[i]) && message == FailureMessage(i, RowErrors(rows[i]))
  }

  /** `message` is the failure message of some rejected row. */
  ghost predicate Reported(rows: seq<ImportRow>, message: string)
  {
    exists i :: NamesRow(rows, i, message)
  }

  /** Each failure names its row, counting the header as row 1. */
  lemma {:induction false} FailuresNameRows(rows: seq<ImportRow>)
    ensures forall k :: 0 <= k < |ImportFailures(rows)| ==> Reported(rows, ImportFailures(rows)[k])
    decreases |rows|
  {
    if rows != [] {
      var init, last := rows[..|rows| - 1], |rows| - 1;
      FailuresNameRows(init);
      var before := ImportFailures(init);
      var f := ImportFailures(rows);
      assert f == if RowOk(rows[last]) then before else before + [FailureMessage(last, RowErrors(rows[last]))];
      forall k | 0 <= k < |f|
        ensures Reported(rows, f[k])
      {
        if !RowOk(rows[last]) && k == |before| {
          assert NamesRow(rows, last, f[k]);
        } else {
          assert Reported(init, before[k]);
          var i :| NamesRow(init, i, before[k]);
          assert rows[i] == init[i];
          assert NamesRow(rows, i, f[k]);
        }
      }
    }
  }

  // ---------------------------------------------------------------------------
  // Route outcomes

  datatype CreateOutcome =
    | Created(record: Transaction)
    | CreateRejected(issues: seq<Field>)
    | CreateFailed

  datatype UpdateOutcome =
    | Updated(record: Transaction, changes: seq<Change>, changesCount: nat)
    | UpdateRejected(issues: seq<Field>)
    | UpdateNotFound
    | UpdateFailed

  datatype DeleteOutcome = Deleted | DeleteFailed

  datatype ImportOutcome =
    | ImportRejected
    | ImportReport(success: nat, failed: nat, errors: seq<string>)

  // ---------------------------------------------------------------------------
  // The store

  class Store {
    var records: seq<Transaction>
    var nextId: nat

    ghost predicate Valid()
      reads this
    {
      IdsBelow(records, nextId) && DistinctIds(records)
    }

    constructor ()
      ensures Valid() && records == [] && nextId == 0
    {
      records := [];
      nextId := 0;
    }

    /** Appends a record under the next identity. */
    method Insert(t: Transaction) returns (stored: Transaction)
      requires Valid()
      modifies this
      ensures Valid()
      ensures stored == t.(id := IdText(old(nextId)))
      ensures records == old(records) + [stored] && nextId == old(nextId) + 1
    {
      stored := t.(id := IdText(nextId));
      forall i | 0 <= i < |records|
        ensures records[i].id != stored.id && IdBelow(records[i].id, nextId + 1)
      {
        FreshId(nextId, records[i].id);
      }
      NextIdBelow(nextId);
      records := records + [stored];
      nextId := nextId + 1;
    }

    /** POST: validate, store the record and, for a transfer, the other
        party's leg. */
    method Create(p: Payload) returns (r: CreateOutcome)
      requires Valid()
      modifies this
      ensures Valid()
      ensures !Accepts(p) ==> r == CreateRejected(Issues(p)) && records == old(records) && nextId == old(nextId)
      ensures Accepts(p) && ParseIso(p.date).None? ==>
        r == CreateFailed && records == old(records) && nextId == old(nextId)
      ensures Accepts(p) && ParseIso(p.date).Some? ==>
        r == Created(PayloadRecord(p, IdText(old(nextId))))
        && records == old(records) + CreatedRecords(p, old(nextId))
        && nextId == old(nextId) + |CreatedRecords(p, old(nextId))|
    {
      if !Accepts(p) {
        return CreateRejected(Issues(p));
      }
      if ParseIso(p.date).None? {
        return CreateFailed;
      }
      var created := Insert(PayloadRecord(p, ""));
      r := Created(created);
      if p.category == TRANSFER_NAME {
        var mirror := Insert(PayloadRecord(Mirror(p), ""));
      }
    }

    /** PUT: validate, find the record, replace it by the payload's values
        and log what changed. */
    method Update(id: string, p: Payload) returns (r: UpdateOutcome)
      requires Valid()
      modifies this
      ensures Valid() && nextId == old(nextId)
      ensures !Accepts(p) ==> r == UpdateRejected(Issues(p)) && records == old(records)
      ensures Accepts(p) && FindId(old(records), id).None? ==> r == UpdateNotFound && records == old(records)
      ensures Accepts(p) && FindId(old(records), id).Some? && ParseIso(p.date).None? ==>
        r == UpdateFailed && records == old(records)
      ensures Accepts(p) && FindId(old(records), id).Some? && ParseIso(p.date).Some? ==>
        var k := FindId(old(records), id).value;
        records == old(records)[k := PayloadRecord(p, id)]
        && r == Updated(PayloadRecord(p, id), Filter(ComparedFields(old(records)[k], p), IsChange),
                        |Filter(ComparedFields(old(records)[k], p), IsChange)|)
    {
      if !Accepts(p) {
        return UpdateRejected(Issues(p));
      }
      var found := FindId(records, id);
      if found.None? {
        return UpdateNotFound;
      }
      if ParseIso(p.date).None? {
        return UpdateFailed;
      }
      var k := found.value;
      var original := records[k];
      var updated := PayloadRecord(p, id);
      records := records[k := updated];
      var changes := ChangeLog(original, p);
      r := Updated(updated, changes, |changes|);
    }

    /** DELETE: remove the record with the identity; a missing one is an error. */
    method Delete(id: string) returns (r: DeleteOutcome)
      requires Valid()
      modifies this
      ensures Valid() && nextId == old(nextId)
      ensures FindId(old(records), id).None? ==> r == DeleteFailed && records == old(records)
      ensures FindId(old(records), id).Some? ==>
        var k := FindId(old(records), id).value;
        r == Deleted && records == old(records)[..k] + old(records)[k + 1..]
    {
      var found := FindId(records, id);
      if found.None? {
        return DeleteFailed;
      }
      var k := found.value;
      records := records[..k] + records[k + 1..];
      r := Deleted;
    }

    /** The bulk import: each row is validated and stored, or its reasons
        are reported under its row number; an empty request is refused. */
    method Import(rows: seq<ImportRow>) returns (r: ImportOutcome)
      requires Valid()
      modifies this
      ensures Valid()
      ensures rows == [] ==> r == ImportRejected && records == old(records) && nextId == old(nextId)
      ensures rows != [] ==>
        r == ImportReport(|ImportedRecords(rows, old(nextId))|, |ImportFailures(rows)|, ImportFailures(rows))
        && records == old(records) + ImportedRecords(rows, old(nextId))
    {
      if rows == [] {
        return ImportRejected;
      }
      var success, failed := 0, 0;
      var errors: seq<string> := [];
      ghost var start := nextId;
      ghost var base := records;
      for i := 0 to |rows|
        invariant ImportProgress(rows, i, base, start, success, errors)
        invariant failed == |errors|
      {
        var reasons;
        success, reasons := ImportOne(rows, i, base, start, success, errors);
        if reasons != [] {
          failed := failed + 1;
          errors := errors + [FailureMessage(i, reasons)];
        }
      }
      assert rows[..|rows|] == rows;
      r := ImportReport(success, failed, errors);
    }

    /** The import after its first `i` rows: the accepted ones stored under
        consecutive numbers, the rejected ones reported. */
    ghost predicate ImportProgress(rows: seq<ImportRow>, i: nat, base: seq<Transaction>, start: nat, success: nat, errors: seq<string>)
      reads this
    {
      i <= |rows| && Valid()
      && records == base + ImportedRecords(rows[..i], start)
      && nextId == start + success && success == |ImportedRecords(rows[..i], start)|
      && errors == ImportFailures(rows[..i])
    }

    /** Row `i` of the import, taking the progress over the rows before it
        to the progress over the rows up to it. */
    method ImportOne(rows: seq<ImportRow>, i: nat, ghost base: seq<Transaction>, ghost start: nat, success: nat, errors: seq<string>)
      returns (success': nat, reasons: seq<string>)
      requires i < |rows| && ImportProgress(rows, i, base, start, success, errors)
      modifies this
      ensures reasons == RowErrors(rows[i]) && (reasons == [] <==> RowOk(rows[i]))
      ensures ImportProgress(rows, i + 1, base, start, success',
                             if reasons == [] then errors else errors + [FailureMessage(i, reasons)])
    {
      ImportStep(rows, i, start);
      ghost var prev := ImportedRecords(rows[..i], start);
      reasons := ImportRowAt(rows[i]);
      if reasons == [] {
        success' := success + 1;
        assert records == base + (prev + [RowRecord(rows[i], IdText(start + |prev|))]);
      } else {
        success' := success;
      }
    }

    /** One row of the import: its reasons, and the row stored when there
        are none. */
    method ImportRowAt(row: ImportRow) returns (reasons: seq<string>)
      requires Valid()
      modifies this
      ensures Valid()
      ensures reasons == RowErrors(row) && (reasons == [] <==> RowOk(row))
      ensures RowOk(row) ==> records == old(records) + [RowRecord(row, IdText(old(nextId)))] && nextId == old(nextId) + 1
      ensures !RowOk(row) ==> records == old(records) && nextId == old(nextId)
    {
      reasons := RowErrors(row);
      RowErrorsMeaning(row);
      if reasons == [] {
        var stored := Insert(RowRecord(row, ""));
      }
    }
  }
}
