/** The server's field constraints on a transaction payload: which
    payloads pass, and the list of fields whose constraint fails, in the
    order the schema declares them (the paths of the validation error's
    issues). */
module TransactionSchema {
  import opened Common
  import opened Text
  import opened Ledger

  /** A request body as the schema sees it; `None` is an absent optional field. */
  datatype Payload = Payload(
    projectId: Option<string>,
    taskId: Option<string>,
    projectName: Option<string>,
    userId: Option<string>,
    name: string,
    account: string,
    category: string,
    subCategory: string,
    date: string,
    notes: Option<string>,
    amount: int,
    description: Option<string>)

  const MAX_TEXT: nat := 500

  predicate IsHexDigit(c: char)
  {
    IsDigit(c) || ('a' <= c <= 'f') || ('A' <= c <= 'F')
  }

  /** The UUID shape: 8-4-4-4-12 hexadecimal digits separated by dashes. */
  predicate IsUuid(s: string)
  {
    |s| == 36 && s[8] == '-' && s[13] == '-' && s[18] == '-' && s[23] == '-'
    && forall i :: 0 <= i < 36 && i != 8 && i != 13 && i != 18 && i != 23 ==> IsHexDigit(s[i])
  }

  predicate OptionalUuid(o: Option<string>)
  {
    o.None? || IsUuid(o.value)
  }

  predicate OptionalNonEmpty(o: Option<string>)
  {
    o.None? || o.value != ""
  }

  predicate OptionalShort(o: Option<string>)
  {
    o.None? || Utf16Length(o.value) <= MAX_TEXT
  }

  /** Every constraint of the schema holds. */
  predicate Accepts(p: Payload)
  {
    OptionalUuid(p.projectId) && OptionalUuid(p.taskId) && OptionalNonEmpty(p.projectName)
    && OptionalUuid(p.userId) && p.name != "" && p.account != "" && p.category != ""
    && p.subCategory != "" && IsIsoShape(p.date) && OptionalShort(p.notes) && p.amount != 0
    && OptionalShort(p.description)
  }

  /** The schema's fields, in declaration order. */
  datatype Field = ProjectId | TaskId | ProjectName | UserId | Name | Account | Category
                 | SubCategory | DateField | Notes | Amount | Description

  const FIELDS: seq<Field> :=
    [ProjectId, TaskId, ProjectName, UserId, Name, Account, Category, SubCategory, DateField,
     Notes, Amount, Description]

  /** The position of a field in the schema. */
  function FieldIndex(f: Field): (i: nat)
    ensures i < |FIELDS| && FIELDS[i] == f
  {
    match f
    case ProjectId => 0
    case TaskId => 1
    case ProjectName => 2
    case UserId => 3
    case Name => 4
    case Account => 5
    case Category => 6
    case SubCategory => 7
    case DateField => 8
    case Notes => 9
    case Amount => 10
    case Description => 11
  }

  /** The issue path the validation error reports for a field. */
  function FieldPath(f: Field): string
  {
    match f
    case ProjectId => "projectId"
    case TaskId => "taskId"
    case ProjectName => "projectName"
    case UserId => "userId"
    case Name => "name"
    case Account => "account"
    case Category => "category"
    case SubCategory => "subCategory"
    case DateField => "date"
    case Notes => "notes"
    case Amount => "amount"
    case Description => "description"
  }

  /** The field's own constraint fails. */
  predicate Fails(p: Payload, f: Field)
  {
    match f
    case ProjectId => !OptionalUuid(p.projectId)
    case TaskId => !OptionalUuid(p.taskId)
    case ProjectName => !OptionalNonEmpty(p.projectName)
    case UserId => !OptionalUuid(p.userId)
    case Name => p.name == ""
    case Account => p.account == ""
    case Category => p.category == ""
    case SubCategory => p.subCategory == ""
    case DateField => !IsIsoShape(p.date)
    case Notes => !OptionalShort(p.notes)
    case Amount => p.amount == 0
    case Description => !OptionalShort(p.description)
  }

  function FailsOf(p: Payload): Field -> bool
  {
    f => Fails(p, f)
  }

  /** The fields from position `k` on that `bad` picks, in schema order. */
  function Picked(bad: Field -> bool, k: nat): seq<Field>
    requires k <= |FIELDS|
    decreases |FIELDS| - k
  {
    if k == |FIELDS| then []
    else (if bad(FIELDS[k]) then [FIELDS[k]] else []) + Picked(bad, k + 1)
  }

  /** The failing fields from position `k` on, in schema order. */
  function IssuesFrom(p: Payload, k: nat): seq<Field>
    requires k <= |FIELDS|
  {
    Picked(FailsOf(p), k)
  }

  /** The validation error's issues: every failing field, once, in schema order. */
  function Issues(p: Payload): seq<Field>
  {
    IssuesFrom(p, 0)
  }

  lemma {:induction false} PickedMembers(bad: Field -> bool, k: nat)
    requires k <= |FIELDS|
    ensures forall f :: f in Picked(bad, k) <==> k <= FieldIndex(f) && bad(f)
    decreases |FIELDS| - k
  {
    if k < |FIELDS| {
      PickedMembers(bad, k + 1);
      assert FieldIndex(FIELDS[k]) == k;
      forall f
        ensures f in Picked(bad, k) <==> k <= FieldIndex(f) && bad(f)
      {
        if FieldIndex(f) == k {
          assert f == FIELDS[k];
        }
      }
    }
  }

  lemma {:induction false} PickedOrdered(bad: Field -> bool, k: nat)
    requires k <= |FIELDS|
    ensures forall i, j :: 0 <= i < j < |Picked(bad, k)| ==>
      FieldIndex(Picked(bad, k)[i]) < FieldIndex(Picked(bad, k)[j])
    decreases |FIELDS| - k
  {
    if k < |FIELDS| {
      PickedOrdered(bad, k + 1);
      PickedMembers(bad, k + 1);
      var rest := Picked(bad, k + 1);
      var r := Picked(bad, k);
      if bad(FIELDS[k]) {
        assert FieldIndex(FIELDS[k]) == k;
        assert r == [FIELDS[k]] + rest;
        forall i, j | 0 <= i < j < |r|
          ensures FieldIndex(r[i]) < FieldIndex(r[j])
        {
          assert r[j] == rest[j - 1] && rest[j - 1] in rest;
          if i > 0 {
            assert r[i] == rest[i - 1];
          }
        }
      }
    }
  }

  lemma IssuesFromMembers(p: Payload, k: nat)
    requires k <= |FIELDS|
    ensures forall f :: f in IssuesFrom(p, k) <==> k <= FieldIndex(f) && Fails(p, f)
  {
    PickedMembers(FailsOf(p), k);
  }

  lemma IssuesFromOrdered(p: Payload, k: nat)
    requires k <= |FIELDS|
    ensures forall i, j :: 0 <= i < j < |IssuesFrom(p, k)| ==>
      FieldIndex(IssuesFrom(p, k)[i]) < FieldIndex(IssuesFrom(p, k)[j])
  {
    PickedOrdered(FailsOf(p), k);
  }

  /** A field is reported exactly when its constraint fails; the issues
      are in schema order, each at most once; and there are none exactly
      when the schema accepts the payload. */
  lemma IssuesMeaning(p: Payload)
    ensures forall f :: f in Issues(p) <==> Fails(p, f)
    ensures forall i, j :: 0 <= i < j < |Issues(p)| ==> FieldIndex(Issues(p)[i]) < FieldIndex(Issues(p)[j])
    ensures Issues(p) == [] <==> Accepts(p)
  {
    IssuesFromMembers(p, 0);
    IssuesFromOrdered(p, 0);
    AcceptsIffNoFailure(p);
    if Issues(p) != [] {
      assert Issues(p)[0] in Issues(p);
    }
  }

  /** The schema accepts a payload exactly when no field's constraint fails. */
  lemma AcceptsIffNoFailure(p: Payload)
    ensures Accepts(p) <==> forall f :: !Fails(p, f)
  {
    if forall f :: !Fails(p, f) {
      assert !Fails(p, ProjectId) && !Fails(p, TaskId) && !Fails(p, ProjectName) && !Fails(p, UserId);
      assert !Fails(p, Name) && !Fails(p, Account) && !Fails(p, Category) && !Fails(p, SubCategory);
      assert !Fails(p, DateField) && !Fails(p, Notes) && !Fails(p, Amount) && !Fails(p, Description);
    }
  }

  /** In particular a zero amount is always reported. */
  lemma ZeroAmountRejected(p: Payload)
    requires p.amount == 0
    ensures Amount in Issues(p)
    ensures !Accepts(p)
  {
    IssuesFromMembers(p, 0);
    assert FieldIndex(Amount) == 10 && Fails(p, Amount);
  }

  // ---------------------------------------------------------------------------
  // What the schema deliberately does not check

  /** The date check is a shape check: a day that does not exist in its
      month passes. */
  lemma CalendarNotChecked()
    ensures IsIsoShape("2025-02-31")
    ensures IsIsoShape("2025-13-45")
  {
  }

  /** Any non-empty category text passes, not only the three known ones. */
  lemma CategoryUnrestricted(p: Payload)
    requires Accepts(p)
    ensures Accepts(p.(category := "Investime"))
    ensures ParseCategory(p.(category := "Investime").category) == Other("Investime")
  {
  }
}
