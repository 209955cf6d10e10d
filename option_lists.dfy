/** The editable option lists (accounts, categories, sub-categories,
    names): adding a trimmed value unless some entry already equals it up
    to letter case, removing every exact match, and restoring the lists
    from storage, where anything that is not a list falls back to the
    defaults. */
module OptionLists {
  import opened Common
  import opened Text

  datatype OptionKey = Accounts | Categories | SubCategories | Names

  datatype OptionState = OptionState(
    accounts: seq<string>,
    categories: seq<string>,
    subCategories: seq<string>,
    names: seq<string>)

  const DEFAULT_OPTIONS: OptionState := OptionState(
    ["Cash", "Bank", "POS", "Divident"],
    ["Te Hyra", "Shpenzime", "Transfere"],
    ["GINGER", "POS", "Fature personale", "Kredi", "Borq", "Rroga", "Nga Migros", "GS", "Ulpiane",
     "Mabelle", "Divident Skenderi", "Divident Burimi", "TAX", "Selamia", "Investim/renovim",
     "Shpenzime te Bankes", "BANESA te Fisi", "Other"],
    ["Burimi", "Skenderi"])

  /** `state[key]`. */
  function ListOf(state: OptionState, key: OptionKey): seq<string>
  {
    match key
    case Accounts => state.accounts
    case Categories => state.categories
    case SubCategories => state.subCategories
    case Names => state.names
  }

  /** `{ ...state, [key]: list }`. */
  function WithList(state: OptionState, key: OptionKey, list: seq<string>): (r: OptionState)
    ensures ListOf(r, key) == list
    ensures forall other :: other != key ==> ListOf(r, other) == ListOf(state, other)
  {
    match key
    case Accounts => state.(accounts := list)
    case Categories => state.(categories := list)
    case SubCategories => state.(subCategories := list)
    case Names => state.(names := list)
  }

  /** Some entry equals the value up to letter case. */
  predicate HasCaseless(list: seq<string>, value: string)
  {
    exists i :: 0 <= i < |list| && Lower(list[i]) == Lower(value)
  }

  /** No two entries of the list are equal up to letter case. */
  predicate CaselessDistinct(list: seq<string>)
  {
    forall i, j :: 0 <= i < j < |list| ==> Lower(list[i]) != Lower(list[j])
  }

  /** `addOption`. */
  function AddOption(state: OptionState, key: OptionKey, value: string): (r: OptionState)
    ensures Trim(value) == "" ==> r == state
    ensures HasCaseless(ListOf(state, key), Trim(value)) ==> r == state
    ensures Trim(value) != "" && !HasCaseless(ListOf(state, key), Trim(value)) ==>
      ListOf(r, key) == ListOf(state, key) + [Trim(value)]
    ensures forall other :: other != key ==> ListOf(r, other) == ListOf(state, other)
  {
    var cleaned := Trim(value);
    if cleaned == "" then state
    else if HasCaseless(ListOf(state, key), cleaned) then state
    else WithList(state, key, ListOf(state, key) + [cleaned])
  }

  /** Adding keeps a list free of entries equal up to letter case, and
      afterwards the trimmed value (when non-empty) is in the list up to
      letter case. */
  lemma AddKeepsCaselessDistinct(state: OptionState, key: OptionKey, value: string)
    requires CaselessDistinct(ListOf(state, key))
    ensures CaselessDistinct(ListOf(AddOption(state, key, value), key))
    ensures Trim(value) != "" ==> HasCaseless(ListOf(AddOption(state, key, value), key), Trim(value))
  {
    var list := ListOf(state, key);
    var cleaned := Trim(value);
    if cleaned != "" && !HasCaseless(list, cleaned) {
      var next := list + [cleaned];
      assert next[|list|] == cleaned;
      forall i, j | 0 <= i < j < |next|
        ensures Lower(next[i]) != Lower(next[j])
      {
        if j == |list| {
          assert next[i] == list[i];
        } else {
          assert next[i] == list[i] && next[j] == list[j];
        }
      }
    }
  }

  /** Adding the same value twice is adding it once. */
  lemma AddIdempotent(state: OptionState, key: OptionKey, value: string)
    ensures AddOption(AddOption(state, key, value), key, value) == AddOption(state, key, value)
  {
    var list := ListOf(state, key);
    var cleaned := Trim(value);
    if cleaned != "" && !HasCaseless(list, cleaned) {
      var next := list + [cleaned];
      assert next[|list|] == cleaned;
      assert HasCaseless(next, cleaned);
    }
  }

  function Differs(value: string): string -> bool
  {
    item => item != value
  }

  /** `removeOption`. */
  function RemoveOption(state: OptionState, key: OptionKey, value: string): (r: OptionState)
    ensures ListOf(r, key) == Filter(ListOf(state, key), Differs(value))
    ensures forall other :: other != key ==> ListOf(r, other) == ListOf(state, other)
  {
    WithList(state, key, Filter(ListOf(state, key), Differs(value)))
  }

  /** Removal drops exactly the entries equal to the value, letter case
      included, and keeps the others in their order. */
  lemma RemoveMeaning(state: OptionState, key: OptionKey, value: string)
    ensures forall x :: x in ListOf(RemoveOption(state, key, value), key) <==> x in ListOf(state, key) && x != value
    ensures IsSubsequence(ListOf(RemoveOption(state, key, value), key), ListOf(state, key))
    ensures value !in ListOf(state, key) ==> RemoveOption(state, key, value) == state
  {
    var list := ListOf(state, key);
    FilterMembers(list, Differs(value));
    FilterIsSubsequence(list, Differs(value));
    if value !in list {
      FilterAll(list, Differs(value));
    }
  }

  /** Removing keeps a list free of entries equal up to letter case. */
  lemma RemoveKeepsCaselessDistinct(state: OptionState, key: OptionKey, value: string)
    requires CaselessDistinct(ListOf(state, key))
    ensures CaselessDistinct(ListOf(RemoveOption(state, key, value), key))
  {
    var list := ListOf(state, key);
    FilterKeepsCaselessDistinct(list, Differs(value));
  }

  lemma {:induction false} FilterKeepsCaselessDistinct(list: seq<string>, p: string -> bool)
    requires CaselessDistinct(list)
    ensures CaselessDistinct(Filter(list, p))
    decreases |list|
  {
    if list != [] {
      var rest := list[1..];
      assert CaselessDistinct(rest) by {
        forall i, j | 0 <= i < j < |rest|
          ensures Lower(rest[i]) != Lower(rest[j])
        {
          assert rest[i] == list[i + 1] && rest[j] == list[j + 1];
        }
      }
      FilterKeepsCaselessDistinct(rest, p);
      FilterMembers(rest, p);
      if p(list[0]) {
        var r := Filter(list, p);
        var fr := Filter(rest, p);
        assert r == [list[0]] + fr;
        forall i, j | 0 <= i < j < |r|
          ensures Lower(r[i]) != Lower(r[j])
        {
          if i == 0 {
            assert r[j] == fr[j - 1] && fr[j - 1] in rest;
            var k :| 0 <= k < |rest| && rest[k] == fr[j - 1];
            assert list[k + 1] == r[j];
          } else {
            assert r[i] == fr[i - 1] && r[j] == fr[j - 1];
          }
        }
      }
    }
  }

  // ---------------------------------------------------------------------------
  // Restoring from storage

  /** A stored list entry, as JSON gives it. */
  datatype Item =
    | StrItem(text: string)
    | NumItem(number: int)
    | BoolItem(flag: bool)
    | NullItem
    | ObjectItem
    | ArrayItem(elements: seq<Item>)

  const OBJECT_TEXT: string := "[object Object]"

  /** `String(item)`: an object is "[object Object]"; an array is its
      elements' texts joined with ",", a null element giving "". */
  function ItemText(item: Item): string
    decreases item
  {
    match item
    case StrItem(s) => s
    case NumItem(n) => IntToString(n)
    case BoolItem(b) => if b then "true" else "false"
    case NullItem => "null"
    case ObjectItem => OBJECT_TEXT
    case ArrayItem(es) =>
      Join(seq(|es|, i requires 0 <= i < |es| => if es[i].NullItem? then "" else ItemText(es[i])), ",")
  }

  /** Worked cases of `String(x)` on arrays: `[1, 2]` reads "1,2", an empty
      array "", and an object inside gives "[object Object]". */
  lemma ArrayItemTexts()
    ensures ItemText(ArrayItem([NumItem(1), NumItem(2)])) == "1,2"
    ensures ItemText(ArrayItem([])) == ""
    ensures ItemText(ArrayItem([NullItem, ObjectItem])) == "," + OBJECT_TEXT
  {
    var a := [NumItem(1), NumItem(2)];
    assert IntToString(1) == "1" && IntToString(2) == "2";
    assert seq(|a|, i requires 0 <= i < |a| => if a[i].NullItem? then "" else ItemText(a[i])) == ["1", "2"];
    assert ["1", "2"][1..] == ["2"];
    assert ItemText(ArrayItem(a)) == Join(["1", "2"], ",") == "1" + "," + "2";
    var b := [NullItem, ObjectItem];
    assert seq(|b|, i requires 0 <= i < |b| => if b[i].NullItem? then "" else ItemText(b[i])) == ["", OBJECT_TEXT];
    assert ["", OBJECT_TEXT][1..] == [OBJECT_TEXT];
    assert ItemText(ArrayItem(b)) == Join(["", OBJECT_TEXT], ",") == "" + "," + OBJECT_TEXT;
  }

  function AsItem(s: string): Item
  {
    StrItem(s)
  }

  function CleanItem(item: Item): string
  {
    Trim(ItemText(item))
  }

  function NonEmpty(s: string): bool
  {
    s != ""
  }

  /** The entries of an array as text, trimmed, the empty ones dropped, in
      array order. */
  function CleanedTexts(items: seq<Item>): (r: seq<string>)
    ensures forall x :: x in r <==> x != "" && exists i :: 0 <= i < |items| && CleanItem(items[i]) == x
  {
    var cleaned := MapSeq(items, CleanItem);
    FilterMembers(cleaned, NonEmpty);
    Filter(cleaned, NonEmpty)
  }

  /** One stored field: an array, or anything else (missing included). */
  datatype StoredField = ListField(items: seq<Item>) | OtherField

  /** `normalizeList`: an array's entries stringified, trimmed, the empty
      ones dropped and exact repeats removed after their first occurrence;
      anything else gives the fallback. */
  function NormalizeList(field: StoredField, fallback: seq<string>): (r: seq<string>)
    ensures field.OtherField? ==> r == fallback
    ensures field.ListField? ==> NoDuplicates(r)
    ensures field.ListField? ==>
      forall x :: x in r <==> x != "" && exists i :: 0 <= i < |field.items| && CleanItem(field.items[i]) == x
    ensures field.ListField? ==> forall i, j :: 0 <= i < j < |r| ==>
      r[i] in CleanedTexts(field.items) && r[j] in CleanedTexts(field.items)
      && FirstIndex(CleanedTexts(field.items), r[i]) < FirstIndex(CleanedTexts(field.items), r[j])
  {
    match field
    case OtherField => fallback
    case ListField(items) =>
      var r := Distinct(CleanedTexts(items));
      DistinctCleaned(items, r);
      r
  }

  /** The de-duplicated cleaned texts: each once, exactly the non-empty
      cleaned entries, in the order of their first occurrences. */
  lemma DistinctCleaned(items: seq<Item>, r: seq<string>)
    requires r == Distinct(CleanedTexts(items))
    ensures NoDuplicates(r)
    ensures forall x :: x in r <==> x != "" && exists i :: 0 <= i < |items| && CleanItem(items[i]) == x
    ensures forall i, j :: 0 <= i < j < |r| ==>
      r[i] in CleanedTexts(items) && r[j] in CleanedTexts(items)
      && FirstIndex(CleanedTexts(items), r[i]) < FirstIndex(CleanedTexts(items), r[j])
  {
    var c := CleanedTexts(items);
    DistinctOrder(c);
    forall x
      ensures x in r <==> x in c
    {
      if x in c {
        var k :| 0 <= k < |c| && c[k] == x;
        assert c[k] in r;
      }
    }
  }

  /** A list restored from an array has no empty and no blank-padded entry. */
  lemma NormalizedEntriesTrimmed(items: seq<Item>, fallback: seq<string>)
    ensures forall x :: x in NormalizeList(ListField(items), fallback) ==> x != "" && Trim(x) == x
  {
    forall x | x in NormalizeList(ListField(items), fallback)
      ensures x != "" && Trim(x) == x
    {
      var i :| 0 <= i < |items| && CleanItem(items[i]) == x;
      TrimIdempotent(ItemText(items[i]));
    }
  }

  /** What storage holds under the lists' key. */
  datatype Storage =
    | Nothing
    | Unparseable
    | StoredObject(accounts: StoredField, categories: StoredField, subCategories: StoredField, names: StoredField)

  /** `loadOptions`: nothing stored or a parse failure gives the defaults;
      a stored object gives each list normalised with that list's default
      as fallback. */
  function LoadOptions(stored: Storage): (r: OptionState)
    ensures !stored.StoredObject? ==> r == DEFAULT_OPTIONS
    ensures stored.StoredObject? ==>
      r.accounts == NormalizeList(stored.accounts, DEFAULT_OPTIONS.accounts)
      && r.categories == NormalizeList(stored.categories, DEFAULT_OPTIONS.categories)
      && r.subCategories == NormalizeList(stored.subCategories, DEFAULT_OPTIONS.subCategories)
      && r.names == NormalizeList(stored.names, DEFAULT_OPTIONS.names)
  {
    match stored
    case StoredObject(a, c, s, n) =>
      OptionState(NormalizeList(a, DEFAULT_OPTIONS.accounts), NormalizeList(c, DEFAULT_OPTIONS.categories),
                  NormalizeList(s, DEFAULT_OPTIONS.subCategories), NormalizeList(n, DEFAULT_OPTIONS.names))
    case _ => DEFAULT_OPTIONS
  }

  /** Storing and restoring lists that are already normal gives them back. */
  lemma {:induction false} RestoreNormalList(list: seq<string>, fallback: seq<string>)
    requires NoDuplicates(list)
    requires forall i :: 0 <= i < |list| ==> list[i] != "" && Trim(list[i]) == list[i]
    ensures NormalizeList(ListField(MapSeq(list, AsItem)), fallback) == list
  {
    var items := MapSeq(list, AsItem);
    var cleaned := MapSeq(items, CleanItem);
    assert cleaned == list by {
      assert |cleaned| == |list|;
      forall i | 0 <= i < |list|
        ensures cleaned[i] == list[i]
      {
        assert CleanItem(items[i]) == Trim(list[i]);
      }
    }
    FilterAll(list, NonEmpty);
    DistinctOfDistinct(list);
  }
}
