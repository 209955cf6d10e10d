/** The list editor: one text input per option list with an add button,
    and a remove button per entry that asks for a second click on the same
    entry before it removes anything. Entries that are defaults, or that
    some transaction uses, cannot be removed. */
module OptionManager {
  import opened Common
  import opened Text
  import opened Ledger
  import opened OptionLists
  import opened ApiMapping

  // ---------------------------------------------------------------------------
  // Which entries can be removed

  /** The value a transaction carries in the field a list offers. */
  function UsedValue(t: ClientTransaction, key: OptionKey): string
  {
    match key
    case Accounts => t.account
    case Categories => CategoryName(t.category)
    case SubCategories => t.subCategory
    case Names => t.name
  }

  /** `isDefaultValue`: the value is in the default list. */
  predicate IsDefaultValue(key: OptionKey, value: string)
  {
    value in ListOf(DEFAULT_OPTIONS, key)
  }

  /** `isValueInUse`: some transaction carries the value in that field. */
  predicate IsValueInUse(txns: seq<ClientTransaction>, key: OptionKey, value: string)
  {
    exists i :: 0 <= i < |txns| && UsedValue(txns[i], key) == value
  }

  /** The remove button is disabled for defaults and for values in use. */
  predicate RemoveDisabled(txns: seq<ClientTransaction>, key: OptionKey, value: string)
  {
    IsDefaultValue(key, value) || IsValueInUse(txns, key, value)
  }

  /** The in-use badge is shown only for values that are not defaults. */
  predicate ShowsInUseBadge(txns: seq<ClientTransaction>, key: OptionKey, value: string)
  {
    IsValueInUse(txns, key, value) && !IsDefaultValue(key, value)
  }

  // ---------------------------------------------------------------------------
  // The two-click removal

  datatype Pending = Pending(key: OptionKey, value: string)

  /** The option lists together with the entry awaiting confirmation. */
  datatype ConfirmState = ConfirmState(options: OptionState, confirm: Option<Pending>)

  /** `handleRemove`: a click on the entry awaiting confirmation removes it
      and clears the confirmation; any other click only marks its entry. */
  function RemoveClick(s: ConfirmState, key: OptionKey, value: string): (r: ConfirmState)
    ensures s.confirm == Some(Pending(key, value)) ==> r.options == RemoveOption(s.options, key, value) && r.confirm.None?
    ensures s.confirm != Some(Pending(key, value)) ==> r.options == s.options && r.confirm == Some(Pending(key, value))
  {
    if s.confirm == Some(Pending(key, value)) then ConfirmState(RemoveOption(s.options, key, value), None)
    else s.(confirm := Some(Pending(key, value)))
  }

  /** A click on a button, which does nothing while the button is disabled. */
  function EnabledClick(s: ConfirmState, txns: seq<ClientTransaction>, key: OptionKey, value: string): ConfirmState
  {
    if RemoveDisabled(txns, key, value) then s else RemoveClick(s, key, value)
  }

  /** Two clicks on the same entry remove it, whatever was marked before;
      after them nothing awaits confirmation. */
  lemma TwoClicksRemove(s: ConfirmState, key: OptionKey, value: string)
    requires s.confirm != Some(Pending(key, value))
    ensures RemoveClick(RemoveClick(s, key, value), key, value) == ConfirmState(RemoveOption(s.options, key, value), None)
    ensures value !in ListOf(RemoveClick(RemoveClick(s, key, value), key, value).options, key)
  {
    RemoveMeaning(s.options, key, value);
  }

  /** A click on another entry in between cancels the first click: nothing
      is removed, and the other entry is the one marked. */
  lemma OtherClickCancels(s: ConfirmState, key: OptionKey, value: string, key2: OptionKey, value2: string)
    requires s.confirm != Some(Pending(key, value))
    requires Pending(key2, value2) != Pending(key, value)
    ensures var r := RemoveClick(RemoveClick(RemoveClick(s, key, value), key2, value2), key, value);
      r.options == s.options && r.confirm == Some(Pending(key, value))
  {
  }

  /** No click removes an entry that is a default or in use: the entries
      the click removes are exactly those equal to an enabled value. */
  lemma ProtectedEntriesStay(s: ConfirmState, txns: seq<ClientTransaction>, key: OptionKey, value: string, k: OptionKey, x: string)
    requires x in ListOf(s.options, k)
    requires RemoveDisabled(txns, k, x)
    ensures x in ListOf(EnabledClick(s, txns, key, value).options, k)
  {
    if !RemoveDisabled(txns, key, value) && s.confirm == Some(Pending(key, value)) && k == key {
      assert x != value;
      RemoveMeaning(s.options, key, value);
    }
  }

  /** A default entry has a disabled remove button and never the in-use
      badge, whatever the transactions; a click on it changes nothing. */
  lemma DefaultEntryProtected(s: ConfirmState, txns: seq<ClientTransaction>, key: OptionKey, value: string)
    requires IsDefaultValue(key, value)
    ensures RemoveDisabled(txns, key, value)
    ensures !ShowsInUseBadge(txns, key, value)
    ensures EnabledClick(s, txns, key, value) == s
  {
  }

  /** The value any transaction holds in a list's field is in use: its
      button is disabled, a click on it changes nothing, and it shows the
      in-use badge exactly when it is not also a default. */
  lemma InUseEntryProtected(s: ConfirmState, txns: seq<ClientTransaction>, key: OptionKey, j: nat)
    requires j < |txns|
    ensures IsValueInUse(txns, key, UsedValue(txns[j], key))
    ensures RemoveDisabled(txns, key, UsedValue(txns[j], key))
    ensures ShowsInUseBadge(txns, key, UsedValue(txns[j], key)) <==> !IsDefaultValue(key, UsedValue(txns[j], key))
    ensures EnabledClick(s, txns, key, UsedValue(txns[j], key)) == s
  {
  }

  /** An entry that is no default and that no transaction holds is
      removable: the button is enabled, no badge shows, and a click on it is
      the two-click removal. */
  lemma FreeEntryRemovable(s: ConfirmState, txns: seq<ClientTransaction>, key: OptionKey, value: string)
    requires value !in ListOf(DEFAULT_OPTIONS, key)
    requires forall j :: 0 <= j < |txns| ==> UsedValue(txns[j], key) != value
    ensures !IsValueInUse(txns, key, value) && !RemoveDisabled(txns, key, value)
    ensures !ShowsInUseBadge(txns, key, value)
    ensures EnabledClick(s, txns, key, value) == RemoveClick(s, key, value)
  {
  }

  // ---------------------------------------------------------------------------
  // The editor

  class Manager {
    /** The shared option lists the editor changes. */
    var options: OptionState
    /** The text typed into each list's input. */
    var inputs: map<OptionKey, string>
    var confirm: Option<Pending>

    predicate Valid()
      reads this
    {
      forall k: OptionKey :: k in inputs
    }

    constructor (initial: OptionState)
      ensures Valid()
      ensures options == initial && confirm.None?
      ensures forall k :: inputs[k] == ""
    {
      var empty := map[Accounts := "", Categories := "", SubCategories := "", Names := ""];
      forall k: OptionKey
        ensures k in empty && empty[k] == ""
      {
        match k
        case Accounts =>
        case Categories =>
        case SubCategories =>
        case Names =>
      }
      options := initial;
      inputs := empty;
      confirm := None;
    }

    /** Typing into a list's input. */
    method SetInput(key: OptionKey, text: string)
      requires Valid()
      modifies this
      ensures Valid()
      ensures inputs == old(inputs)[key := text]
      ensures options == old(options) && confirm == old(confirm)
    {
      inputs := inputs[key := text];
    }

    /** `handleAdd`: a blank input does nothing; otherwise the trimmed text
        is offered to the list and only that list's input is cleared. */
    method HandleAdd(key: OptionKey)
      requires Valid()
      modifies this
      ensures Valid()
      ensures confirm == old(confirm)
      ensures Trim(old(inputs)[key]) == "" ==> options == old(options) && inputs == old(inputs)
      ensures Trim(old(inputs)[key]) != "" ==>
        options == AddOption(old(options), key, Trim(old(inputs)[key])) && inputs == old(inputs)[key := ""]
    {
      var value := Trim(inputs[key]);
      if value == "" {
        return;
      }
      options := AddOption(options, key, value);
      inputs := inputs[key := ""];
    }

    /** `handleRemove`. */
    method HandleRemove(key: OptionKey, value: string)
      modifies this
      ensures ConfirmState(options, confirm) == RemoveClick(ConfirmState(old(options), old(confirm)), key, value)
      ensures inputs == old(inputs)
    {
      if confirm == Some(Pending(key, value)) {
        options := RemoveOption(options, key, value);
        confirm := None;
      } else {
        confirm := Some(Pending(key, value));
      }
    }
  }

  /** Adding through the editor is adding the typed text: trimming it first
      changes nothing, since the lists trim what they are given. */
  lemma AddTrimmedIsAdd(options: OptionState, key: OptionKey, typed: string)
    ensures Trim(typed) != "" ==> AddOption(options, key, Trim(typed)) == AddOption(options, key, typed)
    ensures Trim(typed) == "" ==> AddOption(options, key, typed) == options
  {
    TrimIdempotent(typed);
  }
}
