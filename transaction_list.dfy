/** The transaction list's free-text search and its optional limit: a
    record matches when the lower-cased term occurs in one of its lower-cased
    texts or the raw term occurs in its amount's decimal text; the list then
    shows the first `limit` matches when a limit is set. */
module TransactionSearch {
  import opened Common
  import opened Text
  import opened Ledger

  /** The record's texts the term is looked up in, lower-cased. */
  predicate TextMatch(t: Transaction, term: string)
  {
    var needle := Lower(term);
    Contains(Lower(t.description), needle) || Contains(Lower(CategoryName(t.category)), needle)
    || Contains(Lower(t.subCategory), needle) || Contains(Lower(t.name), needle)
    || Contains(Lower(t.notes), needle)
  }

  function Matches(term: string): Transaction -> bool
  {
    t => TextMatch(t, term) || Contains(IntToString(t.amount), term)
  }

  /** `filtered`. */
  function Search(txns: seq<Transaction>, term: string): seq<Transaction>
  {
    Filter(txns, Matches(term))
  }

  /** A record is found exactly when it matches; the matches keep their
      order. */
  lemma SearchMeaning(txns: seq<Transaction>, term: string)
    ensures forall t :: t in Search(txns, term) <==> t in txns && (TextMatch(t, term) || Contains(IntToString(t.amount), term))
    ensures IsSubsequence(Search(txns, term), txns)
  {
    FilterMembers(txns, Matches(term));
    FilterIsSubsequence(txns, Matches(term));
  }

  /** The empty term matches every record. */
  lemma EmptySearchKeepsAll(txns: seq<Transaction>)
    ensures Search(txns, "") == txns
  {
    forall t | t in txns
      ensures Matches("")(t)
    {
      ContainsEmpty(Lower(t.description));
    }
    FilterAll(txns, Matches(""));
  }

  /** The search ignores the letter case of the term for the texts. */
  lemma SearchCaseInsensitive(t: Transaction, term: string)
    ensures TextMatch(t, term) == TextMatch(t, Lower(term))
  {
    LowerIdempotent(term);
  }

  /** `s.slice(0, k)`, where a negative `k` counts back from the end. */
  function SliceTo<T>(s: seq<T>, k: int): (r: seq<T>)
    ensures k >= 0 ==> r == Take(s, k)
    ensures k < 0 ==> r == s[..if |s| + k > 0 then |s| + k else 0]
  {
    if k >= 0 then Take(s, k) else s[..if |s| + k > 0 then |s| + k else 0]
  }

  /** `displayData`: a limit of 0 stands for "no limit" (the prop absent or 0). */
  function Displayed(txns: seq<Transaction>, term: string, limit: int): seq<Transaction>
  {
    var filtered := Search(txns, term);
    if limit != 0 then SliceTo(filtered, limit) else filtered
  }

  /** The "showing recent" footer. */
  predicate ShowsFooter(txns: seq<Transaction>, term: string, limit: int)
  {
    limit != 0 && |Search(txns, term)| > limit
  }

  /** With a positive limit the list shows the first `limit` matches, and
      the footer appears exactly when matches are hidden; without a limit all
      matches are shown. */
  lemma DisplayedMeaning(txns: seq<Transaction>, term: string, limit: int)
    ensures limit == 0 ==> Displayed(txns, term, limit) == Search(txns, term)
    ensures limit > 0 ==>
      Displayed(txns, term, limit) == Search(txns, term)[..if limit < |Search(txns, term)| then limit else |Search(txns, term)|]
    ensures limit > 0 ==> (ShowsFooter(txns, term, limit) <==> |Displayed(txns, term, limit)| < |Search(txns, term)|)
  {
    var f := Search(txns, term);
    if limit > 0 && limit >= |f| {
      assert f[..|f|] == f;
    }
  }
}
