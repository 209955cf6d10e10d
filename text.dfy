/** String operations the source takes from JavaScript's `String`
    prototype: lower-casing, trimming, splitting on one character, joining,
    substring search, whitespace-run replacement, decimal rendering of
    integers, and the UTF-16 code units behind `length` and the default
    `sort()`. */
module Text {
  import Common

  // ---------------------------------------------------------------------------
  // Characters

  /** The characters JavaScript's `trim()` and the regex class `\s` treat
      as white space (WhiteSpace and LineTerminator). */
  predicate IsSpace(c: char)
  {
    c == ' ' || c == '\t' || c == '\n' || c == '\r' || c == '\U{000B}' || c == '\U{000C}'
    || c == '\U{00A0}' || c == '\U{1680}' || ('\U{2000}' <= c <= '\U{200A}')
    || c == '\U{2028}' || c == '\U{2029}' || c == '\U{202F}' || c == '\U{205F}'
    || c == '\U{3000}' || c == '\U{FEFF}'
  }

  predicate IsUpper(c: char)
  {
    'A' <= c <= 'Z'
  }

  predicate IsDigit(c: char)
  {
    '0' <= c <= '9'
  }

  function LowerChar(c: char): (r: char)
    ensures !IsUpper(r)
    ensures IsUpper(c) ==> r as int == c as int + 32
    ensures !IsUpper(c) ==> r == c
  {
    if IsUpper(c) then (c as int + 32) as char else c
  }

  /** `toLowerCase()` on the ASCII letters. */
  function Lower(s: string): (r: string)
    ensures |r| == |s|
    ensures forall i :: 0 <= i < |s| ==> r[i] == LowerChar(s[i])
  {
    seq(|s|, i requires 0 <= i < |s| => LowerChar(s[i]))
  }

  lemma LowerIdempotent(s: string)
    ensures Lower(Lower(s)) == Lower(s)
  {
  }

  // ---------------------------------------------------------------------------
  // Trimming

  function TrimStart(s: string): (r: string)
    ensures |r| <= |s| && r == s[|s| - |r|..]
    ensures r == [] || !IsSpace(r[0])
    ensures forall i :: 0 <= i < |s| - |r| ==> IsSpace(s[i])
    decreases |s|
  {
    if s != [] && IsSpace(s[0]) then TrimStart(s[1..]) else s
  }

  function TrimEnd(s: string): (r: string)
    ensures |r| <= |s| && r == s[..|r|]
    ensures r == [] || !IsSpace(r[|r| - 1])
    ensures forall i :: |r| <= i < |s| ==> IsSpace(s[i])
    decreases |s|
  {
    if s != [] && IsSpace(s[|s| - 1]) then TrimEnd(s[..|s| - 1]) else s
  }

  /** `trim()`: the input without leading and trailing white space. */
  function Trim(s: string): (r: string)
    ensures r == [] || (!IsSpace(r[0]) && !IsSpace(r[|r| - 1]))
    ensures |r| <= |s|
  {
    TrimEnd(TrimStart(s))
  }

  /** A string made only of white space trims to the empty string, and only such a string does. */
  lemma {:induction false} TrimEmptyIff(s: string)
    ensures Trim(s) == [] <==> forall i :: 0 <= i < |s| ==> IsSpace(s[i])
  {
    var t := TrimStart(s);
    if exists k :: 0 <= k < |s| && !IsSpace(s[k]) {
      var k :| 0 <= k < |s| && !IsSpace(s[k]);
      var j := k - (|s| - |t|);
      assert 0 <= j < |t| && t[j] == s[k];
      assert j < |TrimEnd(t)|;
    }
  }

  lemma TrimOfTrimmed(s: string)
    requires s == [] || (!IsSpace(s[0]) && !IsSpace(s[|s| - 1]))
    ensures Trim(s) == s
  {
  }

  /** Trimming keeps a stretch of the text, so it adds no character. */
  lemma TrimInside(s: string)
    ensures forall c :: c in Trim(s) ==> c in s
  {
    var t := TrimStart(s);
    var u := TrimEnd(t);
    assert u == t[..|u|] && t == s[|s| - |t|..];
    assert u == s[|s| - |t|..|s| - |t| + |u|];
  }

  lemma TrimIdempotent(s: string)
    ensures Trim(Trim(s)) == Trim(s)
  {
    TrimOfTrimmed(Trim(s));
  }

  // ---------------------------------------------------------------------------
  // Splitting and joining

  /** `s.split(sep)` for a one-character separator: the pieces between
      separators, always at least one (possibly empty) piece. */
  function Split(s: string, sep: char): (r: seq<string>)
    ensures |r| >= 1
    ensures forall i :: 0 <= i < |r| ==> sep !in r[i]
    decreases |s|
  {
    if s == [] then [[]]
    else if s[0] == sep then [[]] + Split(s[1..], sep)
    else
      var rest := Split(s[1..], sep);
      [[s[0]] + rest[0]] + rest[1..]
  }

  /** `parts.join(sep)`. */
  function Join(parts: seq<string>, sep: string): string
    decreases |parts|
  {
    if parts == [] then []
    else if |parts| == 1 then parts[0]
    else parts[0] + sep + Join(parts[1..], sep)
  }

  /** Joining the pieces of a split with the separator gives the input back. */
  lemma {:induction false} JoinSplit(s: string, sep: char)
    ensures Join(Split(s, sep), [sep]) == s
    decreases |s|
  {
    if s != [] {
      JoinSplit(s[1..], sep);
      var rest := Split(s[1..], sep);
      if s[0] == sep {
        assert Split(s, sep)[1..] == rest;
      } else {
        var r := Split(s, sep);
        assert r[1..] == rest[1..];
        if |rest| == 1 {
          assert Join(rest, [sep]) == rest[0];
        } else {
          assert rest == [rest[0]] + rest[1..];
          assert Join(rest, [sep]) == rest[0] + [sep] + Join(rest[1..], [sep]);
          assert Join(r, [sep]) == ([s[0]] + rest[0]) + [sep] + Join(rest[1..], [sep]);
        }
      }
    }
  }

  lemma {:induction false} SplitNoSeparator(s: string, sep: char)
    requires sep !in s
    ensures Split(s, sep) == [s]
    decreases |s|
  {
    if s != [] {
      SplitNoSeparator(s[1..], sep);
      assert s[0] != sep;
      assert [s[0]] + s[1..] == s;
    }
  }

  lemma {:induction false} SplitAppendSeparated(a: string, sep: char, b: string)
    requires sep !in a
    ensures Split(a + [sep] + b, sep) == [a] + Split(b, sep)
    decreases |a|
  {
    if a == [] {
      assert a + [sep] + b == [sep] + b;
      assert ([sep] + b)[1..] == b;
    } else {
      assert (a + [sep] + b)[1..] == a[1..] + [sep] + b;
      SplitAppendSeparated(a[1..], sep, b);
      assert [a[0]] + a[1..] == a;
    }
  }

  /** Splitting a join of separator-free pieces gives the pieces back. */
  lemma {:induction false} SplitJoin(parts: seq<string>, sep: char)
    requires |parts| >= 1
    requires forall i :: 0 <= i < |parts| ==> sep !in parts[i]
    ensures Split(Join(parts, [sep]), sep) == parts
    decreases |parts|
  {
    if |parts| == 1 {
      SplitNoSeparator(parts[0], sep);
    } else {
      SplitJoin(parts[1..], sep);
      SplitAppendSeparated(parts[0], sep, Join(parts[1..], [sep]));
    }
  }

  /** A join of pieces free of `c` with a separator free of `c` is free of `c`. */
  lemma {:induction false} JoinFreeOf(parts: seq<string>, sep: string, c: char)
    requires c !in sep
    requires forall i :: 0 <= i < |parts| ==> c !in parts[i]
    ensures c !in Join(parts, sep)
    decreases |parts|
  {
    if |parts| > 1 {
      JoinFreeOf(parts[1..], sep, c);
    }
  }

  /** The last piece of a split: `s.split(sep).pop()`. */
  function LastPiece(s: string, sep: char): string
  {
    var parts := Split(s, sep);
    parts[|parts| - 1]
  }

  // ---------------------------------------------------------------------------
  // Search and replacement

  predicate StartsWith(s: string, prefix: string)
  {
    |prefix| <= |s| && s[..|prefix|] == prefix
  }

  /** `s.includes(sub)`. */
  predicate Contains(s: string, sub: string)
    decreases |s|
  {
    StartsWith(s, sub) || (s != [] && Contains(s[1..], sub))
  }

  /** `sub` occurs in `s` starting at index `i`. */
  predicate OccursAt(s: string, sub: string, i: int)
  {
    0 <= i <= |s| - |sub| && s[i..i + |sub|] == sub
  }

  /** `includes` finds exactly the substrings at some position. */
  lemma {:induction false} ContainsIff(s: string, sub: string)
    ensures Contains(s, sub) <==> exists i :: OccursAt(s, sub, i)
    decreases |s|
  {
    if StartsWith(s, sub) {
      assert OccursAt(s, sub, 0);
    } else if s != [] {
      ContainsIff(s[1..], sub);
      if Contains(s[1..], sub) {
        var i :| OccursAt(s[1..], sub, i);
        assert s[i + 1..i + 1 + |sub|] == s[1..][i..i + |sub|];
        assert OccursAt(s, sub, i + 1);
      }
      if exists i :: OccursAt(s, sub, i) {
        var i :| OccursAt(s, sub, i);
        assert i != 0;
        assert s[1..][i - 1..i - 1 + |sub|] == s[i..i + |sub|];
        assert OccursAt(s[1..], sub, i - 1);
      }
    } else {
      assert forall i :: !OccursAt(s, sub, i);
    }
  }

  lemma ContainsEmpty(s: string)
    ensures Contains(s, [])
  {
  }

  /** `s.replace(/c/g, '')`. */
  function RemoveChar(s: string, c: char): (r: string)
    ensures c !in r
    ensures |r| <= |s|
    ensures c !in s ==> r == s
    decreases |s|
  {
    if s == [] then []
    else if s[0] == c then RemoveChar(s[1..], c)
    else [s[0]] + RemoveChar(s[1..], c)
  }

  /** `s.replace(/\s+/g, [rep])`: every run of white space becomes one `rep`. */
  function CollapseSpaces(s: string, rep: char): string
    decreases |s|
  {
    if s == [] then []
    else if IsSpace(s[0]) then [rep] + CollapseSpaces(DropSpaces(s[1..]), rep)
    else [s[0]] + CollapseSpaces(s[1..], rep)
  }

  /** Collapsing leaves no white space but `rep`. */
  lemma {:induction false} CollapseNoSpace(s: string, rep: char)
    ensures forall i :: 0 <= i < |CollapseSpaces(s, rep)| ==>
      !IsSpace(CollapseSpaces(s, rep)[i]) || CollapseSpaces(s, rep)[i] == rep
    decreases |s|
  {
    if s != [] {
      if IsSpace(s[0]) {
        CollapseNoSpace(DropSpaces(s[1..]), rep);
      } else {
        CollapseNoSpace(s[1..], rep);
      }
    }
  }

  /** Collapsing adds no character but `rep`. */
  lemma {:induction false} CollapseChars(s: string, rep: char)
    ensures forall i :: 0 <= i < |CollapseSpaces(s, rep)| ==>
      CollapseSpaces(s, rep)[i] == rep || CollapseSpaces(s, rep)[i] in s
    decreases |s|
  {
    if s != [] {
      var r := CollapseSpaces(s, rep);
      if IsSpace(s[0]) {
        var rest := DropSpaces(s[1..]);
        CollapseChars(rest, rep);
        forall i | 0 <= i < |r| && r[i] != rep
          ensures r[i] in s
        {
          assert r[i] == CollapseSpaces(rest, rep)[i - 1];
          assert r[i] in rest;
          var j :| 0 <= j < |rest| && rest[j] == r[i];
          assert s[|s| - |rest| + j] == r[i];
        }
      } else {
        CollapseChars(s[1..], rep);
        forall i | 0 <= i < |r| && r[i] != rep
          ensures r[i] in s
        {
          if i > 0 {
            assert r[i] == CollapseSpaces(s[1..], rep)[i - 1];
            var j :| 0 <= j < |s[1..]| && s[1..][j] == r[i];
            assert s[j + 1] == r[i];
          }
        }
      }
    }
  }

  /** A text without white space collapses to itself. */
  lemma {:induction false} CollapseNone(s: string, rep: char)
    requires forall i :: 0 <= i < |s| ==> !IsSpace(s[i])
    ensures CollapseSpaces(s, rep) == s
    decreases |s|
  {
    if s != [] {
      assert !IsSpace(s[0]);
      assert forall i :: 0 <= i < |s[1..]| ==> s[1..][i] == s[i + 1];
      CollapseNone(s[1..], rep);
      assert s == [s[0]] + s[1..];
    }
  }

  /** Collapsing gives the empty text only for the empty text. */
  lemma CollapseEmpty(s: string, rep: char)
    ensures CollapseSpaces(s, rep) == [] <==> s == []
  {
  }

  function DropSpaces(s: string): (r: string)
    ensures |r| <= |s|
    ensures r == s[|s| - |r|..]
    decreases |s|
  {
    if s != [] && IsSpace(s[0]) then DropSpaces(s[1..]) else s
  }

  // ---------------------------------------------------------------------------
  // Words and the white space between them

  /** A non-empty stretch without white space. */
  predicate IsWord(w: string)
  {
    w != [] && forall i :: 0 <= i < |w| ==> !IsSpace(w[i])
  }

  /** A non-empty run of white space. */
  predicate IsGap(g: string)
  {
    g != [] && forall i :: 0 <= i < |g| ==> IsSpace(g[i])
  }

  /** The words with a gap between each two: `w0 + g0 + w1 + ... + wn`. */
  function Interleave(words: seq<string>, gaps: seq<string>): string
    requires |words| == |gaps| + 1
    decreases |gaps|
  {
    if gaps == [] then words[0] else words[0] + gaps[0] + Interleave(words[1..], gaps[1..])
  }

  /** Words joined by one separator are the words interleaved with copies
      of it. */
  lemma {:induction false} JoinIsInterleave(words: seq<string>, sep: string)
    requires words != []
    ensures Join(words, sep) == Interleave(words, seq(|words| - 1, _ => sep))
    decreases |words|
  {
    if |words| > 1 {
      JoinIsInterleave(words[1..], sep);
      assert seq(|words| - 1, _ => sep)[1..] == seq(|words| - 2, _ => sep);
    }
  }

  /** Interleaved words start and end with a character that is no white
      space. */
  lemma {:induction false} InterleaveEnds(words: seq<string>, gaps: seq<string>)
    requires |words| == |gaps| + 1
    requires forall k :: 0 <= k < |words| ==> IsWord(words[k])
    ensures var s := Interleave(words, gaps); s != [] && !IsSpace(s[0]) && !IsSpace(s[|s| - 1])
    decreases |gaps|
  {
    if gaps != [] {
      InterleaveEnds(words[1..], gaps[1..]);
      assert IsWord(words[0]);
    } else {
      assert IsWord(words[0]);
    }
  }

  /** A text made only of white space. */
  predicate AllSpace(s: string)
  {
    forall i :: 0 <= i < |s| ==> IsSpace(s[i])
  }

  /** The length of the leading run of white space. */
  function SpaceRun(s: string): (n: nat)
    ensures n <= |s| && AllSpace(s[..n]) && (n == |s| || !IsSpace(s[n]))
    decreases |s|
  {
    if s != [] && IsSpace(s[0]) then
      var n := SpaceRun(s[1..]);
      assert forall i :: 1 <= i <= n ==> s[i] == s[1..][i - 1];
      1 + n
    else 0
  }

  /** The length of the leading stretch without white space. */
  function WordRun(s: string): (n: nat)
    ensures n <= |s| && (forall i :: 0 <= i < n ==> !IsSpace(s[i])) && (n == |s| || IsSpace(s[n]))
    decreases |s|
  {
    if s != [] && !IsSpace(s[0]) then
      var n := WordRun(s[1..]);
      assert forall i :: 1 <= i <= n ==> s[i] == s[1..][i - 1];
      1 + n
    else 0
  }

  /** Every text with a character other than white space is words with
      gaps between them, perhaps with white space around them. */
  lemma {:induction false} WordsOfText(s: string) returns (lead: string, words: seq<string>, gaps: seq<string>, trail: string)
    requires !AllSpace(s)
    ensures |words| == |gaps| + 1
    ensures forall k :: 0 <= k < |words| ==> IsWord(words[k])
    ensures forall k :: 0 <= k < |gaps| ==> IsGap(gaps[k])
    ensures AllSpace(lead) && AllSpace(trail)
    ensures s == lead + Interleave(words, gaps) + trail
    decreases |s|
  {
    var w, after;
    lead, w, after := LeadingWord(s);
    if AllSpace(after) {
      words, gaps, trail := [w], [], after;
      assert Interleave(words, gaps) == w;
    } else {
      var gap, remainder := LeadingGap(after);
      var lead2, words2, gaps2, trail2 := WordsOfText(remainder);
      var tail := Interleave(words2, gaps2);
      GapAppend(gap, lead2);
      words, gaps := ConsWordGap(w, gap + lead2, words2, gaps2);
      trail := trail2;
      assert Interleave(words, gaps) == w + (gap + lead2) + tail by {
        assert words[1..] == words2 && gaps[1..] == gaps2;
      }
      ConcatFive(lead, w, gap, lead2, tail, trail2);
    }
  }

  /** A text that is not all white space starts with white space, then a
      word. */
  lemma LeadingWord(s: string) returns (lead: string, w: string, after: string)
    requires !AllSpace(s)
    ensures AllSpace(lead) && IsWord(w) && s == lead + (w + after)
    ensures |after| < |s| && (after == [] || IsSpace(after[0]))
  {
    var n := SpaceRun(s);
    assert s[..|s|] == s;
    lead := s[..n];
    var rest := s[n..];
    var m := WordRun(rest);
    w := rest[..m];
    after := rest[m..];
    Common.SplitAt(s, n);
    Common.SplitAt(rest, m);
  }

  /** A text that is not all white space, after a word, starts with a gap
      and goes on with a text that is not all white space either. */
  lemma LeadingGap(after: string) returns (gap: string, remainder: string)
    requires !AllSpace(after) && IsSpace(after[0])
    ensures IsGap(gap) && after == gap + remainder && !AllSpace(remainder)
    ensures |remainder| <= |after|
  {
    var g := SpaceRun(after);
    gap := after[..g];
    remainder := after[g..];
    Common.SplitAt(after, g);
  }

  /** Prepending a word and a gap keeps the conditions of words and gaps. */
  lemma ConsWordGap(w: string, g: string, words: seq<string>, gaps: seq<string>)
    returns (words': seq<string>, gaps': seq<string>)
    requires IsWord(w) && IsGap(g)
    requires forall k :: 0 <= k < |words| ==> IsWord(words[k])
    requires forall k :: 0 <= k < |gaps| ==> IsGap(gaps[k])
    ensures words' == [w] + words && gaps' == [g] + gaps
    ensures forall k :: 0 <= k < |words'| ==> IsWord(words'[k])
    ensures forall k :: 0 <= k < |gaps'| ==> IsGap(gaps'[k])
  {
    words', gaps' := [w] + words, [g] + gaps;
  }

  /** A gap followed by more white space is a gap. */
  lemma GapAppend(gap: string, more: string)
    requires IsGap(gap) && AllSpace(more)
    ensures IsGap(gap + more)
  {
  }

  /** Regrouping a concatenation of six texts. */
  lemma ConcatFive(a: string, b: string, c: string, d: string, e: string, f: string)
    ensures a + (b + (c + (d + e + f))) == a + (b + (c + d) + e) + f
  {
  }

  /** Trimming the start drops exactly a leading run of white space. */
  lemma TrimStartLead(lead: string, y: string)
    requires AllSpace(lead)
    requires y != [] && !IsSpace(y[0])
    ensures TrimStart(lead + y) == y
  {
    var s := lead + y;
    var t := TrimStart(s);
    var cut := |s| - |t|;
    assert s[|lead|] == y[0];
    assert cut <= |lead|;
    assert s[|lead|..] == y;
  }

  /** Trimming the end drops exactly a trailing run of white space. */
  lemma TrimEndTrail(y: string, trail: string)
    requires AllSpace(trail)
    requires y != [] && !IsSpace(y[|y| - 1])
    ensures TrimEnd(y + trail) == y
  {
    var s := y + trail;
    var t := TrimEnd(s);
    assert s[|y| - 1] == y[|y| - 1];
    assert |t| >= |y|;
    assert s[..|y|] == y;
  }

  /** Trimming drops exactly the white space around a text that starts and
      ends with other characters. */
  lemma TrimAround(lead: string, x: string, trail: string)
    requires AllSpace(lead) && AllSpace(trail)
    requires x != [] && !IsSpace(x[0]) && !IsSpace(x[|x| - 1])
    ensures Trim(lead + x + trail) == x
  {
    assert lead + x + trail == lead + (x + trail);
    TrimStartLead(lead, x + trail);
    TrimEndTrail(x, trail);
  }

  /** Lower-casing goes piecewise over a concatenation. */
  lemma LowerAppend(a: string, b: string)
    ensures Lower(a + b) == Lower(a) + Lower(b)
  {
  }

  /** Lower-casing interleaved words lower-cases each word and keeps the
      gaps. */
  lemma {:induction false} LowerInterleave(words: seq<string>, gaps: seq<string>)
    requires |words| == |gaps| + 1
    requires forall k :: 0 <= k < |gaps| ==> IsGap(gaps[k])
    ensures Lower(Interleave(words, gaps)) == Interleave(Common.MapSeq(words, Lower), gaps)
    decreases |gaps|
  {
    if gaps != [] {
      LowerInterleave(words[1..], gaps[1..]);
      assert Common.MapSeq(words, Lower)[1..] == Common.MapSeq(words[1..], Lower);
      assert IsGap(gaps[0]) && Lower(gaps[0]) == gaps[0];
      LowerAppend(words[0] + gaps[0], Interleave(words[1..], gaps[1..]));
      LowerAppend(words[0], gaps[0]);
    }
  }

  /** Lower-casing a word gives a word. */
  lemma LowerWord(w: string)
    requires IsWord(w)
    ensures IsWord(Lower(w))
  {
    forall i | 0 <= i < |w|
      ensures !IsSpace(Lower(w)[i])
    {
      assert !IsSpace(w[i]);
    }
  }

  /** Suppressing white space passes over a run of it. */
  lemma {:induction false} DropSpacesGap(g: string, rest: string)
    requires AllSpace(g)
    requires rest == [] || !IsSpace(rest[0])
    ensures DropSpaces(g + rest) == rest
    decreases |g|
  {
    if g != [] {
      assert (g + rest)[1..] == g[1..] + rest;
      DropSpacesGap(g[1..], rest);
    } else {
      assert g + rest == rest;
    }
  }

  /** Collapsing keeps a character that is not white space. */
  lemma CollapseStep(x: char, t: string, u: string, rep: char)
    requires !IsSpace(x) && u == [x] + t
    ensures CollapseSpaces(u, rep) == [x] + CollapseSpaces(t, rep)
  {
    assert u[0] == x && u[1..] == t;
  }

  /** Collapsing keeps a leading word. */
  lemma {:induction false} CollapseWord(w: string, rest: string, rep: char)
    requires forall i :: 0 <= i < |w| ==> !IsSpace(w[i])
    ensures CollapseSpaces(w + rest, rep) == w + CollapseSpaces(rest, rep)
    decreases |w|
  {
    if w == [] {
      assert w + rest == rest;
    } else {
      CollapseWord(w[1..], rest, rep);
      CollapseWordStep(w, rest, rep);
    }
  }

  /** The step of CollapseWord: one more leading character before a word
      whose collapse is known. */
  lemma CollapseWordStep(w: string, rest: string, rep: char)
    requires w != [] && !IsSpace(w[0])
    requires CollapseSpaces(w[1..] + rest, rep) == w[1..] + CollapseSpaces(rest, rep)
    ensures CollapseSpaces(w + rest, rep) == w + CollapseSpaces(rest, rep)
  {
    var t := w[1..] + rest;
    assert w + rest == [w[0]] + t;
    CollapseStep(w[0], t, w + rest, rep);
    ConsAppend(w, CollapseSpaces(rest, rep));
  }

  /** Putting back the head of a non-empty sequence. */
  lemma ConsAppend<T>(w: seq<T>, c: seq<T>)
    requires w != []
    ensures [w[0]] + (w[1..] + c) == w + c
  {
    assert w == [w[0]] + w[1..];
  }

  /** Collapsing turns a leading gap into one `rep`. */
  lemma CollapseGap(g: string, rest: string, rep: char)
    requires IsGap(g)
    requires rest == [] || !IsSpace(rest[0])
    ensures CollapseSpaces(g + rest, rep) == [rep] + CollapseSpaces(rest, rep)
  {
    assert (g + rest)[1..] == g[1..] + rest;
    DropSpacesGap(g[1..], rest);
  }

  /** Collapsing interleaved words and gaps joins the words with `rep`. */
  lemma {:induction false} CollapseInterleave(words: seq<string>, gaps: seq<string>, rep: char)
    requires |words| == |gaps| + 1
    requires forall k :: 0 <= k < |words| ==> IsWord(words[k])
    requires forall k :: 0 <= k < |gaps| ==> IsGap(gaps[k])
    ensures CollapseSpaces(Interleave(words, gaps), rep) == Join(words, [rep])
    decreases |gaps|
  {
    assert IsWord(words[0]);
    if gaps == [] {
      CollapseWord(words[0], [], rep);
      assert words[0] + [] == words[0];
    } else {
      var rest := Interleave(words[1..], gaps[1..]);
      CollapseInterleave(words[1..], gaps[1..], rep);
      InterleaveEnds(words[1..], gaps[1..]);
      assert words[0] + gaps[0] + rest == words[0] + (gaps[0] + rest);
      CollapseWord(words[0], gaps[0] + rest, rep);
      CollapseGap(gaps[0], rest, rep);
    }
  }

  // ---------------------------------------------------------------------------
  // Decimal rendering

  function DigitChar(d: nat): (c: char)
    requires d < 10
    ensures IsDigit(c)
  {
    ('0' as int + d) as char
  }

  /** `String(n)` for a non-negative integer. */
  function NatToString(n: nat): (r: string)
    ensures |r| >= 1
    ensures forall i :: 0 <= i < |r| ==> IsDigit(r[i])
    decreases n
  {
    if n < 10 then [DigitChar(n)] else NatToString(n / 10) + [DigitChar(n % 10)]
  }

  /** The last character of a decimal rendering is the units digit. */
  lemma LastDigit(n: nat)
    ensures NatToString(n)[|NatToString(n)| - 1] == DigitChar(n % 10)
  {
  }

  /** `String(i)` for an integer. */
  function IntToString(i: int): (r: string)
    ensures |r| >= 1
    ensures (i < 0) == (r[0] == '-')
  {
    if i < 0 then "-" + NatToString(-i) else NatToString(i)
  }

  /** The value of a string of decimal digits. */
  function DigitsValue(s: string): (v: int)
    requires forall i :: 0 <= i < |s| ==> IsDigit(s[i])
    ensures v >= 0
    decreases |s|
  {
    if s == [] then 0
    else
      assert IsDigit(s[|s| - 1]);
      DigitsValue(s[..|s| - 1]) * 10 + (s[|s| - 1] as int - '0' as int)
  }

  /** Reading back the decimal rendering of a number gives the number. */
  lemma {:induction false} DigitsValueOfNat(n: nat)
    ensures DigitsValue(NatToString(n)) == n
    decreases n
  {
    if n >= 10 {
      DigitsValueOfNat(n / 10);
      var s := NatToString(n);
      assert s[..|s| - 1] == NatToString(n / 10);
    }
  }

  // ---------------------------------------------------------------------------
  // UTF-16 code units (JavaScript's `length` and its default string order)

  const SUPPLEMENTARY_START: int := 0x1_0000

  /** The UTF-16 encoding of one character: itself below U+10000, otherwise
      a high and a low surrogate. */
  function CharUnits(c: char): seq<int>
  {
    var n := c as int;
    if n < SUPPLEMENTARY_START then [n]
    else [0xD800 + (n - SUPPLEMENTARY_START) / 0x400, 0xDC00 + (n - SUPPLEMENTARY_START) % 0x400]
  }

  /** The UTF-16 code units of a string, the units JavaScript counts and compares. */
  function CodeUnits(s: string): seq<int>
    decreases |s|
  {
    if s == [] then [] else CharUnits(s[0]) + CodeUnits(s[1..])
  }

  /** `s.length`: one unit per character below U+10000, two per character
      from U+10000 on. */
  function Utf16Length(s: string): nat
    decreases |s|
  {
    if s == [] then 0
    else (if (s[0] as int) < SUPPLEMENTARY_START then 1 else 2) + Utf16Length(s[1..])
  }

  /** The count is the number of UTF-16 code units. */
  lemma {:induction false} Utf16LengthIsUnits(s: string)
    ensures Utf16Length(s) == |CodeUnits(s)|
    decreases |s|
  {
    if s != [] {
      Utf16LengthIsUnits(s[1..]);
    }
  }

  lemma {:induction false} CodeUnitsAppend(a: string, b: string)
    ensures CodeUnits(a + b) == CodeUnits(a) + CodeUnits(b)
    decreases |a|
  {
    if a == [] {
      assert a + b == b;
    } else {
      assert (a + b)[0] == a[0] && (a + b)[1..] == a[1..] + b;
      CodeUnitsAppend(a[1..], b);
    }
  }

  /** Each character is one or two units: a string counts as many units as
      characters exactly when it has no character from U+10000 on, and twice
      as many exactly when it has only such characters. */
  lemma {:induction false} Utf16LengthBounds(s: string)
    ensures |s| <= Utf16Length(s) <= 2 * |s|
    ensures Utf16Length(s) == |s| <==> forall i :: 0 <= i < |s| ==> (s[i] as int) < SUPPLEMENTARY_START
    ensures Utf16Length(s) == 2 * |s| <==> forall i :: 0 <= i < |s| ==> (s[i] as int) >= SUPPLEMENTARY_START
    decreases |s|
  {
    if s != [] {
      var t := s[1..];
      Utf16LengthBounds(t);
      assert forall i :: 0 <= i < |t| ==> t[i] == s[i + 1];
      if forall i :: 0 <= i < |t| ==> (t[i] as int) < SUPPLEMENTARY_START {
        assert forall i :: 1 <= i < |s| ==> s[i] == t[i - 1];
      }
      if forall i :: 0 <= i < |t| ==> (t[i] as int) >= SUPPLEMENTARY_START {
        assert forall i :: 1 <= i < |s| ==> s[i] == t[i - 1];
      }
    }
  }

  /** Lexicographic order on code units, a proper prefix first. */
  predicate UnitsLt(u: seq<int>, v: seq<int>)
    decreases |u|
  {
    if u == [] then v != []
    else if v == [] then false
    else u[0] < v[0] || (u[0] == v[0] && UnitsLt(u[1..], v[1..]))
  }

  /** Where a character sorts among characters by its UTF-16 units: the
      characters above the surrogate range, U+E000 to U+FFFF, come after every
      supplementary character, whose first unit is a surrogate. */
  function UnitKey(c: char): (k: int)
    ensures 0 <= k < CHAR_BASE
  {
    var n := c as int;
    if n < 0xD800 || n >= SUPPLEMENTARY_START then n else n + 0x11_0000
  }

  /** String order by UTF-16 code units (the default `Array.prototype.sort()`),
      computed character by character through `UnitKey`. */
  predicate StrLt(a: string, b: string)
    decreases |a|
  {
    if a == [] then b != []
    else if b == [] then false
    else UnitKey(a[0]) < UnitKey(b[0]) || (a[0] == b[0] && StrLt(a[1..], b[1..]))
  }

  lemma {:induction false} UnitsLtCommonPrefix(p: seq<int>, x: seq<int>, y: seq<int>)
    ensures UnitsLt(p + x, p + y) <==> UnitsLt(x, y)
    decreases |p|
  {
    if p != [] {
      assert (p + x)[0] == p[0] && (p + y)[0] == p[0];
      assert (p + x)[1..] == p[1..] + x;
      assert (p + y)[1..] == p[1..] + y;
      UnitsLtCommonPrefix(p[1..], x, y);
    } else {
      assert p + x == x && p + y == y;
    }
  }

  /** The surrogate pair of an offset below 0x100000 orders as the offset does. */
  lemma SurrogateOrder(d: int, e: int)
    requires 0 <= d < 0x10_0000 && 0 <= e < 0x10_0000
    ensures d / 0x400 < e / 0x400 ==> d < e
    ensures d < e ==> d / 0x400 <= e / 0x400
    ensures d / 0x400 == e / 0x400 ==> (d % 0x400 < e % 0x400 <==> d < e)
    ensures d / 0x400 == e / 0x400 && d % 0x400 == e % 0x400 ==> d == e
    ensures 0 <= d / 0x400 < 0x400
  {
  }

  /** At the first character two strings differ in, their unit order is the key order. */
  lemma FirstCharDecides(x: char, y: char, rx: seq<int>, ry: seq<int>)
    requires x != y
    ensures UnitsLt(CharUnits(x) + rx, CharUnits(y) + ry) <==> UnitKey(x) < UnitKey(y)
  {
    var n, m := x as int, y as int;
    var u, v := CharUnits(x) + rx, CharUnits(y) + ry;
    if n < SUPPLEMENTARY_START && m < SUPPLEMENTARY_START {
      assert u[0] == n && v[0] == m;
    } else if n < SUPPLEMENTARY_START {
      SurrogateOrder(m - SUPPLEMENTARY_START, m - SUPPLEMENTARY_START);
      assert u[0] == n && v[0] == 0xD800 + (m - SUPPLEMENTARY_START) / 0x400;
    } else if m < SUPPLEMENTARY_START {
      SurrogateOrder(n - SUPPLEMENTARY_START, n - SUPPLEMENTARY_START);
      assert u[0] == 0xD800 + (n - SUPPLEMENTARY_START) / 0x400 && v[0] == m;
    } else {
      SurrogateOrder(n - SUPPLEMENTARY_START, m - SUPPLEMENTARY_START);
      assert u[0] == 0xD800 + (n - SUPPLEMENTARY_START) / 0x400;
      assert v[0] == 0xD800 + (m - SUPPLEMENTARY_START) / 0x400;
      assert u[1] == 0xDC00 + (n - SUPPLEMENTARY_START) % 0x400;
      assert v[1] == 0xDC00 + (m - SUPPLEMENTARY_START) % 0x400;
      assert u[1..][0] == u[1] && v[1..][0] == v[1];
    }
  }

  /** `StrLt` is the order of the strings' UTF-16 code units. */
  lemma {:induction false} StrLtIsCodeUnitOrder(a: string, b: string)
    ensures StrLt(a, b) <==> UnitsLt(CodeUnits(a), CodeUnits(b))
    decreases |a|
  {
    if a != [] && b != [] {
      if a[0] == b[0] {
        UnitsLtCommonPrefix(CharUnits(a[0]), CodeUnits(a[1..]), CodeUnits(b[1..]));
        StrLtIsCodeUnitOrder(a[1..], b[1..]);
      } else {
        FirstCharDecides(a[0], b[0], CodeUnits(a[1..]), CodeUnits(b[1..]));
      }
    } else if a == [] && b != [] {
      assert CodeUnits(b) != [];
    } else if a != [] {
      assert CodeUnits(a) != [];
    }
  }

  lemma {:induction false} StrLtIrreflexive(a: string)
    ensures !StrLt(a, a)
    decreases |a|
  {
    if a != [] {
      StrLtIrreflexive(a[1..]);
    }
  }

  lemma {:induction false} StrLtTransitive(a: string, b: string, c: string)
    requires StrLt(a, b) && StrLt(b, c)
    ensures StrLt(a, c)
    decreases |a|
  {
    if a != [] && a[0] == b[0] && b[0] == c[0] {
      StrLtTransitive(a[1..], b[1..], c[1..]);
    }
  }

  lemma {:induction false} StrLtTotal(a: string, b: string)
    ensures a == b || StrLt(a, b) || StrLt(b, a)
    decreases |a|
  {
    if a != [] && b != [] && a[0] == b[0] {
      StrLtTotal(a[1..], b[1..]);
      if a[1..] == b[1..] {
        assert a == [a[0]] + a[1..];
        assert b == [b[0]] + b[1..];
      }
    }
  }

  /** One more than the largest character key. */
  const CHAR_BASE: nat := 0x12_0000

  function Power(b: nat, n: nat): nat
  {
    if n == 0 then 1 else b * Power(b, n - 1)
  }

  /** The keys of `s`'s characters read as the digits of a number in base `CHAR_BASE`. */
  function Rank(s: string): nat
    decreases |s|
  {
    if s == [] then 0 else UnitKey(s[0]) * Power(CHAR_BASE, |s| - 1) + Rank(s[1..])
  }

  /** A leading digit below the base keeps the number below the next power. */
  lemma DigitStep(c: int, r: int, p: int, base: int)
    requires 0 <= c < base && 0 <= r < p
    ensures c * p + r < base * p
  {
    assert c * p + r < c * p + p == (c + 1) * p;
    assert (c + 1) * p <= base * p;
  }

  /** A smaller leading digit gives a smaller number, whatever the lower digits. */
  lemma DigitLess(c: int, d: int, r: int, q: int, p: int)
    requires c < d && 0 <= r < p && 0 <= q
    ensures c * p + r < d * p + q
  {
    assert c * p + r < c * p + p == (c + 1) * p;
    assert (c + 1) * p <= d * p;
  }

  lemma {:induction false} RankBound(s: string)
    ensures Rank(s) < Power(CHAR_BASE, |s|)
    decreases |s|
  {
    if s != [] {
      RankBound(s[1..]);
      DigitStep(UnitKey(s[0]), Rank(s[1..]), Power(CHAR_BASE, |s| - 1), CHAR_BASE);
    }
  }

  /** Between strings of one length, the rank order is the string order. */
  lemma {:induction false} RankOrders(a: string, b: string)
    requires |a| == |b| && StrLt(a, b)
    ensures Rank(a) < Rank(b)
    decreases |a|
  {
    if UnitKey(a[0]) < UnitKey(b[0]) {
      RankBound(a[1..]);
      DigitLess(UnitKey(a[0]), UnitKey(b[0]), Rank(a[1..]), Rank(b[1..]), Power(CHAR_BASE, |a| - 1));
    } else {
      RankOrders(a[1..], b[1..]);
    }
  }

  ghost predicate StrictlyIncreasing(s: seq<string>)
  {
    forall i, j :: 0 <= i < j < |s| ==> StrLt(s[i], s[j])
  }

  function InsertString(x: string, s: seq<string>): (r: seq<string>)
    ensures |r| == |s| + 1
    ensures multiset(r) == multiset(s) + multiset{x}
    decreases |s|
  {
    if s == [] || !StrLt(s[0], x) then [x] + s
    else
      assert s == [s[0]] + s[1..];
      [s[0]] + InsertString(x, s[1..])
  }

  lemma {:induction false} InsertStringLowerBound(x: string, s: seq<string>, m: string)
    requires StrLt(m, x)
    requires forall k :: 0 <= k < |s| ==> StrLt(m, s[k])
    ensures forall k :: 0 <= k < |s| + 1 ==> StrLt(m, InsertString(x, s)[k])
    decreases |s|
  {
    if s != [] && StrLt(s[0], x) {
      InsertStringLowerBound(x, s[1..], m);
    }
  }

  lemma {:induction false} InsertStringSorted(x: string, s: seq<string>)
    requires StrictlyIncreasing(s)
    requires x !in s
    ensures StrictlyIncreasing(InsertString(x, s))
    decreases |s|
  {
    if s == [] {
    } else if !StrLt(s[0], x) {
      StrLtTotal(s[0], x);
      assert StrLt(x, s[0]);
      var r := [x] + s;
      forall i, j | 0 <= i < j < |r|
        ensures StrLt(r[i], r[j])
      {
        if i == 0 && j > 1 {
          StrLtTransitive(x, s[0], s[j - 1]);
        }
      }
    } else {
      var rest := InsertString(x, s[1..]);
      InsertStringSorted(x, s[1..]);
      InsertStringLowerBound(x, s[1..], s[0]);
      var r := [s[0]] + rest;
      forall i, j | 0 <= i < j < |r|
        ensures StrLt(r[i], r[j])
      {
        assert r[j] == rest[j - 1];
        if i > 0 {
          assert r[i] == rest[i - 1];
        }
      }
    }
  }

  /** The default `sort()` of a list of distinct strings, in ascending UTF-16 code-unit order. */
  function SortStrings(s: seq<string>): (r: seq<string>)
    requires forall i, j :: 0 <= i < j < |s| ==> s[i] != s[j]
    ensures multiset(r) == multiset(s)
    ensures StrictlyIncreasing(r)
    decreases |s|
  {
    if s == [] then []
    else
      assert s == [s[0]] + s[1..];
      var rest := SortStrings(s[1..]);
      assert s[0] !in multiset(rest);
      InsertStringSorted(s[0], rest);
      InsertString(s[0], rest)
  }
}
