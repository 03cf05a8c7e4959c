/** The regular expressions `query_students` uses to drop the `email` and
    `phone` columns from a generated query, each written out as the search or
    substitution Python's `re` module performs. */
module Redaction {

  import opened Common
  import opened Text

  /** The keyword the search looks for, in upper case. */
  const SelectWord := "SELECT"

  /** Every character of `t[a..b]` is whitespace (`\s`). */
  predicate AllSpace(t: string, a: int, b: int)
    requires 0 <= a && b <= |t|
  {
    forall j :: a <= j < b ==> IsSpace(t[j])
  }

  /** No character of `t[a..b]` is a newline, so `.` matches all of it. */
  predicate NoNewline(t: string, a: int, b: int)
    requires 0 <= a && b <= |t|
  {
    forall j :: a <= j < b ==> t[j] != '\n'
  }

  /** Where the run of whitespace starting at `k` ends: how far a greedy `\s*`
      reaches. */
  function WsEnd(t: string, k: nat): (e: nat)
    requires k <= |t|
    decreases |t| - k
    ensures k <= e <= |t| && AllSpace(t, k, e)
    ensures e < |t| ==> !IsSpace(t[e])
  {
    if k < |t| && IsSpace(t[k]) then WsEnd(t, k + 1) else k
  }

  /** A whitespace run from `k` reaches at most to `WsEnd(t, k)`. */
  lemma WsEndIsMaximal(t: string, k: nat, m: int)
    requires k <= m <= |t| && AllSpace(t, k, m)
    ensures m <= WsEnd(t, k)
  {
  }

  // ---------------------------------------------------------------------------
  // re.search(r'SELECT\s+(.*?)\s+FROM', q, re.IGNORECASE)
  // ---------------------------------------------------------------------------

  /** A match: `SELECT` at `start`, the group `t[group..groupEnd]`, `FROM` at `from`. */
  datatype Match = Match(start: nat, group: nat, groupEnd: nat, from: nat)

  /** The pattern matches `t` along `m`. Case is ignored in SELECT and FROM;
      the group holds no newline. */
  predicate IsMatch(t: string, m: Match) {
    CiOccursAt(t, m.start, "SELECT") && CiOccursAt(t, m.from, "FROM")
    && m.start + 6 < m.group <= m.groupEnd < m.from
    && AllSpace(t, m.start + 6, m.group) && NoNewline(t, m.group, m.groupEnd)
    && AllSpace(t, m.groupEnd, m.from)
  }

  /** The order in which the backtracking matcher tries its choices: the
      leftmost start, then the longest leading `\s+`, then the shortest lazy
      group, then the longest trailing `\s+`. */
  predicate TriedFirst(m: Match, n: Match) {
    m.start < n.start
    || (m.start == n.start && (m.group > n.group
    || (m.group == n.group && (m.groupEnd < n.groupEnd
    || (m.groupEnd == n.groupEnd && m.from >= n.from)))))
  }

  /** The last `FROM` at an index in `(e, f]`, scanning down from `f`. */
  function FromDown(t: string, e: nat, f: nat): (r: Option<nat>)
    decreases f
    ensures r.Some? ==> e < r.value <= f && CiOccursAt(t, r.value, "FROM")
    ensures r.Some? ==> forall k :: r.value < k <= f ==> !CiOccursAt(t, k, "FROM")
    ensures r.None? ==> forall k :: e < k <= f ==> !CiOccursAt(t, k, "FROM")
  {
    if f <= e then None
    else if CiOccursAt(t, f, "FROM") then Some(f)
    else FromDown(t, e, f - 1)
  }

  /** `\s+FROM` at `e`, with `\s+` as long as it can be: the index of FROM. */
  function FromAfter(t: string, e: nat): (r: Option<nat>)
    requires e <= |t|
    ensures r.Some? ==> e < r.value && CiOccursAt(t, r.value, "FROM") && AllSpace(t, e, r.value)
    ensures r.Some? ==> forall f :: r.value < f <= |t| && AllSpace(t, e, f) ==> !CiOccursAt(t, f, "FROM")
    ensures r.None? ==> forall f :: e < f <= |t| && AllSpace(t, e, f) ==> !CiOccursAt(t, f, "FROM")
  {
    var w := WsEnd(t, e);
    var r := FromDown(t, e, w);
    forall f | e < f <= |t| && AllSpace(t, e, f) ensures f <= w {
      WsEndIsMaximal(t, e, f);
    }
    r
  }

  /** The shortest group end at or after `e` that `\s+FROM` can follow; the
      group starts at `g` and cannot run past a newline. */
  function GroupEnd(t: string, g: nat, e: nat): (r: Option<nat>)
    requires g <= e <= |t| && NoNewline(t, g, e)
    decreases |t| - e
    ensures r.Some? ==> e <= r.value <= |t| && NoNewline(t, g, r.value) && FromAfter(t, r.value).Some?
    ensures r.Some? ==> forall k :: e <= k < r.value ==> FromAfter(t, k).None?
    ensures r.None? ==> forall k :: e <= k <= |t| && NoNewline(t, g, k) ==> FromAfter(t, k).None?
  {
    if FromAfter(t, e).Some? then Some(e)
    else if e < |t| && t[e] != '\n' then GroupEnd(t, g, e + 1)
    else None
  }

  /** The longest leading `\s+` ending at or before `g` that admits a group:
      the group's start and end. */
  function LeadDown(t: string, i: nat, g: nat): (r: Option<(nat, nat)>)
    requires i + 6 <= g <= |t|
    decreases g
    ensures r.Some? ==> i + 6 < r.value.0 <= g && GroupEnd(t, r.value.0, r.value.0) == Some(r.value.1)
    ensures r.Some? ==> forall k :: r.value.0 < k <= g ==> GroupEnd(t, k, k).None?
    ensures r.None? ==> forall k :: i + 6 < k <= g ==> GroupEnd(t, k, k).None?
  {
    if g <= i + 6 then None
    else match GroupEnd(t, g, g)
      case Some(e) => Some((g, e))
      case None => LeadDown(t, i, g - 1)
  }

  /** The match with SELECT at `i`, if the rest of the pattern can follow. */
  function MatchAt(t: string, i: nat): (r: Option<Match>)
    requires i + 6 <= |t|
  {
    match LeadDown(t, i, WsEnd(t, i + 6))
    case None => None
    case Some((g, e)) => Some(Match(i, g, e, FromAfter(t, e).value))
  }

  /** `re.search` from index `from`: the first match the matcher reaches. */
  function Search(t: string, from: nat): (r: Option<Match>)
    decreases |t| - from, 1
  {
    match CiFindFrom(t, SelectWord, from)
    case None => None
    case Some(i) => SearchAt(t, i)
  }

  /** The search once it has found SELECT at `i`. */
  function SearchAt(t: string, i: nat): (r: Option<Match>)
    requires i + 6 <= |t|
    decreases |t| - i, 0
  {
    match MatchAt(t, i)
    case Some(m) => Some(m)
    case None => Search(t, i + 1)
  }

  /** The match `MatchAt` builds starts at `i`. */
  lemma MatchAtStart(t: string, i: nat)
    requires i + 6 <= |t|
    ensures MatchAt(t, i).Some? ==> MatchAt(t, i).value.start == i
  {
  }

  lemma FromAfterFinds(t: string, e: nat, f: nat)
    requires e < f <= |t| && AllSpace(t, e, f) && CiOccursAt(t, f, "FROM")
    ensures FromAfter(t, e).Some? && f <= FromAfter(t, e).value
  {
  }

  lemma GroupEndFinds(t: string, g: nat, e: nat)
    requires g <= e <= |t| && NoNewline(t, g, e) && FromAfter(t, e).Some?
    ensures GroupEnd(t, g, g).Some? && GroupEnd(t, g, g).value <= e
  {
  }

  lemma LeadDownFinds(t: string, i: nat, g: nat, w: nat)
    requires i + 6 < g <= w <= |t| && GroupEnd(t, g, g).Some?
    ensures LeadDown(t, i, w).Some? && g <= LeadDown(t, i, w).value.0
  {
  }

  /** What `MatchAt` builds is a match. */
  lemma MatchAtIsMatch(t: string, i: nat)
    requires i + 6 <= |t| && CiOccursAt(t, i, "SELECT")
    ensures MatchAt(t, i).Some? ==> IsMatch(t, MatchAt(t, i).value)
  {
    var w := WsEnd(t, i + 6);
    if MatchAt(t, i).Some? {
      var m := MatchAt(t, i).value;
      assert AllSpace(t, i + 6, m.group) by {
        assert m.group <= w;
      }
    }
  }

  /** Every match that starts at `i` comes after the one `MatchAt` builds. */
  lemma MatchAtBeats(t: string, i: nat, n: Match)
    requires i + 6 <= |t| && n.start == i && IsMatch(t, n)
    ensures MatchAt(t, i).Some? && TriedFirst(MatchAt(t, i).value, n)
  {
    var w := WsEnd(t, i + 6);
    WsEndIsMaximal(t, i + 6, n.group);
    FromAfterFinds(t, n.groupEnd, n.from);
    GroupEndFinds(t, n.group, n.groupEnd);
    LeadDownFinds(t, i, n.group, w);
    var m := MatchAt(t, i).value;
    if m.group == n.group && m.groupEnd == n.groupEnd {
      assert m.from >= n.from;
    }
  }

  /** The match `MatchAt` builds is a match, and it comes before every other
      match with the same start. */
  lemma MatchAtIsFirst(t: string, i: nat)
    requires i + 6 <= |t| && CiOccursAt(t, i, "SELECT")
    ensures MatchAt(t, i).Some? ==> IsMatch(t, MatchAt(t, i).value)
    ensures forall n: Match :: n.start == i && IsMatch(t, n) ==>
              MatchAt(t, i).Some? && TriedFirst(MatchAt(t, i).value, n)
  {
    MatchAtIsMatch(t, i);
    forall n: Match | n.start == i && IsMatch(t, n)
      ensures MatchAt(t, i).Some? && TriedFirst(MatchAt(t, i).value, n)
    {
      MatchAtBeats(t, i, n);
    }
  }

  /** What `Search` finds is a match at or after `from`. */
  lemma {:induction false} SearchFinds(t: string, from: nat)
    decreases |t| - from, 1
    ensures Search(t, from).Some? ==>
              var m := Search(t, from).value;
              from <= m.start && IsMatch(t, m)
  {
    match CiFindFrom(t, SelectWord, from)
    case None =>
    case Some(i) =>
      SearchAtFinds(t, i);
  }

  /** What `SearchAt` finds is a match at or after `i`. */
  lemma {:induction false} SearchAtFinds(t: string, i: nat)
    requires i + 6 <= |t| && CiOccursAt(t, i, SelectWord)
    decreases |t| - i, 0
    ensures SearchAt(t, i).Some? ==>
              var m := SearchAt(t, i).value;
              i <= m.start && IsMatch(t, m)
  {
    MatchAtIsMatch(t, i);
    if MatchAt(t, i).None? {
      SearchFinds(t, i + 1);
    }
  }

  /** When the pattern matches from a SELECT at `k`, the search from any
      `from <= k` stops at a match that starts before `k` or at the one
      `MatchAt` builds at `k`. */
  lemma {:induction false} SearchReaches(t: string, from: nat, k: nat)
    requires from <= k && k + 6 <= |t| && CiOccursAt(t, k, SelectWord) && MatchAt(t, k).Some?
    decreases |t| - from, 1
    ensures Search(t, from).Some?
    ensures Search(t, from).value.start < k || Search(t, from) == MatchAt(t, k)
  {
    match CiFindFrom(t, SelectWord, from)
    case None =>
    case Some(i) =>
      SearchAtReaches(t, i, k);
  }

  /** The same from a SELECT at `i <= k`. */
  lemma {:induction false} SearchAtReaches(t: string, i: nat, k: nat)
    requires i <= k && i + 6 <= |t| && k + 6 <= |t| && CiOccursAt(t, k, SelectWord) && MatchAt(t, k).Some?
    decreases |t| - i, 0
    ensures SearchAt(t, i).Some?
    ensures SearchAt(t, i).value.start < k || SearchAt(t, i) == MatchAt(t, k)
  {
    match MatchAt(t, i)
    case Some(m) =>
      assert SearchAt(t, i) == Some(m);
      MatchAtStart(t, i);
      if i < k {
        assert m.start < k;
      }
    case None =>
      SearchReaches(t, i + 1, k);
      assert SearchAt(t, i) == Search(t, i + 1);
  }

  /** `Search` finds a match tried before the match `n`, whenever `n` starts
      at or after `from`. */
  lemma SearchBeats(t: string, from: nat, n: Match)
    requires from <= n.start && IsMatch(t, n)
    ensures Search(t, from).Some? && TriedFirst(Search(t, from).value, n)
  {
    MatchAtBeats(t, n.start, n);
    SearchReaches(t, from, n.start);
  }

  /** `Search` finds the match the backtracking matcher reports: a match at
      or after `from`, tried before every other such match. */
  lemma SearchIsFirst(t: string, from: nat)
    ensures Search(t, from).Some? ==>
              var m := Search(t, from).value;
              from <= m.start && IsMatch(t, m)
    ensures forall n: Match :: from <= n.start && IsMatch(t, n) ==>
              Search(t, from).Some? && TriedFirst(Search(t, from).value, n)
  {
    SearchFinds(t, from);
    forall n: Match | from <= n.start && IsMatch(t, n)
      ensures Search(t, from).Some? && TriedFirst(Search(t, from).value, n)
    {
      SearchBeats(t, from, n);
    }
  }

  /** A match tried before every other match is the one `Search` reports. */
  lemma SearchReportsFirst(t: string, m: Match)
    requires IsMatch(t, m) && forall n: Match :: IsMatch(t, n) ==> TriedFirst(m, n)
    ensures Search(t, 0) == Some(m)
  {
    SearchFinds(t, 0);
    SearchBeats(t, 0, m);
    var found := Search(t, 0).value;
    TriedFirstAntisymmetric(found, m);
  }

  /** No two different matches are each tried before the other. */
  lemma TriedFirstAntisymmetric(m: Match, n: Match)
    requires TriedFirst(m, n) && TriedFirst(n, m)
    ensures m == n
  {
  }

  // ---------------------------------------------------------------------------
  // re.sub(select_pattern, f'SELECT {columns} FROM', q, flags=re.IGNORECASE)
  // ---------------------------------------------------------------------------

  /** `re.sub` of the SELECT...FROM pattern over `t[from..]`: every match the
      search reaches, left to right and without overlap, becomes `rep`. The
      replacement is taken literally. */
  function SubstituteFrom(t: string, rep: string, from: nat): (r: string)
    requires from <= |t|
    decreases |t| - from
  {
    SearchIsFirst(t, from);
    match Search(t, from)
    case None => t[from..]
    case Some(m) => t[from..m.start] + rep + SubstituteFrom(t, rep, m.from + 4)
  }

  /** The global substitution over the whole query. */
  function SubstituteAll(t: string, rep: string): string {
    SubstituteFrom(t, rep, 0)
  }

  /** With no match the substitution leaves the query alone. */
  lemma SubstituteWithoutMatch(t: string, rep: string)
    requires forall n: Match :: !IsMatch(t, n)
    ensures SubstituteAll(t, rep) == t
  {
    SearchIsFirst(t, 0);
  }

  /** When the query has a match, the one replaced first is the one the
      matcher reports. */
  lemma SubstituteFirstMatch(t: string, n: Match)
    requires IsMatch(t, n)
    ensures Search(t, 0).Some? && TriedFirst(Search(t, 0).value, n) && IsMatch(t, Search(t, 0).value)
  {
    SearchIsFirst(t, 0);
  }

  /** At the first match, the text before it is kept, the match becomes `rep`,
      and the substitution goes on from the end of the match. */
  lemma SubstituteAtMatch(t: string, rep: string, m: Match)
    requires Search(t, 0) == Some(m)
    ensures m.start <= m.from + 4 <= |t|
    ensures SubstituteAll(t, rep) == t[..m.start] + rep + SubstituteFrom(t, rep, m.from + 4)
  {
    SearchIsFirst(t, 0);
  }

  /** The same, for a match tried before every other match. */
  lemma SubstituteAtFirst(t: string, rep: string, m: Match)
    requires IsMatch(t, m) && forall n: Match :: IsMatch(t, n) ==> TriedFirst(m, n)
    ensures m.start <= m.from + 4 <= |t|
    ensures SubstituteAll(t, rep) == t[..m.start] + rep + SubstituteFrom(t, rep, m.from + 4)
  {
    SearchReportsFirst(t, m);
    SubstituteAtMatch(t, rep, m);
  }

  // ---------------------------------------------------------------------------
  // The four rewrites of the projection (`columns`)
  // ---------------------------------------------------------------------------

  /** Where `\s*,?\s*` starting at `k` stops: greedy whitespace, an optional
      comma, greedy whitespace. */
  function SeparatorEnd(s: string, k: nat): (e: nat)
    requires k <= |s|
    ensures k <= e <= |s|
    ensures e == |s| || s[e] != ',' || (e > k && s[e - 1] == ',') || WsEnd(s, k) < e
  {
    var a := WsEnd(s, k);
    if a < |s| && s[a] == ',' then WsEnd(s, a + 1) else a
  }

  /** What `\s*,?\s*` consumes from `k`: whitespace, or whitespace, one comma
      and whitespace; the comma is taken whenever only whitespace stands
      before it, and the match stops at the first character the second
      `\s*` cannot take. */
  lemma SeparatorEndShape(s: string, k: nat)
    requires k <= |s|
    ensures var e, a := SeparatorEnd(s, k), WsEnd(s, k);
            AllSpace(s, k, e) || (a < e && s[a] == ',' && AllSpace(s, k, a) && AllSpace(s, a + 1, e))
    ensures var e := SeparatorEnd(s, k); e < |s| ==> !IsSpace(s[e])
    ensures forall c :: k <= c < |s| && s[c] == ',' && AllSpace(s, k, c) ==> c < SeparatorEnd(s, k)
  {
    var a := WsEnd(s, k);
    forall c | k <= c < |s| && s[c] == ',' && AllSpace(s, k, c)
      ensures c == a
    {
      WsEndIsMaximal(s, k, c);
    }
  }

  /** `re.sub(word + r'\s*,?\s*', '', s[k..], flags=re.IGNORECASE)`, with
      `w` the word in upper case. The scan runs over the original text, so
      text that a deletion brings together is not scanned again. */
  function DeleteWordFrom(s: string, w: string, k: nat): (r: string)
    requires k <= |s| && |w| > 0
    decreases |s| - k
    ensures |r| <= |s| - k
    ensures (forall j :: k <= j < |s| ==> !CiOccursAt(s, j, w)) ==> r == s[k..]
  {
    if k == |s| then []
    else if CiOccursAt(s, k, w) then DeleteWordFrom(s, w, SeparatorEnd(s, k + |w|))
    else [s[k]] + DeleteWordFrom(s, w, k + 1)
  }

  function DeleteWord(s: string, w: string): string
    requires |w| > 0
  {
    DeleteWordFrom(s, w, 0)
  }

  /** The scan of `DeleteWordFrom`: the text up to the first occurrence `j`
      of `w` at or after `k` is kept, that occurrence and the separator
      after it are dropped, and the scan goes on behind the separator (with
      no occurrence at all, the rest is kept whole: `DeleteWordFrom`'s own
      contract). */
  lemma {:induction false} DeleteWordUpTo(s: string, w: string, k: nat, j: nat)
    requires k <= j && |w| > 0 && CiOccursAt(s, j, w)
    requires forall i :: k <= i < j ==> !CiOccursAt(s, i, w)
    decreases j - k
    ensures DeleteWordFrom(s, w, k) == s[k..j] + DeleteWordFrom(s, w, SeparatorEnd(s, j + |w|))
  {
    if k == j {
      DeleteWordAtMatch(s, w, k);
    } else {
      var next := DeleteWordFrom(s, w, k + 1);
      var rest := DeleteWordFrom(s, w, SeparatorEnd(s, j + |w|));
      DeleteWordUpTo(s, w, k + 1, j);
      assert next == s[k + 1..j] + rest;
      DeleteWordStep(s, w, k);
      assert DeleteWordFrom(s, w, k) == [s[k]] + next;
      ConsSlice(s, k, j, rest);
    }
  }

  /** With a single occurrence of `w`, at `j`, the deletion cuts out exactly
      that occurrence and the separator after it. */
  lemma DeleteWordOnce(s: string, w: string, j: nat)
    requires |w| > 0 && CiOccursAt(s, j, w)
    requires forall i :: 0 <= i < j ==> !CiOccursAt(s, i, w)
    requires forall i :: SeparatorEnd(s, j + |w|) <= i < |s| ==> !CiOccursAt(s, i, w)
    ensures DeleteWord(s, w) == s[..j] + s[SeparatorEnd(s, j + |w|)..]
  {
    DeleteWordUpTo(s, w, 0, j);
  }

  /** At an occurrence of `w`, the deletion skips it and its separator. */
  lemma DeleteWordAtMatch(s: string, w: string, k: nat)
    requires k <= |s| && |w| > 0 && CiOccursAt(s, k, w)
    ensures DeleteWordFrom(s, w, k) == s[k..k] + DeleteWordFrom(s, w, SeparatorEnd(s, k + |w|))
  {
    assert s[k..k] == [];
  }

  /** Past a position without `w`, the deletion keeps its character. */
  lemma DeleteWordStep(s: string, w: string, k: nat)
    requires k < |s| && |w| > 0 && !CiOccursAt(s, k, w)
    ensures DeleteWordFrom(s, w, k) == [s[k]] + DeleteWordFrom(s, w, k + 1)
  {
  }

  /** `,\s*,` matches at `j`: a comma, whitespace, and a comma at `WsEnd(s, j + 1)`. */
  predicate CommaPairAt(s: string, j: nat) {
    j < |s| && s[j] == ',' && WsEnd(s, j + 1) < |s| && s[WsEnd(s, j + 1)] == ','
  }

  /** `re.sub(r',\s*,', ',', s[k..])`: a comma, whitespace and a comma become
      one comma; the scan goes on after the second comma. */
  function CollapseCommasFrom(s: string, k: nat): (r: string)
    requires k <= |s|
    decreases |s| - k
    ensures |r| <= |s| - k
    ensures (forall j :: k <= j < |s| ==> s[j] != ',') ==> r == s[k..]
  {
    if k == |s| then []
    else if CommaPairAt(s, k) then [','] + CollapseCommasFrom(s, WsEnd(s, k + 1) + 1)
    else [s[k]] + CollapseCommasFrom(s, k + 1)
  }

  /** The collapse adds no character that was not already there. */
  lemma {:induction false} CollapseKeepsCharacters(s: string, k: nat)
    requires k <= |s|
    decreases |s| - k
    ensures forall c :: c in CollapseCommasFrom(s, k) ==> c in s[k..]
  {
    if k < |s| {
      var e := if CommaPairAt(s, k) then WsEnd(s, k + 1) + 1 else k + 1;
      var rest := CollapseCommasFrom(s, e);
      CollapseKeepsCharacters(s, e);
      assert CollapseCommasFrom(s, k) == [if CommaPairAt(s, k) then ',' else s[k]] + rest;
      assert s[k..] == [s[k]] + s[k + 1..];
      assert s[e..] == s[k..][e - k..];
    }
  }

  function CollapseCommas(s: string): string {
    CollapseCommasFrom(s, 0)
  }

  /** The scan of `CollapseCommasFrom`: the text up to the first `,\s*,`
      at or after `k`, found at `j`, is kept, the match becomes one comma,
      and the scan goes on after the match. */
  lemma {:induction false} CollapseCommasUpTo(s: string, k: nat, j: nat)
    requires k <= j && CommaPairAt(s, j)
    requires forall i :: k <= i < j ==> !CommaPairAt(s, i)
    decreases j - k
    ensures CollapseCommasFrom(s, k) == s[k..j] + ([','] + CollapseCommasFrom(s, WsEnd(s, j + 1) + 1))
  {
    var rest := [','] + CollapseCommasFrom(s, WsEnd(s, j + 1) + 1);
    if k == j {
      CollapseAtPair(s, k);
      assert s[k..k] + rest == rest;
    } else {
      var next := CollapseCommasFrom(s, k + 1);
      CollapseCommasUpTo(s, k + 1, j);
      assert next == s[k + 1..j] + rest;
      CollapseStep(s, k);
      assert CollapseCommasFrom(s, k) == [s[k]] + next;
      ConsSlice(s, k, j, rest);
    }
  }

  /** Without a `,\s*,` at or after `k`, the rest is kept whole. */
  lemma {:induction false} CollapseCommasNone(s: string, k: nat)
    requires k <= |s|
    requires forall i :: k <= i ==> !CommaPairAt(s, i)
    decreases |s| - k
    ensures CollapseCommasFrom(s, k) == s[k..]
  {
    if k < |s| {
      var next := CollapseCommasFrom(s, k + 1);
      CollapseCommasNone(s, k + 1);
      CollapseStep(s, k);
      assert s[k..] == [s[k]] + s[k + 1..];
    }
  }

  /** Where `,\s*,` does not match, the character is kept. */
  lemma CollapseStep(s: string, k: nat)
    requires k < |s| && !CommaPairAt(s, k)
    ensures CollapseCommasFrom(s, k) == [s[k]] + CollapseCommasFrom(s, k + 1)
  {
  }

  /** Where `,\s*,` matches, one comma stands for the match. */
  lemma CollapseAtPair(s: string, k: nat)
    requires CommaPairAt(s, k)
    ensures CollapseCommasFrom(s, k) == [','] + CollapseCommasFrom(s, WsEnd(s, k + 1) + 1)
  {
  }

  /** `re.sub(r',\s*$', '', s)`: a comma followed only by whitespace is cut
      off together with that whitespace. At most one comma qualifies, the
      last non-whitespace character. */
  function StripTrailingComma(s: string): (r: string)
    ensures |r| <= |s| && forall j :: 0 <= j < |r| ==> r[j] == s[j]
    ensures r != s ==> s[|r|] == ',' && AllSpace(s, |r| + 1, |s|)
    ensures r == s ==> forall k :: 0 <= k < |s| && s[k] == ',' ==> !AllSpace(s, k + 1, |s|)
  {
    var n := |s| - TrailingSpaces(s);
    TrailingSpacesAreSpace(s);
    if n > 0 && s[n - 1] == ',' then s[..n - 1] else s
  }

  /** Deleting a qualified column leaves its qualifier behind. */
  lemma DanglingQualifier(s: string)
    requires s == "u.email"
    ensures DeleteWord(s, "EMAIL") == "u."
  {
    assert UpperChar(s[0 + 0]) != "EMAIL"[0];
    assert UpperChar(s[1 + 0]) != "EMAIL"[0];
    assert CiOccursAt(s, 2, "EMAIL");
    assert SeparatorEnd(s, 7) == 7;
    assert DeleteWordFrom(s, "EMAIL", 2) == [];
    assert DeleteWordFrom(s, "EMAIL", 1) == ['.'];
  }
}
