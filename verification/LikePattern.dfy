/** SQL's LIKE with an escape character, as in section 8.5 of ISO/IEC 9075-2 with SQLite's ASCII
    case folding, and the search clauses built on it.
    Source: server/audit-search/record-index.ts, server/brain/decision-memory.ts. */
module LikePattern {
  import opened Collections

  /** SQLite compares LIKE operands after folding ASCII upper case, and nothing else. */
  function Fold(c: char): char {
    if 'A' <= c <= 'Z' then c - 'A' + 'a' else c
  }

  /** Two characters compare equal if they are the same, or the large and the small form of one ASCII letter. */
  lemma FoldMeans(a: char, b: char)
    ensures Fold(a) == Fold(b) <==>
              a == b || (65 <= a as int <= 90 && b as int == a as int + 32) || (65 <= b as int <= 90 && a as int == b as int + 32)
  {
  }

  predicate SameText(a: string, b: string) {
    |a| == |b| && forall i :: 0 <= i < |a| ==> Fold(a[i]) == Fold(b[i])
  }

  /** `text LIKE pattern ESCAPE '\'`. An escape character that ends the pattern matches nothing. */
  predicate Like(pattern: string, text: string)
    decreases |pattern|, |text|
  {
    if pattern == "" then text == ""
    else if pattern[0] == '%' then
      Like(pattern[1..], text) || (text != "" && Like(pattern, text[1..]))
    else if pattern[0] == '\\' then
      |pattern| >= 2 && text != "" && Fold(pattern[1]) == Fold(text[0]) && Like(pattern[2..], text[1..])
    else if pattern[0] == '_' then
      text != "" && Like(pattern[1..], text[1..])
    else
      text != "" && Fold(pattern[0]) == Fold(text[0]) && Like(pattern[1..], text[1..])
  }

  predicate IsMeta(c: char) {
    c == '\\' || c == '%' || c == '_'
  }

  /** `term.replace(/[\\%_]/g, (c) => '\\' + c)` */
  function Escape(term: string): string {
    if term == "" then ""
    else (if IsMeta(term[0]) then ['\\', term[0]] else [term[0]]) + Escape(term[1..])
  }

  function LikeArg(term: string): string {
    "%" + Escape(term) + "%"
  }

  /** `term` occurs somewhere in `text`, up to ASCII case. */
  predicate Contains(text: string, term: string) {
    exists i :: 0 <= i <= |text| - |term| && OccursAt(text, term, i)
  }

  predicate OccursAt(text: string, term: string, i: nat)
    requires i + |term| <= |text|
  {
    SameText(text[i..i + |term|], term)
  }

  predicate StartsWith(text: string, term: string) {
    |term| <= |text| && SameText(text[..|term|], term)
  }

  // ----- wildcards -----

  lemma {:induction false} PercentMatchesAnything(text: string)
    ensures Like("%", text)
  {
    assert "%"[1..] == "";
    if text != "" {
      PercentMatchesAnything(text[1..]);
    }
  }

  /** A leading `%` skips any number of characters. */
  lemma {:induction false} LeadingPercent(rest: string, text: string)
    ensures Like("%" + rest, text) <==> exists i :: 0 <= i <= |text| && Like(rest, text[i..])
    decreases |text|
  {
    assert ("%" + rest)[1..] == rest;
    assert text[0..] == text;
    if text != "" {
      LeadingPercent(rest, text[1..]);
      forall i | 0 <= i <= |text| - 1 ensures text[1..][i..] == text[i + 1..] {
      }
      if i :| 0 <= i <= |text| && Like(rest, text[i..]) {
        assert i == 0 || text[1..][i - 1..] == text[i..];
      }
      if Like("%" + rest, text[1..]) {
        var i :| 0 <= i <= |text[1..]| && Like(rest, text[1..][i..]);
        assert Like(rest, text[i + 1..]);
      }
    }
  }

  /** The escaped term matches itself, and only itself, at the front. */
  lemma {:induction false} EscapedIsLiteral(term: string, text: string)
    ensures Like(Escape(term) + "%", text) <==> StartsWith(text, term)
    decreases |term|
  {
    if term == "" {
      assert Escape(term) + "%" == "%";
      PercentMatchesAnything(text);
      assert text[..0] == "";
    } else {
      var p := Escape(term) + "%";
      var tail := Escape(term[1..]) + "%";
      assert p == (if IsMeta(term[0]) then ['\\', term[0]] else [term[0]]) + tail;
      assert if IsMeta(term[0]) then p[2..] == tail else p[1..] == tail;
      if text != "" {
        EscapedIsLiteral(term[1..], text[1..]);
        StartsWithCons(text, term);
      }
    }
  }

  lemma StartsWithCons(text: string, term: string)
    requires text != "" && term != ""
    ensures StartsWith(text, term) <==> Fold(text[0]) == Fold(term[0]) && StartsWith(text[1..], term[1..])
  {
    if StartsWith(text, term) {
      forall i | 0 <= i < |term| - 1 ensures Fold(text[1..][..|term| - 1][i]) == Fold(term[1..][i]) {
        assert text[..|term|][i + 1] == text[i + 1];
      }
    }
    if Fold(text[0]) == Fold(term[0]) && StartsWith(text[1..], term[1..]) {
      forall i | 0 <= i < |term| ensures Fold(text[..|term|][i]) == Fold(term[i]) {
        if i > 0 {
          assert text[1..][..|term| - 1][i - 1] == text[i];
          assert term[1..][i - 1] == term[i];
        }
      }
    }
  }

  /** The pattern built for a term means exactly "contains the term", whatever characters it has. */
  lemma LikeArgMeansContains(term: string, text: string)
    ensures Like(LikeArg(term), text) <==> Contains(text, term)
  {
    var tail := Escape(term) + "%";
    assert LikeArg(term) == "%" + tail;
    LeadingPercent(tail, text);
    forall i | 0 <= i <= |text| ensures Like(tail, text[i..]) <==> i + |term| <= |text| && OccursAt(text, term, i) {
      EscapedIsLiteral(term, text[i..]);
      if i + |term| <= |text| {
        assert text[i..][..|term|] == text[i..i + |term|];
      }
    }
    if Contains(text, term) {
      var i :| 0 <= i <= |text| - |term| && OccursAt(text, term, i);
      assert Like(tail, text[i..]);
    }
  }

  // ----- the whole clause -----

  /** A row of a table; a column that is absent here is NULL. */
  type Row = map<string, string>

  function Coalesce(row: Row, column: string): string {
    if column in row then row[column] else ""
  }

  /** ` AND (c1 LIKE ? OR c2 LIKE ? ...) AND (...)`: one group of columns per term, with one positional
      parameter for every placeholder, in the order in which they are written. */
  datatype Clause = Clause(groups: seq<seq<string>>, params: seq<string>)

  method TermClause(columns: seq<string>, terms: seq<string>) returns (c: Clause)
    ensures c == ClauseFor(columns, terms)
  {
    if terms == [] || columns == [] {
      return Clause([], []);
    }
    var groups, params := [], [];
    for t := 0 to |terms|
      invariant groups == Repeat(columns, t)
      invariant params == ParamsFor(terms[..t], |columns|)
    {
      assert terms[..t + 1][..t] == terms[..t];
      var arg := LikeArg(terms[t]);
      for k := 0 to |columns|
        invariant params == ParamsFor(terms[..t], |columns|) + Repeat(arg, k)
      {
        params := params + [arg];
      }
      groups := groups + [columns];
    }
    assert terms[..|terms|] == terms;
    c := Clause(groups, params);
  }

  function Repeat<T>(x: T, n: nat): (r: seq<T>)
    ensures |r| == n && forall i :: 0 <= i < n ==> r[i] == x
  {
    if n == 0 then [] else Repeat(x, n - 1) + [x]
  }

  function ParamsFor(terms: seq<string>, columns: nat): seq<string> {
    if terms == [] then []
    else ParamsFor(terms[..|terms| - 1], columns) + Repeat(LikeArg(terms[|terms| - 1]), columns)
  }

  function ClauseFor(columns: seq<string>, terms: seq<string>): Clause {
    if terms == [] || columns == [] then Clause([], [])
    else Clause(Repeat(columns, |terms|), ParamsFor(terms, |columns|))
  }

  /** The database's reading: placeholders take the parameters one after the other. */
  predicate GroupHolds(group: seq<string>, params: seq<string>, at: nat, row: Row)
    requires at + |group| <= |params|
  {
    exists k :: 0 <= k < |group| && Like(params[at + k], Coalesce(row, group[k]))
  }

  function Placeholders(groups: seq<seq<string>>): nat {
    if groups == [] then 0 else Placeholders(groups[..|groups| - 1]) + |groups[|groups| - 1]|
  }

  predicate ClauseHolds(groups: seq<seq<string>>, params: seq<string>, row: Row)
    requires Placeholders(groups) <= |params|
  {
    groups == []
    || (var n := |groups| - 1;
        ClauseHolds(groups[..n], params, row) && GroupHolds(groups[n], params, Placeholders(groups[..n]), row))
  }

  predicate EveryTermSomewhere(columns: seq<string>, terms: seq<string>, row: Row) {
    forall t :: 0 <= t < |terms| ==> SomewhereIn(columns, terms[t], row)
  }

  predicate SomewhereIn(columns: seq<string>, term: string, row: Row) {
    exists k :: 0 <= k < |columns| && Contains(Coalesce(row, columns[k]), term)
  }

  /** There is exactly one parameter per placeholder. */
  lemma {:induction false} ParamsFit(columns: seq<string>, terms: seq<string>)
    ensures Placeholders(ClauseFor(columns, terms).groups) == |ClauseFor(columns, terms).params|
  {
    PlaceholdersOfRepeat(columns, |terms|);
    ParamsCount(terms, |columns|);
  }

  lemma {:induction false} PlaceholdersOfRepeat(columns: seq<string>, n: nat)
    ensures Placeholders(Repeat(columns, n)) == n * |columns|
  {
    if n > 0 {
      PlaceholdersOfRepeat(columns, n - 1);
      assert Repeat(columns, n)[..n - 1] == Repeat(columns, n - 1);
      assert n * |columns| == (n - 1) * |columns| + |columns|;
    }
  }

  lemma {:induction false} ParamsCount(terms: seq<string>, columns: nat)
    ensures |ParamsFor(terms, columns)| == |terms| * columns
  {
    if terms != [] {
      var n := |terms|;
      ParamsCount(terms[..n - 1], columns);
      assert n * columns == (n - 1) * columns + columns;
    }
  }

  /** Parameters handed in later groups do not disturb earlier ones. */
  lemma {:induction false} ClauseHoldsPrefix(groups: seq<seq<string>>, params: seq<string>, more: seq<string>, row: Row)
    requires Placeholders(groups) <= |params|
    ensures ClauseHolds(groups, params + more, row) == ClauseHolds(groups, params, row)
  {
    if groups != [] {
      var n := |groups| - 1;
      ClauseHoldsPrefix(groups[..n], params, more, row);
    }
  }

  lemma OneGroupMeansOneTerm(columns: seq<string>, before: seq<string>, term: string, row: Row)
    ensures GroupHolds(columns, before + Repeat(LikeArg(term), |columns|), |before|, row)
            <==> SomewhereIn(columns, term, row)
  {
    var params := before + Repeat(LikeArg(term), |columns|);
    forall k | 0 <= k < |columns|
      ensures Like(params[|before| + k], Coalesce(row, columns[k])) <==> Contains(Coalesce(row, columns[k]), term)
    {
      assert params[|before| + k] == LikeArg(term);
      LikeArgMeansContains(term, Coalesce(row, columns[k]));
    }
  }

  lemma OneMoreTerm(columns: seq<string>, terms: seq<string>, row: Row)
    requires terms != []
    ensures EveryTermSomewhere(columns, terms, row)
            <==> EveryTermSomewhere(columns, terms[..|terms| - 1], row) && SomewhereIn(columns, terms[|terms| - 1], row)
  {
    var n := |terms| - 1;
    forall t | 0 <= t < n ensures terms[..n][t] == terms[t] {
    }
  }

  lemma {:induction false} GroupsMeanTerms(columns: seq<string>, terms: seq<string>, row: Row)
    requires |ParamsFor(terms, |columns|)| == Placeholders(Repeat(columns, |terms|))
    ensures ClauseHolds(Repeat(columns, |terms|), ParamsFor(terms, |columns|), row)
            <==> EveryTermSomewhere(columns, terms, row)
  {
    if terms != [] {
      var n := |terms| - 1;
      var groups, before := Repeat(columns, n), ParamsFor(terms[..n], |columns|);
      var more := Repeat(LikeArg(terms[n]), |columns|);
      assert Repeat(columns, n + 1)[..n] == groups;
      PlaceholdersOfRepeat(columns, n);
      ParamsCount(terms[..n], |columns|);
      GroupsMeanTerms(columns, terms[..n], row);
      ClauseHoldsPrefix(groups, before, more, row);
      OneGroupMeansOneTerm(columns, before, terms[n], row);
      OneMoreTerm(columns, terms, row);
    }
  }

  /** With its parameters bound in order, the clause selects exactly the rows in which every term
      occurs in some column - unless there are terms but no columns, when it selects every row. */
  lemma ClauseMeansEveryTerm(columns: seq<string>, terms: seq<string>, row: Row)
    ensures Placeholders(ClauseFor(columns, terms).groups) == |ClauseFor(columns, terms).params|
    ensures var c := ClauseFor(columns, terms);
            ClauseHolds(c.groups, c.params, row)
            <==> (columns == [] && terms != []) || EveryTermSomewhere(columns, terms, row)
  {
    ParamsFit(columns, terms);
    if columns != [] {
      GroupsMeanTerms(columns, terms, row);
    }
  }

  // ----- the decision log's search, which escapes two of the three metacharacters -----

  /** `q.replace(/[%_]/g, (c) => '\\' + c)` */
  function EscapeWildcards(term: string): string {
    if term == "" then ""
    else (if term[0] == '%' || term[0] == '_' then ['\\', term[0]] else [term[0]]) + EscapeWildcards(term[1..])
  }

  function RecallArg(term: string): string {
    "%" + EscapeWildcards(term) + "%"
  }

  lemma {:induction false} EscapesAgree(term: string)
    requires '\\' !in term
    ensures EscapeWildcards(term) == Escape(term)
  {
    if term != "" {
      assert term == [term[0]] + term[1..];
      EscapesAgree(term[1..]);
    }
  }

  /** The same pattern after its leading `%`, written character by character. */
  function RecallTail(term: string): string {
    if term == "" then "%"
    else if term[0] == '%' || term[0] == '_' then ['\\'] + ([term[0]] + RecallTail(term[1..]))
    else [term[0]] + RecallTail(term[1..])
  }

  lemma {:induction false} RecallTailIs(term: string)
    ensures RecallArg(term) == "%" + RecallTail(term)
    ensures EscapeWildcards(term) + "%" == RecallTail(term)
  {
    if term != "" {
      RecallTailIs(term[1..]);
    }
  }

  /** The shortest text the pattern for `term` accepts, with `x` standing in for a lone `_`. */
  function Shortest(term: string): string {
    if term == "" then ""
    else if term[0] != '\\' then [term[0]] + Shortest(term[1..])
    else if |term| == 1 then "%"
    else if term[1] == '%' then ['\\'] + Shortest(term[2..])
    else if term[1] == '_' then ['\\'] + (['x'] + Shortest(term[2..]))
    else [term[1]] + Shortest(term[2..])
  }

  lemma {:induction false} ShortestIsShort(term: string)
    ensures |Shortest(term)| <= |term|
    ensures '\\' in term && |Shortest(term)| == |term| ==> !SameText(Shortest(term), term)
  {
    if term != "" {
      var s := Shortest(term);
      if term[0] != '\\' {
        assert term == [term[0]] + term[1..];
        ShortestIsShort(term[1..]);
        if SameText(s, term) {
          forall i | 0 <= i < |term| - 1 ensures Fold(Shortest(term[1..])[i]) == Fold(term[1..][i]) {
            assert s[i + 1] == Shortest(term[1..])[i];
          }
        }
      } else if |term| > 1 {
        ShortestIsShort(term[2..]);
        if term[1] == '_' {
          assert s[1] == 'x';
        }
      }
    }
  }

  lemma {:induction false} ShortestIsAccepted(term: string)
    ensures Like(RecallTail(term), Shortest(term))
  {
    if term == "" {
      PercentMatchesAnything("");
    } else if term[0] == '%' || term[0] == '_' {
      ShortestIsAccepted(term[1..]);
      EscapedChar(term[0], RecallTail(term[1..]), Shortest(term[1..]));
    } else if term[0] != '\\' {
      ShortestIsAccepted(term[1..]);
      PlainChar(term[0], RecallTail(term[1..]), Shortest(term[1..]));
    } else if |term| == 1 {
      assert RecallTail(term) == ['\\'] + (['%'] + "");
      EscapedChar('%', "", "");
      assert ['%'] + "" == "%";
    } else {
      ShortestIsAccepted(term[2..]);
      BackslashPair(term);
    }
  }

  lemma EscapedChar(c: char, tail: string, rest: string)
    requires Like(tail, rest)
    ensures Like(['\\'] + ([c] + tail), [c] + rest)
  {
    var p := ['\\'] + ([c] + tail);
    assert p[1] == c && p[2..] == tail && ([c] + rest)[1..] == rest;
  }

  lemma PlainChar(c: char, tail: string, rest: string)
    requires Like(tail, rest) && !IsMeta(c)
    ensures Like([c] + tail, [c] + rest)
  {
    assert ([c] + tail)[1..] == tail && ([c] + rest)[1..] == rest;
  }

  lemma NoChar(tail: string, rest: string)
    requires Like(tail, rest)
    ensures Like(['%'] + tail, rest)
  {
    assert (['%'] + tail)[1..] == tail;
  }

  lemma OneChar(tail: string, rest: string)
    requires Like(tail, rest)
    ensures Like(['_'] + tail, ['x'] + rest)
  {
    assert (['_'] + tail)[1..] == tail && (['x'] + rest)[1..] == rest;
  }

  /** A backslash in the term swallows what follows it, down to the escape of a wildcard. */
  lemma BackslashPair(term: string)
    requires |term| >= 2 && term[0] == '\\'
    requires Like(RecallTail(term[2..]), Shortest(term[2..]))
    ensures Like(RecallTail(term), Shortest(term))
  {
    var tail, rest, c := RecallTail(term[2..]), Shortest(term[2..]), term[1];
    assert term[1..][0] == c && term[1..][1..] == term[2..];
    if c == '%' {
      NoChar(tail, rest);
      EscapedChar('\\', ['%'] + tail, rest);
    } else if c == '_' {
      OneChar(tail, rest);
      EscapedChar('\\', ['_'] + tail, ['x'] + rest);
    } else {
      EscapedChar(c, tail, rest);
    }
  }

  /** Recall's pattern means "contains" for exactly the terms without a backslash. */
  lemma RecallMeansContainsIff(term: string)
    ensures (forall text :: Like(RecallArg(term), text) <==> Contains(text, term)) <==> '\\' !in term
  {
    if '\\' !in term {
      EscapesAgree(term);
      forall text ensures Like(RecallArg(term), text) <==> Contains(text, term) {
        LikeArgMeansContains(term, text);
      }
    } else {
      var s := Shortest(term);
      var tail := RecallTail(term);
      ShortestIsAccepted(term);
      ShortestIsShort(term);
      RecallTailIs(term);
      LeadingPercent(tail, s);
      assert s[0..] == s;
      assert Like(RecallArg(term), s);
      assert s[0..|s|] == s;
    }
  }
}
