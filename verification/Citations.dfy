/** Citation tokens `[type#id]`: finding them, removing them, and why white space never falls
    inside one. Source: server/audit-search/grounding.ts. */
module Citations {

  /** The ranges of JavaScript's white space, as `\s` and `trim` know it. */
  function SpaceRange(k: nat): (char, char) {
    match k
    case 0 => ('\t', '\r')
    case 1 => (' ', ' ')
    case 2 => ('\U{00A0}', '\U{00A0}')
    case 3 => ('\U{1680}', '\U{1680}')
    case 4 => ('\U{2000}', '\U{200A}')
    case 5 => ('\U{2028}', '\U{2029}')
    case 6 => ('\U{202F}', '\U{202F}')
    case 7 => ('\U{205F}', '\U{205F}')
    case 8 => ('\U{3000}', '\U{3000}')
    case _ => ('\U{FEFF}', '\U{FEFF}')
  }

  const SPACE_RANGES: nat := 10

  predicate IsSpace(c: char) {
    InRanges(c, SPACE_RANGES)
  }

  predicate InRanges(c: char, n: nat) {
    n > 0 && (SpaceRange(n - 1).0 <= c <= SpaceRange(n - 1).1 || InRanges(c, n - 1))
  }

  lemma {:induction false} RangesAreHigh(c: char, n: nat)
    requires n >= 2 && InRanges(c, n)
    ensures c >= '\U{00A0}' || InRanges(c, 2)
  {
    if n > 2 && !(SpaceRange(n - 1).0 <= c <= SpaceRange(n - 1).1) {
      RangesAreHigh(c, n - 1);
    }
  }

  lemma {:induction false} RangesGrow(c: char, m: nat, n: nat)
    requires m <= n && InRanges(c, m)
    ensures InRanges(c, n)
  {
    if m < n {
      RangesGrow(c, m, n - 1);
    }
  }

  /** What JavaScript calls white space. */
  lemma WhiteSpaceIs(c: char)
    ensures IsSpace(c) <==>
      || c in {'\t', '\n', '\U{000B}', '\U{000C}', '\r', ' ', '\U{00A0}', '\U{1680}'}
      || '\U{2000}' <= c <= '\U{200A}'
      || c in {'\U{2028}', '\U{2029}', '\U{202F}', '\U{205F}', '\U{3000}', '\U{FEFF}'}
  {
    WhiteSpaceBelow(c);
    OneRange(c, 6);
    OneRange(c, 7);
    OneRange(c, 8);
    OneRange(c, 9);
    OneRange(c, 10);
  }

  lemma OneRange(c: char, n: nat)
    requires n > 0
    ensures InRanges(c, n) <==> SpaceRange(n - 1).0 <= c <= SpaceRange(n - 1).1 || InRanges(c, n - 1)
  {
  }

  lemma WhiteSpaceBelow(c: char)
    ensures InRanges(c, 5) <==> '\t' <= c <= '\r' || c == ' ' || c == '\U{00A0}' || c == '\U{1680}' || '\U{2000}' <= c <= '\U{200A}'
  {
    OneRange(c, 1);
    OneRange(c, 2);
    OneRange(c, 3);
    OneRange(c, 4);
    OneRange(c, 5);
  }

  /** White space is none of the characters that can occur in a citation or a number. */
  lemma SpaceFacts(c: char)
    ensures IsSpace('\n') && IsSpace(' ')
    ensures IsSpace(c) ==> !IsTypeChar(c) && !IsIdChar(c) && c != '[' && c != '#' && c != ']' && c != '.'
    ensures IsSpace(c) ==> !('0' <= c <= '9') && !('A' <= c <= 'Z')
  {
    assert InRanges('\n', 1) && InRanges(' ', 2);
    RangesGrow('\n', 1, SPACE_RANGES);
    RangesGrow(' ', 2, SPACE_RANGES);
    if IsSpace(c) {
      RangesAreHigh(c, SPACE_RANGES);
    }
  }

  lemma PrintableIsNoSpace(c: char)
    requires ' ' < c < '\U{00A0}'
    ensures !IsSpace(c)
  {
    assert !InRanges(c, 0) && !InRanges(c, 1) && !InRanges(c, 2);
    if IsSpace(c) {
      RangesAreHigh(c, SPACE_RANGES);
    }
  }

  predicate IsTypeChar(c: char) {
    'a' <= c <= 'z' || c == '_'
  }

  predicate IsIdChar(c: char) {
    c != ']' && !IsSpace(c)
  }

  /** How many leading characters of `s` satisfy `p`: a greedy `p*`. */
  function Run(s: string, p: char -> bool): (n: nat)
    ensures n <= |s|
    ensures forall i :: 0 <= i < n ==> p(s[i])
    ensures n < |s| ==> !p(s[n])
  {
    if s == "" || !p(s[0]) then 0
    else
      var n := Run(s[1..], p);
      assert forall i :: 1 <= i < n + 1 ==> s[i] == s[1..][i - 1];
      n + 1
  }

  /** The length of the citation at the front of `s`, by `/\[([a-z_]+)#([^\]\s]+)\]/`; 0 if there is none. */
  function CitationLength(s: string): (n: nat)
    ensures n <= |s|
  {
    if s == "" || s[0] != '[' then 0
    else
      var t := Run(s[1..], IsTypeChar);
      if t == 0 || 1 + t >= |s| || s[1 + t] != '#' then 0
      else
        var i := Run(s[2 + t..], IsIdChar);
        if i == 0 || 2 + t + i >= |s| || s[2 + t + i] != ']' then 0
        else 3 + t + i
  }

  /** All citations of `s`, brackets included, in the order a global scan finds them. */
  function Scan(s: string): seq<string> {
    if s == "" then []
    else if CitationLength(s) > 0 then [s[..CitationLength(s)]] + Scan(s[CitationLength(s)..])
    else Scan(s[1..])
  }

  /** `s` with every citation replaced by a space. */
  function Strip(s: string): string {
    if s == "" then ""
    else if CitationLength(s) > 0 then " " + Strip(s[CitationLength(s)..])
    else [s[0]] + Strip(s[1..])
  }

  // ----- no citation crosses white space -----

  lemma {:induction false} RunStopsAt(a: string, t: string, p: char -> bool)
    requires t != "" && !p(t[0])
    ensures Run(a + t, p) == Run(a, p)
  {
    if a == "" {
      assert a + t == t;
    } else {
      RunStopsAt(a[1..], t, p);
      assert (a + t)[1..] == a[1..] + t;
    }
  }

  lemma CitationStopsAt(a: string, t: string)
    requires a != "" && t != "" && IsSpace(t[0])
    ensures CitationLength(a + t) == CitationLength(a)
  {
    SpaceFacts(t[0]);
    if a[0] == '[' {
      RunStopsInside(a, t, 1, IsTypeChar);
      AfterTheType(a, t, Run(a[1..], IsTypeChar));
    }
  }

  lemma AfterTheType(a: string, t: string, n: nat)
    requires a != "" && a[0] == '[' && t != "" && IsSpace(t[0])
    requires n == Run(a[1..], IsTypeChar) == Run((a + t)[1..], IsTypeChar)
    ensures CitationLength(a + t) == CitationLength(a)
  {
    SpaceFacts(t[0]);
    var both := a + t;
    assert both[|a|] == t[0];
    if n == 0 || 1 + n >= |a| || a[1 + n] != '#' {
      assert CitationLength(a) == 0;
      assert CitationLength(both) == 0;
    } else {
      RunStopsInside(a, t, 2 + n, IsIdChar);
      AfterTheHash(a, both, n, Run(a[2 + n..], IsIdChar));
    }
  }

  lemma AfterTheHash(a: string, longer: string, n: nat, i: nat)
    requires a != "" && a <= longer && a[0] == '[' && (|a| < |longer| ==> longer[|a|] != ']')
    requires 0 < n == Run(a[1..], IsTypeChar) == Run(longer[1..], IsTypeChar) && 1 + n < |a| && a[1 + n] == '#'
    requires i == Run(a[2 + n..], IsIdChar) == Run(longer[2 + n..], IsIdChar)
    ensures CitationLength(longer) == CitationLength(a)
  {
  }

  lemma RunStopsInside(a: string, t: string, from: nat, p: char -> bool)
    requires from <= |a| && t != "" && !p(t[0])
    ensures Run((a + t)[from..], p) == Run(a[from..], p)
  {
    assert (a + t)[from..] == a[from..] + t;
    RunStopsAt(a[from..], t, p);
  }

  lemma Assoc<T>(a: seq<T>, b: seq<T>, c: seq<T>)
    ensures (a + b) + c == a + (b + c)
  {
  }

  lemma HeadTail(s: string)
    requires s != ""
    ensures [s[0]] + s[1..] == s
  {
  }

  lemma StepOverCitation(s: string, n: nat)
    requires s != "" && n == CitationLength(s) > 0
    ensures Scan(s) == [s[..n]] + Scan(s[n..]) && Strip(s) == " " + Strip(s[n..])
  {
  }

  lemma StepOverChar(s: string)
    requires s != "" && CitationLength(s) == 0
    ensures Scan(s) == Scan(s[1..]) && Strip(s) == [s[0]] + Strip(s[1..])
  {
  }

  /** What starts with white space is scanned and stripped on its own. */
  lemma {:induction false} SpaceSeparates(a: string, t: string)
    requires t != "" && IsSpace(t[0])
    ensures Scan(a + t) == Scan(a) + Scan(t)
    ensures Strip(a + t) == Strip(a) + Strip(t)
    decreases |a|
  {
    if a == "" {
      assert a + t == t;
    } else {
      CitationStopsAt(a, t);
      var n := CitationLength(a);
      if n > 0 {
        assert (a + t)[..n] == a[..n] && (a + t)[n..] == a[n..] + t;
        SpaceSeparates(a[n..], t);
        StepOverCitation(a + t, n);
        StepOverCitation(a, n);
        Assoc([a[..n]], Scan(a[n..]), Scan(t));
        Assoc(" ", Strip(a[n..]), Strip(t));
        assert Scan(a + t) == Scan(a) + Scan(t) && Strip(a + t) == Strip(a) + Strip(t);
      } else {
        assert (a + t)[1..] == a[1..] + t;
        SpaceSeparates(a[1..], t);
        StepOverChar(a + t);
        StepOverChar(a);
        Assoc([a[0]], Strip(a[1..]), Strip(t));
        assert Scan(a + t) == Scan(a) + Scan(t) && Strip(a + t) == Strip(a) + Strip(t);
      }
    }
  }

  ghost predicate AllSpace(s: string) {
    forall i :: 0 <= i < |s| ==> IsSpace(s[i])
  }

  lemma SpaceInFront(w: char, rest: string)
    requires IsSpace(w)
    ensures Scan([w] + rest) == Scan(rest)
    ensures Strip([w] + rest) == [w] + Strip(rest)
  {
    SpaceFacts(w);
    assert ([w] + rest)[1..] == rest;
    StepOverChar([w] + rest);
  }

  lemma {:induction false} LeadingSpaces(ws: string, b: string)
    requires AllSpace(ws)
    ensures Scan(ws + b) == Scan(b)
    ensures Strip(ws + b) == ws + Strip(b)
  {
    if ws == "" {
      assert ws + b == b;
    } else {
      LeadingSpaces(ws[1..], b);
      SpaceInFront(ws[0], ws[1..] + b);
      Assoc([ws[0]], ws[1..], b);
      Assoc([ws[0]], ws[1..], Strip(b));
      HeadTail(ws);
    }
  }

  /** A whole stretch of white space separates. */
  lemma SpacesSeparate(a: string, ws: string, b: string)
    requires ws != "" && AllSpace(ws)
    ensures Scan(a + (ws + b)) == Scan(a) + Scan(b)
    ensures Strip(a + (ws + b)) == Strip(a) + (ws + Strip(b))
  {
    SpaceSeparates(a, ws + b);
    LeadingSpaces(ws, b);
  }

  // ----- every token found is really there -----

  /** `part` occurs in `s` as a contiguous piece. */
  predicate Includes(s: string, part: string) {
    exists i :: 0 <= i <= |s| && PieceAt(s, part, i)
  }

  predicate PieceAt(s: string, part: string, i: nat) {
    i + |part| <= |s| && s[i..i + |part|] == part
  }

  lemma IncludesLater(s: string, k: nat, part: string)
    requires k <= |s| && Includes(s[k..], part)
    ensures Includes(s, part)
  {
    var i :| 0 <= i <= |s[k..]| && PieceAt(s[k..], part, i);
    assert PieceAt(s, part, k + i);
  }

  lemma {:induction false} ScannedTokensOccur(s: string, token: string)
    requires token in Scan(s)
    ensures Includes(s, token) && |token| >= 5 && token[0] == '[' && token[|token| - 1] == ']'
  {
    var n := CitationLength(s);
    if n > 0 && token == s[..n] {
      assert PieceAt(s, token, 0);
    } else if n > 0 {
      ScannedTokensOccur(s[n..], token);
      IncludesLater(s, n, token);
    } else {
      ScannedTokensOccur(s[1..], token);
      IncludesLater(s, 1, token);
    }
  }

  /** The `type#id` part of a token. */
  function RefOf(token: string): string {
    if |token| >= 2 then token[1..|token| - 1] else ""
  }

  lemma IncludesRef(s: string, token: string)
    requires Includes(s, token) && |token| >= 2
    ensures Includes(s, RefOf(token))
  {
    var i :| 0 <= i <= |s| && PieceAt(s, token, i);
    forall j | 0 <= j < |RefOf(token)| ensures s[i + 1 + j] == RefOf(token)[j] {
      assert s[i..i + |token|][1 + j] == token[1 + j];
    }
    assert PieceAt(s, RefOf(token), i + 1);
  }

  datatype Citation = Citation(ref: string, recordType: string, recordId: string)

  function CitationOf(token: string): Citation {
    var ref := RefOf(token);
    var t := Run(ref, IsTypeChar);
    Citation(ref, ref[..t], if t < |ref| then ref[t + 1..] else "")
  }

  ghost predicate WellFormed(c: Citation) {
    c.ref == c.recordType + "#" + c.recordId && Names(c.recordType, c.recordId)
  }

  /** A type is made of small letters and underscores, an id of anything but white space and the closing
      bracket; neither is empty. */
  ghost predicate Names(kind: string, id: string) {
    && kind != "" && (forall i :: 0 <= i < |kind| ==> 'a' <= kind[i] <= 'z' || kind[i] == '_')
    && id != "" && (forall i :: 0 <= i < |id| ==> id[i] != ']' && !IsSpace(id[i]))
  }

  /** `token` is a type, a hash and an id in brackets. */
  ghost predicate IsToken(token: string) {
    exists kind, id :: Names(kind, id) && token == "[" + (kind + "#" + id) + "]"
  }

  lemma FrontToken(s: string, kind: string, id: string)
    requires Names(kind, id) && "[" + (kind + "#" + id) + "]" <= s
    ensures CitationLength(s) == |kind| + |id| + 3
  {
    var token, t := "[" + (kind + "#" + id) + "]", |kind|;
    assert forall k :: 0 <= k < |token| ==> s[k] == token[k];
    forall k | 0 <= k < t ensures IsTypeChar(s[1..][k]) {
      assert token[1 + k] == kind[k];
    }
    assert token[1 + t] == '#' && token[2 + t + |id|] == ']';
    RunIs(s[1..], IsTypeChar, t);
    var rest := s[2 + t..];
    forall k | 0 <= k < |id| ensures IsIdChar(rest[k]) {
      assert token[2 + t + k] == id[k];
    }
    RunIs(rest, IsIdChar, |id|);
  }

  lemma FrontIsToken(s: string)
    requires CitationLength(s) > 0
    ensures IsToken(s[..CitationLength(s)])
  {
    var n := CitationLength(s);
    FrontBrackets(s);
    var c := CitationOf(s[..n]);
    FrontCitationIsWellFormed(s);
    InBrackets(s[..n]);
    assert Names(c.recordType, c.recordId);
  }

  lemma FrontBrackets(s: string)
    requires CitationLength(s) > 0
    ensures CitationLength(s) >= 5 && s[0] == '[' && s[CitationLength(s) - 1] == ']'
  {
  }

  /** The scan takes a token wherever one stands, goes on behind it, and passes over everything else; removing
      citations puts a space in place of each token taken. */
  lemma ScanTakesTokens(s: string, n: nat)
    requires s != ""
    ensures n <= |s| && IsToken(s[..n]) ==> Scan(s) == [s[..n]] + Scan(s[n..]) && Strip(s) == " " + Strip(s[n..])
    ensures (forall k: nat :: k <= |s| ==> !IsToken(s[..k])) ==> Scan(s) == Scan(s[1..]) && Strip(s) == [s[0]] + Strip(s[1..])
  {
    if n <= |s| && IsToken(s[..n]) {
      TokenLength(s, n);
      StepOverCitation(s, n);
    }
    if CitationLength(s) > 0 {
      FrontIsToken(s);
    } else {
      StepOverChar(s);
    }
  }

  lemma TokenLength(s: string, n: nat)
    requires n <= |s| && IsToken(s[..n])
    ensures n == CitationLength(s) > 0
  {
    var kind, id :| Names(kind, id) && s[..n] == "[" + (kind + "#" + id) + "]";
    FrontToken(s, kind, id);
  }

  lemma Bracketed(s: string, token: string)
    requires token in Scan(s)
    ensures token == "[" + RefOf(token) + "]"
  {
    ScannedTokensOccur(s, token);
    InBrackets(token);
  }

  lemma InBrackets(token: string)
    requires |token| >= 5 && token[0] == '[' && token[|token| - 1] == ']'
    ensures token == "[" + RefOf(token) + "]"
  {
    var ref := RefOf(token);
    assert "[" + ref + "]" == token;
  }

  lemma FrontCitationIsWellFormed(s: string)
    requires CitationLength(s) > 0
    ensures WellFormed(CitationOf(s[..CitationLength(s)]))
  {
    var n := CitationLength(s);
    var t := Run(s[1..], IsTypeChar);
    var i := Run(s[2 + t..], IsIdChar);
    var ref := RefOf(s[..n]);
    assert n == 3 + t + i;
    assert ref == s[1..2 + t + i];
    assert ref == s[1..][..t] + "#" + s[2 + t..][..i];
    RefIsWellFormed(s[..n], s[1..][..t], s[2 + t..][..i]);
  }

  lemma RefIsWellFormed(token: string, kind: string, id: string)
    requires RefOf(token) == kind + "#" + id
    requires kind != "" && forall k :: 0 <= k < |kind| ==> IsTypeChar(kind[k])
    requires id != "" && forall k :: 0 <= k < |id| ==> IsIdChar(id[k])
    ensures WellFormed(CitationOf(token))
  {
    var ref, t := RefOf(token), |kind|;
    assert forall k :: 0 <= k < t ==> ref[k] == kind[k];
    assert ref[t] == '#';
    RunIs(ref, IsTypeChar, t);
    assert ref[..t] == kind && ref[t + 1..] == id;
  }

  lemma {:induction false} RunIs(s: string, p: char -> bool, n: nat)
    requires n < |s| && (forall k :: 0 <= k < n ==> p(s[k])) && !p(s[n])
    ensures Run(s, p) == n
  {
    assert Run(s, p) <= n && Run(s, p) >= n;
  }

  lemma {:induction false} PlainText(s: string)
    requires forall i :: 0 <= i < |s| ==> s[i] != '['
    ensures Scan(s) == [] && Strip(s) == s
  {
    if s != "" {
      PlainText(s[1..]);
      StepOverChar(s);
      HeadTail(s);
    }
  }

  lemma OneCitation()
    ensures Scan("[a#b]") == ["[a#b]"] && Strip("[a#b]") == " "
  {
    var s := "[a#b]";
    assert s[1..] == "a#b]" && s[3..] == "b]" && s[5..] == "" && s[..5] == s;
    SpaceFacts('b');
    RunIs(s[1..], IsTypeChar, 1);
    RunIs(s[3..], IsIdChar, 1);
    StepOverCitation(s, 5);
  }

  /** A scanned token names a record: `type#id` in brackets, both parts non-empty and of the right characters. */
  lemma {:induction false} ScannedTokensAreWellFormed(s: string, token: string)
    requires token in Scan(s)
    ensures WellFormed(CitationOf(token))
  {
    var n := CitationLength(s);
    if n > 0 && token == s[..n] {
      FrontCitationIsWellFormed(s);
    } else if n > 0 {
      ScannedTokensAreWellFormed(s[n..], token);
    } else {
      ScannedTokensAreWellFormed(s[1..], token);
    }
  }

  /** The parts listed for a token are those that stand in it. */
  lemma ScannedTokensNameTheirParts(s: string, token: string)
    requires token in Scan(s)
    ensures var c := CitationOf(token);
            && WellFormed(c) && c.ref == RefOf(token)
            && token == "[" + (c.recordType + "#" + c.recordId) + "]"
  {
    ScannedTokensAreWellFormed(s, token);
    Bracketed(s, token);
  }
}
