/** The checker that decides whether a generated summary may be shown.
    Source: server/audit-search/grounding.ts. */
module Grounding {
  import opened Collections
  import opened Citations
  import opened Sentences
  import opened Numbers

  /** A column value copied out of a row; `Num` carries the number as `String(value)` prints it. */
  datatype Json = Null | Bool(b: bool) | Num(text: string) | Str(s: string) | Arr(items: seq<Json>) | Obj(values: seq<Json>)

  datatype AuditRecord = AuditRecord(ref: string, recordType: string, title: string, snippet: string,
                                     status: Option<string>, actor: Option<string>, occurredAt: Option<string>,
                                     fields: Json, roundedAge: Option<string>)

  /** `String(Number(raw))`, the canonical form of a numeral. Floating point is not modelled: every
      statement here holds for any such function. */
  type Canon = string -> string

  // ----- the figures the records license -----

  const MAX_DEPTH: nat := 6

  function Harvest(v: Json, depth: nat, norm: Canon): set<string>
    decreases v
  {
    if depth > MAX_DEPTH then {}
    else
      match v
      case Num(text) => {norm(text)}
      case Str(s) => set t | t in NumeralsIn(s) :: norm(t)
      case Arr(items) => HarvestAll(items, depth + 1, norm)
      case Obj(values) => HarvestAll(values, depth + 1, norm)
      case _ => {}
  }

  function HarvestAll(vs: seq<Json>, depth: nat, norm: Canon): set<string>
    decreases vs
  {
    if vs == [] then {} else Harvest(vs[0], depth, norm) + HarvestAll(vs[1..], depth, norm)
  }

  function OptText(o: Option<string>): Json {
    match o
    case None => Null
    case Some(s) => Str(s)
  }

  function RecordNumbers(r: AuditRecord, norm: Canon): set<string> {
    Harvest(Str(r.title), 0, norm) + Harvest(Str(r.snippet), 0, norm) + Harvest(OptText(r.status), 0, norm)
    + Harvest(OptText(r.actor), 0, norm) + Harvest(OptText(r.occurredAt), 0, norm) + Harvest(r.fields, 0, norm)
    + (match r.roundedAge case None => {} case Some(a) => {norm(a)})
  }

  // ----- what that means: positions in the text and paths in the JSON value -----

  /** Following the path from `v`, item by item, leads to `leaf`. */
  ghost predicate LeafAt(v: Json, path: seq<nat>, leaf: Json)
    decreases |path|
  {
    if path == [] then v == leaf
    else
      match v
      case Arr(items) => path[0] < |items| && LeafAt(items[path[0]], path[1..], leaf)
      case Obj(values) => path[0] < |values| && LeafAt(values[path[0]], path[1..], leaf)
      case _ => false
  }

  /** A numeral that stands alone in the text gives the figure `x`. */
  ghost predicate TextShows(s: string, norm: Canon, x: string) {
    exists t, i: nat :: IsNumeral(t) && StandsAlone(s, t, i) && x == norm(t)
  }

  /** A number gives its figure, a string those that stand alone in it, and nothing else gives any. */
  ghost predicate LeafShows(leaf: Json, norm: Canon, x: string) {
    (leaf.Num? && x == norm(leaf.text)) || (leaf.Str? && TextShows(leaf.s, norm, x))
  }

  lemma NumeralsShow(s: string, norm: Canon, x: string)
    ensures x in (set t | t in NumeralsIn(s) :: norm(t)) <==> TextShows(s, norm, x)
  {
    forall t ensures t in NumeralsIn(s) <==> IsNumeral(t) && exists i: nat :: StandsAlone(s, t, i) {
      LicensedNumeralsStandAlone(s, t);
    }
  }

  lemma {:induction false} HarvestAllIs(vs: seq<Json>, depth: nat, norm: Canon, x: string)
    ensures x in HarvestAll(vs, depth, norm) <==> exists k :: 0 <= k < |vs| && x in Harvest(vs[k], depth, norm)
    decreases vs
  {
    if vs != [] {
      HarvestAllIs(vs[1..], depth, norm, x);
      if k :| 0 <= k < |vs[1..]| && x in Harvest(vs[1..][k], depth, norm) {
        assert x in Harvest(vs[k + 1], depth, norm);
      }
      if k :| 0 <= k < |vs| && x in Harvest(vs[k], depth, norm) {
        assert k > 0 ==> vs[1..][k - 1] == vs[k];
      }
    }
  }

  /** A value shows `x` on a path that keeps within the depth that is looked at. */
  ghost predicate ShowsAt(v: Json, depth: nat, norm: Canon, x: string, path: seq<nat>, leaf: Json) {
    depth + |path| <= 6 && LeafAt(v, path, leaf) && LeafShows(leaf, norm, x)
  }

  lemma {:induction false} HarvestIs(v: Json, depth: nat, norm: Canon, x: string)
    ensures x in Harvest(v, depth, norm) <==> exists path, leaf :: ShowsAt(v, depth, norm, x, path, leaf)
    decreases v
  {
    match v {
      case Arr(items) => ItemsShow(v, items, depth, norm, x);
      case Obj(values) => ItemsShow(v, values, depth, norm, x);
      case Str(s) =>
        NumeralsShow(s, norm, x);
        LeafItself(v, depth, norm, x);
      case _ => LeafItself(v, depth, norm, x);
    }
  }

  lemma LeafItself(v: Json, depth: nat, norm: Canon, x: string)
    requires !v.Arr? && !v.Obj?
    ensures (exists path, leaf :: ShowsAt(v, depth, norm, x, path, leaf)) <==> depth <= 6 && LeafShows(v, norm, x)
  {
    if depth <= 6 && LeafShows(v, norm, x) {
      assert ShowsAt(v, depth, norm, x, [], v);
    }
  }

  lemma {:induction false} ItemsShow(v: Json, items: seq<Json>, depth: nat, norm: Canon, x: string)
    requires v == Arr(items) || v == Obj(items)
    ensures x in Harvest(v, depth, norm) <==> exists path, leaf :: ShowsAt(v, depth, norm, x, path, leaf)
    decreases v, 0
  {
    HarvestAllIs(items, depth + 1, norm, x);
    if x in Harvest(v, depth, norm) {
      var k :| 0 <= k < |items| && x in Harvest(items[k], depth + 1, norm);
      HarvestIs(items[k], depth + 1, norm, x);
      var path, leaf :| ShowsAt(items[k], depth + 1, norm, x, path, leaf);
      var longer: seq<nat> := [k] + path;
      assert longer[1..] == path;
      assert ShowsAt(v, depth, norm, x, longer, leaf);
    }
    if path, leaf :| ShowsAt(v, depth, norm, x, path, leaf) {
      assert path != [];
      var k := path[0];
      assert ShowsAt(items[k], depth + 1, norm, x, path[1..], leaf);
      HarvestIs(items[k], depth + 1, norm, x);
    }
  }

  /** One of the record's five texts shows the figure, or a leaf of its fields at depth six at most, or it is
      the record's rounded age. */
  ghost predicate RecordShows(r: AuditRecord, norm: Canon, x: string) {
    || (exists s :: TextShows(s, norm, x)
                    && (s == r.title || s == r.snippet || r.status == Some(s) || r.actor == Some(s) || r.occurredAt == Some(s)))
    || (exists path, leaf :: ShowsAt(r.fields, 0, norm, x, path, leaf))
    || (r.roundedAge.Some? && x == norm(r.roundedAge.value))
  }

  lemma RecordNumbersAre(r: AuditRecord, norm: Canon, x: string)
    ensures x in RecordNumbers(r, norm) <==> RecordShows(r, norm, x)
  {
    HarvestIs(r.fields, 0, norm, x);
    NumeralsShow(r.title, norm, x);
    NumeralsShow(r.snippet, norm, x);
    OptTextShows(r.status, norm, x);
    OptTextShows(r.actor, norm, x);
    OptTextShows(r.occurredAt, norm, x);
  }

  lemma OptTextShows(o: Option<string>, norm: Canon, x: string)
    ensures x in Harvest(OptText(o), 0, norm) <==> o.Some? && TextShows(o.value, norm, x)
  {
    if o.Some? {
      NumeralsShow(o.value, norm, x);
    }
  }

  /** `String(n)` */
  function Decimal(n: nat): string {
    if n < 10 then [('0' as int + n) as char] else Decimal(n / 10) + [('0' as int + n % 10) as char]
  }

  /** What the digits say in decimal. */
  function Value(s: string): int {
    if s == "" then 0 else 10 * Value(s[..|s| - 1]) + (s[|s| - 1] as int - '0' as int)
  }

  /** The printed number says that number, in digits of which the first is no idle zero. */
  lemma {:induction false} DecimalSays(n: nat)
    ensures AllDigits(Decimal(n)) && Value(Decimal(n)) == n
    ensures n > 0 ==> Decimal(n)[0] != '0'
    ensures n == 0 ==> Decimal(n) == "0"
  {
    if n >= 10 {
      var front := Decimal(n / 10);
      DecimalSays(n / 10);
      assert Decimal(n)[..|front|] == front;
    } else {
      assert Decimal(n)[..0] == "";
    }
  }

  function CountType(records: seq<AuditRecord>, recordType: string): nat {
    if records == [] then 0
    else CountType(records[..|records| - 1], recordType)
         + (if records[|records| - 1].recordType == recordType then 1 else 0)
  }

  function AllRecordNumbers(records: seq<AuditRecord>, norm: Canon): set<string> {
    if records == [] then {}
    else AllRecordNumbers(records[..|records| - 1], norm) + RecordNumbers(records[|records| - 1], norm)
  }

  function TypeCounts(records: seq<AuditRecord>, norm: Canon): set<string> {
    set r | r in records :: norm(Decimal(CountType(records, r.recordType)))
  }

  function Ordinals(limit: nat): set<string> {
    if limit == 0 then {Decimal(0)} else Ordinals(limit - 1) + {Decimal(limit)}
  }

  function SmallCount(records: seq<AuditRecord>): nat {
    if |records| < 10 then |records| else 10
  }

  function LicensedNumbers(records: seq<AuditRecord>, norm: Canon): set<string> {
    AllRecordNumbers(records, norm) + {norm(Decimal(|records|))} + TypeCounts(records, norm)
    + Ordinals(SmallCount(records))
  }

  lemma CountTypeIs(records: seq<AuditRecord>, recordType: string)
    ensures CountType(records, recordType) == |set k | 0 <= k < |records| && records[k].recordType == recordType|
  {
    var hit := (k: int) => 0 <= k < |records| && records[k].recordType == recordType;
    CountTypeUpTo(records, recordType, |records|, hit);
    assert records[..|records|] == records;
    assert (set k | 0 <= k < |records| && records[k].recordType == recordType) == (set k | 0 <= k < |records| && hit(k));
  }

  lemma {:induction false} CountTypeUpTo(records: seq<AuditRecord>, recordType: string, n: nat, hit: int -> bool)
    requires n <= |records| && forall k :: 0 <= k < |records| ==> (hit(k) <==> records[k].recordType == recordType)
    ensures CountType(records[..n], recordType) == |set k | 0 <= k < n && hit(k)|
  {
    if n > 0 {
      CountTypeUpTo(records, recordType, n - 1, hit);
      OneMoreHit(hit, n - 1);
      assert records[..n][..n - 1] == records[..n - 1];
    } else {
      assert (set k | 0 <= k < n && hit(k)) == {};
    }
  }

  lemma {:induction false} AllRecordNumbersMeaning(records: seq<AuditRecord>, norm: Canon, x: string)
    ensures x in AllRecordNumbers(records, norm) <==> exists r :: r in records && x in RecordNumbers(r, norm)
  {
    if records != [] {
      var n := |records| - 1;
      AllRecordNumbersMeaning(records[..n], norm, x);
      SplitLast(records);
      MembersOfOneMore(records[..n], records[n]);
    }
  }

  lemma {:induction false} OrdinalIn(limit: nat, i: nat)
    requires i <= limit
    ensures Decimal(i) in Ordinals(limit)
  {
    if i < limit {
      OrdinalIn(limit - 1, i);
    }
  }

  lemma {:induction false} OrdinalOf(limit: nat, x: string) returns (i: nat)
    requires x in Ordinals(limit)
    ensures i <= limit && x == Decimal(i)
  {
    if x == Decimal(limit) {
      i := limit;
    } else {
      i := OrdinalOf(limit - 1, x);
    }
  }

  /** The number of records of one type, printed, gives the figure. */
  ghost predicate CountShows(records: seq<AuditRecord>, recordType: string, norm: Canon, x: string) {
    x == norm(Decimal(|set k | 0 <= k < |records| && records[k].recordType == recordType|))
  }

  /** A figure is licensed by what a record's own columns show, by the number of records or of those of one
      type, or as an ordinal no larger than the number of records and than ten; by nothing else. */
  lemma LicensedMeaning(records: seq<AuditRecord>, norm: Canon, x: string)
    ensures x in LicensedNumbers(records, norm)
            <==> || (exists r :: r in records && RecordShows(r, norm, x))
                 || x == norm(Decimal(|records|))
                 || (exists r :: r in records && CountShows(records, r.recordType, norm, x))
                 || (exists i: nat :: i <= |records| && i <= 10 && x == Decimal(i))
  {
    AllRecordNumbersMeaning(records, norm, x);
    forall r ensures x in RecordNumbers(r, norm) <==> RecordShows(r, norm, x) {
      RecordNumbersAre(r, norm, x);
    }
    forall recordType ensures x == norm(Decimal(CountType(records, recordType))) <==> CountShows(records, recordType, norm, x) {
      CountTypeIs(records, recordType);
    }
    TypeCountsAre(records, norm, x);
    var limit := SmallCount(records);
    if x in Ordinals(limit) {
      var i := OrdinalOf(limit, x);
    }
    forall i: nat | i <= limit && x == Decimal(i) ensures x in Ordinals(limit) {
      OrdinalIn(limit, i);
    }
  }

  lemma TypeCountsAre(records: seq<AuditRecord>, norm: Canon, x: string)
    ensures x in TypeCounts(records, norm) <==> exists r :: r in records && x == norm(Decimal(CountType(records, r.recordType)))
  {
  }

  method GroundedNumbers(records: seq<AuditRecord>, norm: Canon) returns (allowed: set<string>)
    ensures allowed == LicensedNumbers(records, norm)
  {
    allowed := {};
    for k := 0 to |records|
      invariant allowed == AllRecordNumbers(records[..k], norm)
    {
      assert records[..k + 1][..k] == records[..k];
      allowed := allowed + RecordNumbers(records[k], norm);
    }
    assert records[..|records|] == records;
    allowed := allowed + {norm(Decimal(|records|))};
    var counts := CountsByType(records, norm);
    allowed := allowed + counts;
    var ordinals := {Decimal(0)};
    for i := 0 to SmallCount(records)
      invariant ordinals == Ordinals(i)
    {
      ordinals := ordinals + {Decimal(i + 1)};
    }
    allowed := allowed + ordinals;
  }

  method CountsByType(records: seq<AuditRecord>, norm: Canon) returns (counts: set<string>)
    ensures counts == TypeCounts(records, norm)
  {
    var byType := CountByType(records);
    counts := set t | t in byType :: norm(Decimal(byType[t]));
    forall r | r in records ensures r.recordType in byType {
      var k :| 0 <= k < |records| && records[k] == r;
    }
    forall x | x in counts ensures x in TypeCounts(records, norm) {
      var t :| t in byType && x == norm(Decimal(byType[t]));
      var k :| 0 <= k < |records| && records[k].recordType == t;
      assert records[k] in records;
    }
  }

  method CountByType(records: seq<AuditRecord>) returns (byType: map<string, nat>)
    ensures forall t :: t in byType <==> exists k :: 0 <= k < |records| && records[k].recordType == t
    ensures forall t :: t in byType ==> byType[t] == CountType(records, t)
  {
    byType := map[];
    for k := 0 to |records|
      invariant forall t :: t in byType <==> exists j :: 0 <= j < k && records[j].recordType == t
      invariant forall t :: CountType(records[..k], t) == if t in byType then byType[t] else 0
    {
      var t := records[k].recordType;
      assert records[..k + 1][..k] == records[..k];
      byType := byType[t := (if t in byType then byType[t] else 0) + 1];
    }
    assert records[..|records|] == records;
  }

  // ----- extracting citations -----

  function Refs(cs: seq<Citation>): set<string> {
    set c | c in cs :: c.ref
  }

  /** First occurrences only, compared by `type#id`. */
  function Distinct(tokens: seq<string>): seq<Citation> {
    if tokens == [] then []
    else
      var n := |tokens| - 1;
      var before := Distinct(tokens[..n]);
      if RefOf(tokens[n]) in Refs(before) then before else before + [CitationOf(tokens[n])]
  }

  /** The global scan: `rest` is the text after the last match or mismatch. */
  method ExtractCitations(text: string) returns (out: seq<Citation>)
    ensures out == Distinct(Scan(text))
  {
    out := [];
    var seen: set<string> := {};
    var rest := text;
    ghost var done: seq<string> := [];
    while rest != ""
      invariant done + Scan(rest) == Scan(text)
      invariant out == Distinct(done) && seen == Refs(out)
      decreases |rest|
    {
      var n := CitationLength(rest);
      ScanMoves(done, rest);
      if n > 0 {
        out, seen := TakeToken(rest[..n], done, out, seen);
        done := done + [rest[..n]];
        rest := rest[n..];
      } else {
        rest := rest[1..];
      }
    }
    assert done + Scan("") == done;
  }

  method TakeToken(token: string, ghost done: seq<string>, out0: seq<Citation>, seen0: set<string>)
    returns (out: seq<Citation>, seen: set<string>)
    requires out0 == Distinct(done) && seen0 == Refs(out0)
    ensures out == Distinct(done + [token]) && seen == Refs(out)
  {
    out, seen := out0, seen0;
    DistinctStep(done, token);
    RefsOfOneMore(out, CitationOf(token));
    if RefOf(token) !in seen {
      seen := seen + {RefOf(token)};
      out := out + [CitationOf(token)];
    }
  }

  /** One turn of the scan leaves the tokens found plus those still to find unchanged. */
  lemma ScanMoves(done: seq<string>, rest: string)
    requires rest != ""
    ensures var n := CitationLength(rest);
            done + Scan(rest) == if n > 0 then (done + [rest[..n]]) + Scan(rest[n..]) else done + Scan(rest[1..])
  {
    var n := CitationLength(rest);
    if n > 0 {
      StepOverCitation(rest, n);
      Assoc(done, [rest[..n]], Scan(rest[n..]));
    }
  }

  lemma DistinctStep(tokens: seq<string>, token: string)
    ensures var before := Distinct(tokens);
            Distinct(tokens + [token]) == if RefOf(token) in Refs(before) then before else before + [CitationOf(token)]
  {
    assert (tokens + [token])[..|tokens|] == tokens;
  }

  lemma RefsOfOneMore(cs: seq<Citation>, c: Citation)
    ensures Refs(cs + [c]) == Refs(cs) + {c.ref}
  {
    assert forall x :: x in cs + [c] <==> x in cs || x == c;
  }

  ghost predicate DistinctByRef(cs: seq<Citation>) {
    forall i, j :: 0 <= i < j < |cs| ==> cs[i].ref != cs[j].ref
  }

  /** Every citation of the text is listed once, under the reference it names. */
  lemma {:induction false} DistinctRefs(tokens: seq<string>)
    ensures forall ref :: ref in Refs(Distinct(tokens)) <==> exists t :: t in tokens && RefOf(t) == ref
    ensures tokens != [] ==> Distinct(tokens) != []
  {
    if tokens != [] {
      var n := |tokens| - 1;
      DistinctRefs(tokens[..n]);
      SplitLast(tokens);
      MembersOfOneMore(tokens[..n], tokens[n]);
      RefsOfOneMore(Distinct(tokens[..n]), CitationOf(tokens[n]));
    }
  }

  lemma {:induction false} DistinctHasNoRepeats(tokens: seq<string>)
    ensures DistinctByRef(Distinct(tokens))
  {
    if tokens != [] {
      var n := |tokens| - 1;
      var before := Distinct(tokens[..n]);
      DistinctHasNoRepeats(tokens[..n]);
      forall i | 0 <= i < |before| ensures before[i].ref in Refs(before) {
        assert before[i] in before;
      }
    }
  }

  /** Citations are listed as they first occur: entry `i` is a token whose reference no earlier token has, and
      up to that token the first `i` entries are what there is to list. */
  lemma {:induction false} DistinctInOrder(tokens: seq<string>, i: nat) returns (p: nat)
    requires i < |Distinct(tokens)|
    ensures p < |tokens| && Distinct(tokens)[i] == CitationOf(tokens[p])
    ensures Distinct(tokens[..p]) == Distinct(tokens)[..i]
    ensures forall q :: 0 <= q < p ==> RefOf(tokens[q]) != RefOf(tokens[p])
  {
    var n := |tokens| - 1;
    var before := Distinct(tokens[..n]);
    if i < |before| {
      p := DistinctInOrder(tokens[..n], i);
      assert tokens[..n][..p] == tokens[..p] && Distinct(tokens)[..i] == before[..i];
      assert forall q :: 0 <= q < n ==> tokens[..n][q] == tokens[q];
    } else {
      p := n;
      DistinctRefs(tokens[..n]);
      forall q | 0 <= q < n ensures RefOf(tokens[q]) != RefOf(tokens[n]) {
        assert tokens[..n][q] == tokens[q] && tokens[q] in tokens[..n];
      }
    }
  }

  // ----- the report -----

  datatype Kind = Empty | NoCitations | UnknownCitation | UncitedSentence | UngroundedNumber

  datatype Violation = Violation(kind: Kind, detail: string, excerpt: Option<string>)

  datatype Report = Report(grounded: bool, citations: seq<Citation>, resolved: seq<string>,
                           violations: seq<Violation>, sentencesChecked: nat)

  /** `sentences.find((s) => s.includes(part)) ?? null` */
  function FirstIncluding(sentences: seq<string>, part: string): Option<string> {
    if sentences == [] then None
    else if Includes(sentences[0], part) then Some(sentences[0])
    else FirstIncluding(sentences[1..], part)
  }

  function ResolvedRefs(cs: seq<Citation>, retrieved: set<string>): seq<string> {
    if cs == [] then []
    else
      var n := |cs| - 1;
      ResolvedRefs(cs[..n], retrieved) + (if cs[n].ref in retrieved then [cs[n].ref] else [])
  }

  function UnknownCitations(cs: seq<Citation>, retrieved: set<string>, sentences: seq<string>): seq<Violation> {
    if cs == [] then []
    else
      var n := |cs| - 1;
      UnknownCitations(cs[..n], retrieved, sentences)
      + (if cs[n].ref in retrieved then []
         else [Violation(UnknownCitation, cs[n].ref, FirstIncluding(sentences, cs[n].ref))])
  }

  function UncitedSentences(sentences: seq<string>): seq<Violation> {
    if sentences == [] then []
    else
      var n := |sentences| - 1;
      UncitedSentences(sentences[..n])
      + (if IsClaim(sentences[n]) && Scan(sentences[n]) == [] then
           [Violation(UncitedSentence, sentences[n], Some(sentences[n]))]
         else [])
  }

  function UngroundedNumbers(figures: seq<string>, allowed: set<string>, norm: Canon, sentences: seq<string>): seq<Violation> {
    if figures == [] then []
    else
      var n := |figures| - 1;
      UngroundedNumbers(figures[..n], allowed, norm, sentences)
      + (if norm(figures[n]) in allowed then []
         else [Violation(UngroundedNumber, figures[n], FirstIncluding(sentences, figures[n]))])
  }

  function ViolationsFor(text: string, records: seq<AuditRecord>, norm: Canon): seq<Violation> {
    var sentences, cs := SplitSentences(text), Distinct(Scan(text));
    UnknownCitations(cs, RetrievedRefs(records), sentences)
    + (if cs == [] then [Violation(NoCitations, "The summary cited no records.", None)] else [])
    + UncitedSentences(sentences)
    + UngroundedNumbers(Figures(text), LicensedNumbers(records, norm), norm, sentences)
  }

  function RetrievedRefs(records: seq<AuditRecord>): set<string> {
    set r | r in records :: r.ref
  }

  /** The first sentence that contains the part, if any does. */
  ghost predicate IsExcerpt(sentences: seq<string>, part: string, excerpt: Option<string>) {
    match excerpt
    case None => forall k :: 0 <= k < |sentences| ==> !Includes(sentences[k], part)
    case Some(s) => exists k :: 0 <= k < |sentences| && FirstWith(sentences, part, k) && sentences[k] == s
  }

  ghost predicate FirstWith(sentences: seq<string>, part: string, k: nat)
    requires k < |sentences|
  {
    Includes(sentences[k], part) && forall j :: 0 <= j < k ==> !Includes(sentences[j], part)
  }

  lemma {:induction false} FirstIncludingIs(sentences: seq<string>, part: string)
    ensures IsExcerpt(sentences, part, FirstIncluding(sentences, part))
  {
    if sentences != [] {
      if Includes(sentences[0], part) {
        assert FirstWith(sentences, part, 0);
      } else {
        FirstIncludingIs(sentences[1..], part);
        assert forall j :: 0 < j < |sentences| ==> sentences[j] == sentences[1..][j - 1];
        if FirstIncluding(sentences, part).Some? {
          var k :| 0 <= k < |sentences[1..]| && FirstWith(sentences[1..], part, k)
                && sentences[1..][k] == FirstIncluding(sentences, part).value;
          assert FirstWith(sentences, part, k + 1);
        }
      }
    }
  }

  lemma OneExcerpt(sentences: seq<string>, part: string, excerpt: Option<string>)
    ensures IsExcerpt(sentences, part, excerpt) <==> excerpt == FirstIncluding(sentences, part)
  {
    FirstIncludingIs(sentences, part);
    var e := FirstIncluding(sentences, part);
    if IsExcerpt(sentences, part, excerpt) && excerpt.Some? && e.Some? {
      var j :| 0 <= j < |sentences| && FirstWith(sentences, part, j) && sentences[j] == excerpt.value;
      var k :| 0 <= k < |sentences| && FirstWith(sentences, part, k) && sentences[k] == e.value;
      assert j == k;
    }
  }

  lemma {:induction false} UnknownAre(cs: seq<Citation>, retrieved: set<string>, sentences: seq<string>, v: Violation)
    ensures v in UnknownCitations(cs, retrieved, sentences) <==>
              && v.kind == UnknownCitation && v.detail !in retrieved && v.detail in Refs(cs)
              && v.excerpt == FirstIncluding(sentences, v.detail)
  {
    if cs != [] {
      var n := |cs| - 1;
      UnknownAre(cs[..n], retrieved, sentences, v);
      SplitLast(cs);
      RefsOfOneMore(cs[..n], cs[n]);
    }
  }

  lemma {:induction false} UncitedAre(sentences: seq<string>, v: Violation)
    ensures v in UncitedSentences(sentences) <==>
              v == Violation(UncitedSentence, v.detail, Some(v.detail)) && v.detail in sentences
              && StatesSomething(v.detail) && Scan(v.detail) == []
  {
    if sentences != [] {
      var n := |sentences| - 1;
      UncitedAre(sentences[..n], v);
      ClaimMeansTwoWords(sentences[n]);
      SplitLast(sentences);
      MembersOfOneMore(sentences[..n], sentences[n]);
    }
  }

  lemma {:induction false} UngroundedAre(figures: seq<string>, allowed: set<string>, norm: Canon, sentences: seq<string>, v: Violation)
    ensures v in UngroundedNumbers(figures, allowed, norm, sentences) <==>
              && v.kind == UngroundedNumber && v.detail in figures && norm(v.detail) !in allowed
              && v.excerpt == FirstIncluding(sentences, v.detail)
  {
    if figures != [] {
      var n := |figures| - 1;
      UngroundedAre(figures[..n], allowed, norm, sentences, v);
      SplitLast(figures);
      MembersOfOneMore(figures[..n], figures[n]);
    }
  }

  /** What is objected to: references outside the records, the lack of any, sentences that state something and
      cite nothing, and figures that are not licensed - all of them, nothing else, and each reference and figure
      with the first sentence that contains it. */
  lemma ViolationsAre(text: string, records: seq<AuditRecord>, norm: Canon, v: Violation)
    ensures v in ViolationsFor(text, records, norm) <==>
      match v.kind
      case Empty => false
      case NoCitations => Scan(text) == [] && v.detail == "The summary cited no records." && v.excerpt == None
      case UnknownCitation =>
        && (exists t :: t in Scan(text) && RefOf(t) == v.detail) && (forall r :: r in records ==> r.ref != v.detail)
        && IsExcerpt(SplitSentences(text), v.detail, v.excerpt)
      case UncitedSentence =>
        && v.detail in SplitSentences(text) && StatesSomething(v.detail) && Scan(v.detail) == [] && v.excerpt == Some(v.detail)
      case UngroundedNumber =>
        && v.detail in Figures(text) && norm(v.detail) !in LicensedNumbers(records, norm)
        && IsExcerpt(SplitSentences(text), v.detail, v.excerpt)
  {
    var sentences, cs, retrieved := SplitSentences(text), Distinct(Scan(text)), RetrievedRefs(records);
    DistinctRefs(Scan(text));
    OneExcerpt(sentences, v.detail, v.excerpt);
    UnknownAre(cs, retrieved, sentences, v);
    UncitedAre(sentences, v);
    UngroundedAre(Figures(text), LicensedNumbers(records, norm), norm, sentences, v);
    assert v.detail in retrieved <==> exists r :: r in records && r.ref == v.detail;
  }

  /** The resolved references are those that are cited and retrieved, none of them twice. */
  lemma {:induction false} ResolvedAre(cs: seq<Citation>, retrieved: set<string>)
    requires DistinctByRef(cs)
    ensures NoDuplicates(ResolvedRefs(cs, retrieved))
    ensures forall ref :: ref in ResolvedRefs(cs, retrieved) <==> ref in retrieved && exists c :: c in cs && c.ref == ref
  {
    if cs != [] {
      var n := |cs| - 1;
      ResolvedAre(cs[..n], retrieved);
      SplitLast(cs);
      MembersOfOneMore(cs[..n], cs[n]);
    }
  }

  /** The rules a summary must meet, read over the whole text. */
  ghost predicate Admissible(text: string, records: seq<AuditRecord>, norm: Canon) {
    && text != ""
    && Scan(text) != []
    && (forall t :: t in Scan(text) ==> RefOf(t) in RetrievedRefs(records))
    && (forall s :: s in SplitSentences(text) ==> StatesSomething(s) ==> Scan(s) != [])
    && (forall f :: f in Figures(text) ==> norm(f) in LicensedNumbers(records, norm))
  }

  method VerifySummaryGrounding(summary: Option<string>, records: seq<AuditRecord>, norm: Canon) returns (report: Report)
    ensures report.grounded <==> Admissible(Trim(summary.GetOr("")), records, norm)
    ensures var text := Trim(summary.GetOr(""));
            report == if text == "" then
                        Report(false, [], [], [Violation(Empty, "The summary was empty.", None)], 0)
                      else ReportFor(text, records, norm)
  {
    var text := Trim(summary.GetOr(""));
    if text == "" {
      return Report(false, [], [], [Violation(Empty, "The summary was empty.", None)], 0);
    }
    report := CheckText(text, records, norm);
    AdmissibleIff(text, records, norm);
  }

  function ReportFor(text: string, records: seq<AuditRecord>, norm: Canon): Report {
    var cs, violations := Distinct(Scan(text)), ViolationsFor(text, records, norm);
    Report(violations == [], cs, ResolvedRefs(cs, RetrievedRefs(records)), violations, |SplitSentences(text)|)
  }

  method CheckText(text: string, records: seq<AuditRecord>, norm: Canon) returns (report: Report)
    ensures report == ReportFor(text, records, norm)
  {
    var retrieved := RetrievedRefs(records);
    var citations := ExtractCitations(text);
    var sentences := SplitSentences(text);
    var violations, resolved := CheckCitations(citations, retrieved, sentences);
    violations := violations
      + (if citations == [] then [Violation(NoCitations, "The summary cited no records.", None)] else []);
    var uncited := CheckSentences(sentences);
    violations := violations + uncited;
    var allowed := GroundedNumbers(records, norm);
    var ungrounded := CheckFigures(Figures(text), allowed, norm, sentences);
    violations := violations + ungrounded;
    report := Report(violations == [], citations, resolved, violations, |sentences|);
  }

  method CheckCitations(cs: seq<Citation>, retrieved: set<string>, sentences: seq<string>)
    returns (violations: seq<Violation>, resolved: seq<string>)
    ensures violations == UnknownCitations(cs, retrieved, sentences)
    ensures resolved == ResolvedRefs(cs, retrieved)
  {
    violations, resolved := [], [];
    for i := 0 to |cs|
      invariant violations == UnknownCitations(cs[..i], retrieved, sentences)
      invariant resolved == ResolvedRefs(cs[..i], retrieved)
    {
      assert cs[..i + 1][..i] == cs[..i];
      if cs[i].ref in retrieved {
        resolved := resolved + [cs[i].ref];
      } else {
        violations := violations + [Violation(UnknownCitation, cs[i].ref, FirstIncluding(sentences, cs[i].ref))];
      }
    }
    assert cs[..|cs|] == cs;
  }

  method CheckSentences(sentences: seq<string>) returns (violations: seq<Violation>)
    ensures violations == UncitedSentences(sentences)
  {
    violations := [];
    for i := 0 to |sentences|
      invariant violations == UncitedSentences(sentences[..i])
    {
      assert sentences[..i + 1][..i] == sentences[..i];
      if IsClaim(sentences[i]) {
        var cs := ExtractCitations(sentences[i]);
        DistinctRefs(Scan(sentences[i]));
        if cs == [] {
          violations := violations + [Violation(UncitedSentence, sentences[i], Some(sentences[i]))];
        }
      }
    }
    assert sentences[..|sentences|] == sentences;
  }

  method CheckFigures(figures: seq<string>, allowed: set<string>, norm: Canon, sentences: seq<string>)
    returns (violations: seq<Violation>)
    ensures violations == UngroundedNumbers(figures, allowed, norm, sentences)
  {
    violations := [];
    for i := 0 to |figures|
      invariant violations == UngroundedNumbers(figures[..i], allowed, norm, sentences)
    {
      assert figures[..i + 1][..i] == figures[..i];
      if norm(figures[i]) !in allowed {
        violations := violations + [Violation(UngroundedNumber, figures[i], FirstIncluding(sentences, figures[i]))];
      }
    }
    assert figures[..|figures|] == figures;
  }

  // ----- when there is nothing to object to -----

  lemma {:induction false} NoUnknown(cs: seq<Citation>, retrieved: set<string>, sentences: seq<string>)
    ensures UnknownCitations(cs, retrieved, sentences) == [] <==> forall c :: c in cs ==> c.ref in retrieved
  {
    if cs != [] {
      var n := |cs| - 1;
      NoUnknown(cs[..n], retrieved, sentences);
      assert cs == cs[..n] + [cs[n]];
    }
  }

  lemma {:induction false} NoUncited(sentences: seq<string>)
    ensures UncitedSentences(sentences) == [] <==> forall s :: s in sentences ==> StatesSomething(s) ==> Scan(s) != []
  {
    if sentences != [] {
      var n := |sentences| - 1;
      NoUncited(sentences[..n]);
      ClaimMeansTwoWords(sentences[n]);
      SplitLast(sentences);
      MembersOfOneMore(sentences[..n], sentences[n]);
    }
  }

  lemma {:induction false} NoUngrounded(figures: seq<string>, allowed: set<string>, norm: Canon, sentences: seq<string>)
    ensures UngroundedNumbers(figures, allowed, norm, sentences) == [] <==> forall f :: f in figures ==> norm(f) in allowed
  {
    if figures != [] {
      var n := |figures| - 1;
      NoUngrounded(figures[..n], allowed, norm, sentences);
      assert figures == figures[..n] + [figures[n]];
    }
  }

  /** No violation is reported exactly when the text meets every rule. */
  lemma AdmissibleIff(text: string, records: seq<AuditRecord>, norm: Canon)
    requires text != ""
    ensures ViolationsFor(text, records, norm) == [] <==> Admissible(text, records, norm)
  {
    var sentences, cs, retrieved := SplitSentences(text), Distinct(Scan(text)), RetrievedRefs(records);
    NoUnknown(cs, retrieved, sentences);
    NoUncited(sentences);
    NoUngrounded(Figures(text), LicensedNumbers(records, norm), norm, sentences);
    KnownRefs(text, retrieved);
  }

  lemma KnownRefs(text: string, retrieved: set<string>)
    ensures (forall c :: c in Distinct(Scan(text)) ==> c.ref in retrieved)
            <==> forall t :: t in Scan(text) ==> RefOf(t) in retrieved
    ensures Distinct(Scan(text)) == [] <==> Scan(text) == []
  {
    var cs := Distinct(Scan(text));
    DistinctRefs(Scan(text));
    if forall c :: c in cs ==> c.ref in retrieved {
      forall t | t in Scan(text) ensures RefOf(t) in retrieved {
        assert RefOf(t) in Refs(cs);
      }
    }
    if forall t :: t in Scan(text) ==> RefOf(t) in retrieved {
      forall c | c in cs ensures c.ref in retrieved {
        assert c.ref in Refs(cs);
      }
    }
  }

  // ----- soundness, sentence by sentence -----

  lemma {:induction false} InFlatMap(f: string -> seq<string>, xs: seq<string>, t: string)
    ensures t in FlatMap(f, xs) <==> exists k :: 0 <= k < |xs| && t in f(xs[k])
  {
    if xs != [] {
      InFlatMap(f, xs[1..], t);
      assert forall k :: 1 <= k < |xs| ==> xs[k] == xs[1..][k - 1];
      if k :| 0 <= k < |xs[1..]| && t in f(xs[1..][k]) {
        assert t in f(xs[k + 1]);
      }
    }
  }

  /** What a grounded report promises of one sentence: it cites only retrieved records, states only
      licensed figures, and if it claims anything it quotes the token of a retrieved record. */
  ghost predicate SentenceGrounded(s: string, records: seq<AuditRecord>, norm: Canon) {
    && (forall t :: t in Scan(s) ==> RefOf(t) in RetrievedRefs(records))
    && (forall f :: f in Figures(s) ==> norm(f) in LicensedNumbers(records, norm))
    && (StatesSomething(s) ==> exists t :: t in Scan(s) && Includes(s, t) && RefOf(t) in RetrievedRefs(records))
  }

  /** A text's citations and figures are those of its sentences. */
  lemma PartsOfSentences(text: string)
    ensures forall t :: t in Scan(text) <==> exists k :: 0 <= k < |SplitSentences(text)| && t in Scan(SplitSentences(text)[k])
    ensures forall f :: f in Figures(text) <==> exists k :: 0 <= k < |SplitSentences(text)| && f in Figures(SplitSentences(text)[k])
  {
    var sentences := SplitSentences(text);
    CitationsOfSentences(text);
    FiguresOfSentences(text);
    forall t ensures t in Scan(text) <==> exists k :: 0 <= k < |sentences| && t in Scan(sentences[k]) {
      InFlatMap(Scan, sentences, t);
    }
    forall f ensures f in Figures(text) <==> exists k :: 0 <= k < |sentences| && f in Figures(sentences[k]) {
      InFlatMap(Figures, sentences, f);
    }
  }

  ghost predicate EverySentenceGrounded(text: string, records: seq<AuditRecord>, norm: Canon) {
    && text != ""
    && (exists s :: s in SplitSentences(text) && Scan(s) != [])
    && forall s :: s in SplitSentences(text) ==> SentenceGrounded(s, records, norm)
  }

  /** The report over the whole text is grounded exactly when something is cited and every single
      sentence is grounded: no claim can borrow a neighbour's citation. */
  lemma GroundedSentenceBySentence(text: string, records: seq<AuditRecord>, norm: Canon)
    ensures Admissible(text, records, norm) <==> EverySentenceGrounded(text, records, norm)
  {
    PartsOfSentences(text);
    if Admissible(text, records, norm) {
      AdmissibleSentences(text, records, norm);
    }
    if EverySentenceGrounded(text, records, norm) {
      SentencesAdmissible(text, records, norm);
    }
  }

  // ----- what may stand uncited -----

  /** A line without citation and figure, in front of a grounded one, is let through exactly if it does not
      state something in the sense above. */
  lemma UncitedLinePassesIff(a: string, b: string, records: seq<AuditRecord>, norm: Canon)
    requires IsTrimmedSentence(a) && Scan(a) == [] && Figures(a) == []
    requires IsTrimmedSentence(b) && Scan(b) != [] && SentenceGrounded(b, records, norm)
    ensures Admissible(a + "\n" + b, records, norm) <==> !StatesSomething(a)
  {
    var text := a + "\n" + b;
    SplittingUndoesJoining(a, b);
    GroundedSentenceBySentence(text, records, norm);
    assert SplitSentences(text)[1] == b;
    assert SplitSentences(text)[0] == a;
    assert SentenceGrounded(a, records, norm) <==> !StatesSomething(a);
  }

  /** One word is not enough to be a claim, whatever it says: it passes uncited in front of any grounded
      line. */
  lemma OneWordPassesUncited(a: string, b: string, records: seq<AuditRecord>, norm: Canon)
    requires a != "" && IsLetter(a[0]) && a[|a| - 1] == '.' && forall k :: 0 <= k < |a| - 1 ==> IsLetter(a[k])
    requires IsTrimmedSentence(b) && Scan(b) != [] && SentenceGrounded(b, records, norm)
    ensures Scan(a) == [] && SplitSentences(a + "\n" + b) == [a, b] && Admissible(a + "\n" + b, records, norm)
  {
    OneWordAlone(a);
    SplittingUndoesJoining(a, b);
    UncitedLinePassesIff(a, b, records, norm);
  }

  lemma OneWordAlone(a: string)
    requires a != "" && IsLetter(a[0]) && a[|a| - 1] == '.' && forall k :: 0 <= k < |a| - 1 ==> IsLetter(a[k])
    ensures IsTrimmedSentence(a) && Scan(a) == [] && Figures(a) == [] && !StatesSomething(a)
  {
    OneWordIsTrimmed(a);
    OneWordIsPlain(a);
  }

  lemma OneWordIsPlain(a: string)
    requires a != "" && a[|a| - 1] == '.' && forall k :: 0 <= k < |a| - 1 ==> IsLetter(a[k])
    ensures Scan(a) == [] && Figures(a) == [] && !StatesSomething(a)
  {
    forall i | 0 <= i < |a|
      ensures a[i] != '[' && !IsDigit(a[i]) && (IsLetter(a[i]) <==> i < |a| - 1)
    {
    }
    PlainWordIsPlain(a);
  }

  lemma PlainWordIsPlain(a: string)
    requires a != "" && forall i :: 0 <= i < |a| ==> a[i] != '[' && !IsDigit(a[i]) && (IsLetter(a[i]) <==> i < |a| - 1)
    ensures Scan(a) == [] && Figures(a) == [] && !StatesSomething(a)
  {
    PlainText(a);
    NoDigitsNoNumbers(a);
    OneRunStatesNothing(a, |a| - 1);
  }

  lemma OneWordIsTrimmed(a: string)
    requires a != "" && a[|a| - 1] == '.' && forall k :: 0 <= k < |a| - 1 ==> IsLetter(a[k])
    ensures IsTrimmedSentence(a)
  {
    assert forall i :: 0 <= i < |a| ==> a[i] > ' ' && a[i] < '\U{00A0}';
    NoSpacesNoBoundary(a);
  }

  /** "Down." passes beside any retrieved record. */
  lemma DownPassesUncited(records: seq<AuditRecord>, norm: Canon)
    requires "a#b" in RetrievedRefs(records)
    ensures Scan("Down.") == [] && SplitSentences("Down." + "\n" + "[a#b]") == ["Down.", "[a#b]"]
    ensures Admissible("Down." + "\n" + "[a#b]", records, norm)
  {
    TokenAlone(records, norm);
    OneWordPassesUncited("Down.", "[a#b]", records, norm);
  }

  lemma TokenAlone(records: seq<AuditRecord>, norm: Canon)
    requires "a#b" in RetrievedRefs(records)
    ensures IsTrimmedSentence("[a#b]") && Scan("[a#b]") != [] && SentenceGrounded("[a#b]", records, norm)
  {
    TokenIsTrimmed();
    OneCitation();
    NoDigitsNoNumbers(" ");
    NoLettersNoWords(" ");
    assert "[a#b]"[1..4] == "a#b";
  }

  lemma TokenIsTrimmed()
    ensures IsTrimmedSentence("[a#b]")
  {
    var b := "[a#b]";
    assert forall i :: 0 <= i < |b| ==> b[i] > ' ' && b[i] < '\U{00A0}';
    NoSpacesNoBoundary(b);
  }

  lemma NoSpacesNoBoundary(s: string)
    requires s != "" && forall i :: 0 <= i < |s| ==> s[i] > ' ' && s[i] < '\U{00A0}'
    ensures IsTrimmedSentence(s)
  {
    forall i | 0 <= i < |s| ensures !IsSpace(s[i]) && s[i] != '\n' {
      PrintableIsNoSpace(s[i]);
    }
  }

  lemma AdmissibleSentences(text: string, records: seq<AuditRecord>, norm: Canon)
    requires Admissible(text, records, norm)
    ensures EverySentenceGrounded(text, records, norm)
  {
    PartsOfSentences(text);
    var t := Scan(text)[0];
    assert t in Scan(text);
    var k :| 0 <= k < |SplitSentences(text)| && t in Scan(SplitSentences(text)[k]);
    assert SplitSentences(text)[k] in SplitSentences(text);
    forall s | s in SplitSentences(text) ensures SentenceGrounded(s, records, norm) {
      AdmissibleSentence(text, records, norm, s);
    }
  }

  lemma SentencesAdmissible(text: string, records: seq<AuditRecord>, norm: Canon)
    requires EverySentenceGrounded(text, records, norm)
    ensures Admissible(text, records, norm)
  {
    PartsOfSentences(text);
    var s :| s in SplitSentences(text) && Scan(s) != [];
    var k :| 0 <= k < |SplitSentences(text)| && SplitSentences(text)[k] == s;
    assert Scan(s)[0] in Scan(s);
    assert Scan(s)[0] in Scan(text);
    forall t | t in Scan(text) ensures RefOf(t) in RetrievedRefs(records) {
      var j :| 0 <= j < |SplitSentences(text)| && t in Scan(SplitSentences(text)[j]);
      assert SplitSentences(text)[j] in SplitSentences(text);
    }
    forall f | f in Figures(text) ensures norm(f) in LicensedNumbers(records, norm) {
      var j :| 0 <= j < |SplitSentences(text)| && f in Figures(SplitSentences(text)[j]);
      assert SplitSentences(text)[j] in SplitSentences(text);
    }
  }

  lemma AdmissibleSentence(text: string, records: seq<AuditRecord>, norm: Canon, s: string)
    requires Admissible(text, records, norm) && s in SplitSentences(text)
    ensures SentenceGrounded(s, records, norm)
  {
    PartsOfSentences(text);
    var k :| 0 <= k < |SplitSentences(text)| && SplitSentences(text)[k] == s;
    if StatesSomething(s) {
      var t := Scan(s)[0];
      assert t in Scan(s);
      ScannedTokensOccur(s, t);
    }
  }

  // ----- every objection can be shown -----

  /** Stripping keeps the text verbatim up to the first white space it shows. */
  lemma {:induction false} StripVerbatim(s: string, n: nat)
    requires n <= |Strip(s)| && forall i :: 0 <= i < n ==> !IsSpace(Strip(s)[i])
    ensures n <= |s| && s[..n] == Strip(s)[..n] && Strip(s)[n..] == Strip(s[n..])
  {
    if n == 0 {
      assert s[0..] == s;
    } else {
      NoCitationShown(s);
      var rest := Strip(s[1..]);
      NoSpaceBehind(Strip(s), rest, n);
      StripVerbatim(s[1..], n - 1);
      VerbatimStep(s, Strip(s), rest, n);
    }
  }

  lemma NoSpaceBehind(t: string, rest: string, n: nat)
    requires t != "" && t[1..] == rest && 0 < n <= |t| && forall i :: 0 <= i < n ==> !IsSpace(t[i])
    ensures n - 1 <= |rest| && forall i :: 0 <= i < n - 1 ==> !IsSpace(rest[i])
  {
    assert forall i :: 0 <= i < n - 1 ==> rest[i] == t[i + 1];
  }

  lemma VerbatimStep(s: string, t: string, rest: string, n: nat)
    requires s != "" && t == [s[0]] + rest && 0 < n <= |t| && n - 1 <= |s| - 1
    requires s[1..][..n - 1] == rest[..n - 1] && rest[n - 1..] == Strip(s[1..][n - 1..])
    ensures s[..n] == t[..n] && t[n..] == Strip(s[n..])
  {
    assert t[1..] == rest;
    ConsSlices(s, t, n);
  }

  lemma NoCitationShown(s: string)
    requires Strip(s) != "" && !IsSpace(Strip(s)[0])
    ensures s != "" && Strip(s) == [s[0]] + Strip(s[1..])
  {
    SpaceFacts(' ');
    if CitationLength(s) > 0 {
      StepOverCitation(s, CitationLength(s));
    } else {
      StepOverChar(s);
    }
  }

  lemma ConsSlices(s: string, t: string, n: nat)
    requires 0 < n <= |s| && n <= |t| && s[0] == t[0] && s[1..][..n - 1] == t[1..][..n - 1]
    ensures s[..n] == t[..n] && s[1..][n - 1..] == s[n..] && t[1..][n - 1..] == t[n..]
  {
    forall i | 0 <= i < n ensures s[i] == t[i] {
      if i > 0 {
        assert s[1..][..n - 1][i - 1] == s[i] && t[1..][..n - 1][i - 1] == t[i];
      }
    }
  }

  lemma {:induction false} FiguresOccur(s: string, f: string)
    requires f in Figures(s)
    ensures Includes(s, f)
    decreases |s|
  {
    var stripped := Strip(s);
    if s != "" {
      var n := NumberLength(stripped);
      if n > 0 {
        NumberHasNoSpace(stripped);
        StripVerbatim(s, n);
        NumbersStep(stripped);
        if f == stripped[..n] {
          assert PieceAt(s, f, 0);
        } else {
          FiguresOccur(s[n..], f);
          IncludesLater(s, n, f);
        }
      } else {
        NumbersSkip(stripped);
        var k := if CitationLength(s) > 0 then CitationLength(s) else 1;
        assert stripped[1..] == Strip(s[k..]);
        FiguresOccur(s[k..], f);
        IncludesLater(s, k, f);
      }
    }
  }

  lemma NumberHasNoSpace(s: string)
    ensures forall i :: 0 <= i < NumberLength(s) ==> !IsSpace(s[i])
  {
    var d := Run(s, IsDigit);
    forall i | 0 <= i < NumberLength(s) ensures !IsSpace(s[i]) {
      SpaceFacts(s[i]);
      if i > d {
        assert s[i] == s[d + 1..][i - d - 1];
      }
    }
  }

  lemma {:induction false} FirstIncludingFinds(sentences: seq<string>, part: string)
    requires exists k :: 0 <= k < |sentences| && Includes(sentences[k], part)
    ensures FirstIncluding(sentences, part).Some?
    ensures FirstIncluding(sentences, part).value in sentences && Includes(FirstIncluding(sentences, part).value, part)
  {
    if !Includes(sentences[0], part) {
      var k :| 0 <= k < |sentences| && Includes(sentences[k], part);
      assert sentences[1..][k - 1] == sentences[k];
      FirstIncludingFinds(sentences[1..], part);
    }
  }

  ghost predicate Quoted(v: Violation, sentences: seq<string>) {
    v.excerpt.Some? && v.excerpt.value in sentences && Includes(v.excerpt.value, v.detail)
  }

  /** Because nothing is cut, every offending citation and figure is shown inside a whole sentence. */
  lemma ObjectionsAreQuoted(text: string, records: seq<AuditRecord>, norm: Canon)
    ensures forall v :: v in ViolationsFor(text, records, norm) ==>
              v.kind == UnknownCitation || v.kind == UngroundedNumber ==> Quoted(v, SplitSentences(text))
  {
    var sentences := SplitSentences(text);
    forall ref | ref in Refs(Distinct(Scan(text))) ensures exists k :: 0 <= k < |sentences| && Includes(sentences[k], ref) {
      RefIsInSentence(text, ref);
    }
    forall f | f in Figures(text) ensures exists k :: 0 <= k < |sentences| && Includes(sentences[k], f) {
      FiguresOfSentences(text);
      InFlatMap(Figures, sentences, f);
      var k :| 0 <= k < |sentences| && f in Figures(sentences[k]);
      FiguresOccur(sentences[k], f);
    }
    UnknownAreQuoted(Distinct(Scan(text)), RetrievedRefs(records), sentences);
    UngroundedAreQuoted(Figures(text), LicensedNumbers(records, norm), norm, sentences);
    UncitedKinds(sentences);
  }

  lemma RefIsInSentence(text: string, ref: string)
    requires ref in Refs(Distinct(Scan(text)))
    ensures exists k :: 0 <= k < |SplitSentences(text)| && Includes(SplitSentences(text)[k], ref)
  {
    var sentences := SplitSentences(text);
    DistinctRefs(Scan(text));
    var t :| t in Scan(text) && RefOf(t) == ref;
    CitationsOfSentences(text);
    InFlatMap(Scan, sentences, t);
    var k :| 0 <= k < |sentences| && t in Scan(sentences[k]);
    ScannedTokensOccur(sentences[k], t);
    IncludesRef(sentences[k], t);
  }

  lemma {:induction false} UnknownAreQuoted(cs: seq<Citation>, retrieved: set<string>, sentences: seq<string>)
    requires forall ref :: ref in Refs(cs) ==> exists k :: 0 <= k < |sentences| && Includes(sentences[k], ref)
    ensures forall v :: v in UnknownCitations(cs, retrieved, sentences) ==> Quoted(v, sentences)
  {
    if cs != [] {
      var n := |cs| - 1;
      assert cs[n].ref in Refs(cs);
      FirstIncludingFinds(sentences, cs[n].ref);
      assert Refs(cs[..n]) <= Refs(cs);
      UnknownAreQuoted(cs[..n], retrieved, sentences);
    }
  }

  lemma {:induction false} UngroundedAreQuoted(figures: seq<string>, allowed: set<string>, norm: Canon, sentences: seq<string>)
    requires forall f :: f in figures ==> exists k :: 0 <= k < |sentences| && Includes(sentences[k], f)
    ensures forall v :: v in UngroundedNumbers(figures, allowed, norm, sentences) ==> Quoted(v, sentences)
  {
    if figures != [] {
      var n := |figures| - 1;
      assert figures[n] in figures && forall f :: f in figures[..n] ==> f in figures;
      FirstIncludingFinds(sentences, figures[n]);
      UngroundedAreQuoted(figures[..n], allowed, norm, sentences);
    }
  }

  lemma {:induction false} UncitedKinds(sentences: seq<string>)
    ensures forall v :: v in UncitedSentences(sentences) ==> v.kind == UncitedSentence
  {
    if sentences != [] {
      UncitedKinds(sentences[..|sentences| - 1]);
    }
  }
}
