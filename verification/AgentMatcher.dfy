/** Choosing the agent for a signal: the activation gate, the scoring of candidates, and the selection
    of the best one. Source: server/agents/agentActivationRules.ts, server/agents/agentMatcher.ts. */
module AgentMatcher {
  import opened Collections
  import opened AgentLifecycle

  // ----- the activation gate (agentActivationRules.ts) -----

  /** `[...new Set(a)].filter((x) => setB.has(x))` */
  function IntersectAreas(a: seq<string>, b: seq<string>): seq<string> {
    if a == [] then []
    else
      var n := |a| - 1;
      var before := IntersectAreas(a[..n], b);
      if a[n] in a[..n] || a[n] !in b then before else before + [a[n]]
  }

  lemma ElementsOfOneMore(s: seq<string>, x: string)
    ensures Elements(s + [x]) == Elements(s) + {x}
  {
  }

  lemma {:induction false} SharedAreas(a: seq<string>, b: seq<string>)
    ensures Elements(IntersectAreas(a, b)) == Elements(a) * Elements(b)
    ensures NoDuplicates(IntersectAreas(a, b))
  {
    if a != [] {
      var n := |a| - 1;
      var x, before := a[n], IntersectAreas(a[..n], b);
      SharedAreas(a[..n], b);
      SplitLast(a);
      ElementsOfOneMore(a[..n], x);
      ElementsOfOneMore(before, x);
      assert x in before <==> x in Elements(before);
    }
  }

  /** The areas both lists name, each once. */
  lemma IntersectionIsExact(a: seq<string>, b: seq<string>)
    ensures Elements(IntersectAreas(a, b)) == Elements(a) * Elements(b)
    ensures NoDuplicates(IntersectAreas(a, b))
    ensures |IntersectAreas(a, b)| == |Elements(a) * Elements(b)|
  {
    SharedAreas(a, b);
    DistinctCount(IntersectAreas(a, b));
  }

  datatype Channel = SignalChannel | Schedule | Manual | Workflow | Escalation

  datatype Code = Ok | NotLive | InCooldownCode | AlreadyBusy | DuplicateScope | OutOfScope | NoEvidence

  datatype Context = Context(channel: Channel, scope: seq<string>, triggerAreas: Option<seq<string>>,
                             inCooldown: bool, busy: bool, duplicateScope: bool, hasEvidence: bool, isLive: bool)

  datatype Decision = Decision(code: Code, matchedAreas: seq<string>) {
    predicate Allowed() {
      code == Ok
    }
  }

  function EvaluateActivation(c: Context): Decision {
    var matched := if c.triggerAreas.Some? then IntersectAreas(c.scope, c.triggerAreas.value) else [];
    if !c.isLive then Decision(NotLive, matched)
    else if c.inCooldown then Decision(InCooldownCode, matched)
    else if c.duplicateScope then Decision(DuplicateScope, matched)
    else if c.busy then Decision(AlreadyBusy, matched)
    else
      match c.channel
      case Manual | Workflow | Schedule => Decision(Ok, matched)
      case Escalation =>
        if !c.hasEvidence then Decision(NoEvidence, matched)
        else if c.triggerAreas.Some? && matched == [] then Decision(OutOfScope, matched)
        else Decision(Ok, matched)
      case SignalChannel => if matched == [] then Decision(OutOfScope, matched) else Decision(Ok, matched)
  }

  /** What it takes to wake an agent, over all five channels at once. */
  lemma GateOpensIff(c: Context)
    ensures EvaluateActivation(c).Allowed() <==>
      && c.isLive && !c.inCooldown && !c.duplicateScope && !c.busy
      && (c.channel == SignalChannel ==>
            c.triggerAreas.Some? && Elements(c.scope) * Elements(c.triggerAreas.value) != {})
      && (c.channel == Escalation ==>
            c.hasEvidence && (c.triggerAreas.Some? ==> Elements(c.scope) * Elements(c.triggerAreas.value) != {}))
  {
    if c.triggerAreas.Some? {
      IntersectionIsExact(c.scope, c.triggerAreas.value);
    }
  }

  /** Which obstacle a refusal names: the first that stands, in this order, and no later one. */
  lemma RefusalNamesFirst(c: Context)
    ensures
      var shared := c.triggerAreas.Some? && Elements(c.scope) * Elements(c.triggerAreas.value) != {};
      var code := EvaluateActivation(c).code;
      var obstacle := if c.triggerAreas.Some? then !shared else c.channel == SignalChannel;
      && (code == NotLive <==> !c.isLive)
      && (code == InCooldownCode <==> c.isLive && c.inCooldown)
      && (code == DuplicateScope <==> c.isLive && !c.inCooldown && c.duplicateScope)
      && (code == AlreadyBusy <==> c.isLive && !c.inCooldown && !c.duplicateScope && c.busy)
      && (code == NoEvidence ==> c.channel == Escalation && !c.hasEvidence)
      && (code == OutOfScope ==> (c.channel == SignalChannel || (c.channel == Escalation && c.hasEvidence)) && obstacle)
    ensures Elements(EvaluateActivation(c).matchedAreas)
         == if c.triggerAreas.Some? then Elements(c.scope) * Elements(c.triggerAreas.value) else {}
  {
    if c.triggerAreas.Some? {
      IntersectionIsExact(c.scope, c.triggerAreas.value);
    }
  }

  // ----- requirements and scores (agentMatcher.ts) -----

  const MAX_ACTIVE_AGENTS: nat := 4

  datatype Risk = Low | Medium | High

  /** `areas` are the knowledge areas derived from the rule and the connector; `severity` is in lower case. */
  datatype MatchInput = MatchInput(areas: seq<string>, actionType: Option<string>, dangerous: bool,
                                   connectorType: Option<string>, severity: string)

  datatype Requirements = Requirements(areas: seq<string>, taskType: Option<string>, dataSource: Option<string>, risk: Risk)

  function DeriveRequirements(input: MatchInput): Requirements {
    Requirements(input.areas, input.actionType, input.connectorType,
                 if input.actionType.Some? && input.dangerous then High
                 else if input.severity == "critical" || input.severity == "security_risk" then High
                 else if input.severity == "alert" || input.severity == "warning" then Medium
                 else Low)
  }

  /** What is asked of an agent: the areas, the action's type, the connector it needs to read, and the risk,
      which a dangerous action or one of two severities makes high. */
  lemma RequirementsAre(input: MatchInput)
    ensures var req := DeriveRequirements(input);
      && req.areas == input.areas && req.taskType == input.actionType && req.dataSource == input.connectorType
      && (req.risk == High <==> (input.actionType.Some? && input.dangerous) || input.severity in {"critical", "security_risk"})
      && (req.risk == Medium <==> !(input.actionType.Some? && input.dangerous) && input.severity in {"alert", "warning"})
  {
  }

  datatype Scope = Scope(kbScope: seq<string>, dataSources: seq<string>, taskTypes: seq<string>)

  /** The stored scope, column by column, or the role's default where a column is empty. */
  function EffectiveScope(a: Agent, role: Option<Scope>): Scope {
    var d := role.GetOr(Scope([], [], []));
    Scope(if a.kbScope != [] then a.kbScope else d.kbScope,
          if a.dataSources != [] then a.dataSources else d.dataSources,
          if a.taskTypes != [] then a.taskTypes else d.taskTypes)
  }

  datatype Score = Score(agent: string, points: nat, matched: seq<string>, ownsTaskType: bool, ownsDataSource: bool)

  function ScoreAgent(id: string, s: Scope, req: Requirements): Score {
    var matched := IntersectAreas(s.kbScope, req.areas);
    var ownsTaskType := req.taskType.Some? && req.taskType.value in s.taskTypes;
    var ownsDataSource := req.dataSource.Some? && req.dataSource.value in s.dataSources;
    Score(id, |matched| * 10 + (if ownsTaskType then 25 else 0) + (if ownsDataSource then 8 else 0),
          matched, ownsTaskType, ownsDataSource)
  }

  /** The required areas an agent covers, and whether it owns the task type and reads the data source. */
  ghost function Covered(s: Scope, req: Requirements): nat {
    |Elements(s.kbScope) * Elements(req.areas)|
  }

  ghost predicate Owns(s: Scope, req: Requirements) {
    exists t :: t in s.taskTypes && req.taskType == Some(t)
  }

  ghost predicate Reads(s: Scope, req: Requirements) {
    exists d :: d in s.dataSources && req.dataSource == Some(d)
  }

  /** The points, from the scope columns and the requirements: ten for each required area among the areas, 25
      if the required task type is among the task types, 8 if the data source is among the data sources. */
  lemma PointsAre(id: string, s: Scope, req: Requirements)
    ensures ScoreAgent(id, s, req).agent == id
    ensures ScoreAgent(id, s, req).points
         == 10 * |Elements(s.kbScope) * Elements(req.areas)|
            + (if exists t :: t in s.taskTypes && req.taskType == Some(t) then 25 else 0)
            + (if exists d :: d in s.dataSources && req.dataSource == Some(d) then 8 else 0)
  {
    IntersectionIsExact(s.kbScope, req.areas);
  }

  /** A match is strong - enough for a high-risk action - exactly when the agent owns the task type,
      covers three areas, or covers two and reads the data source. */
  lemma StrongMatch(id: string, s: Scope, req: Requirements)
    ensures ScoreAgent(id, s, req).points >= 25
            <==> Owns(s, req) || Covered(s, req) >= 3 || (Covered(s, req) == 2 && Reads(s, req))
  {
    PointsAre(id, s, req);
  }

  /** Owning the task type decides against an agent that covers up to one more area, and against two or
      three more only as far as the data source allows; never against four. */
  lemma OwnershipDecidesIff(a: string, owner: Scope, b: string, other: Scope, req: Requirements)
    requires Owns(owner, req) && !Owns(other, req)
    ensures var lead := Covered(other, req) - Covered(owner, req);
            ScoreAgent(a, owner, req).points > ScoreAgent(b, other, req).points <==>
              || lead <= 1
              || (lead == 2 && (Reads(owner, req) || !Reads(other, req)))
              || (lead == 3 && Reads(owner, req) && !Reads(other, req))
  {
    PointsAre(a, owner, req);
    PointsAre(b, other, req);
  }

  // ----- the roster -----

  predicate OnRoster(a: Agent) {
    (a.state.Some? && a.state.value in LIVE_STATES) || (a.state.None? && a.status == Some("active"))
  }

  predicate Eligible(id: string, a: Agent, role: Option<Scope>, now: int, req: Requirements) {
    var s := EffectiveScope(a, role);
    && OnRoster(a) && id != "conductor" && !InCooldown(a, now)
    && !(s.kbScope == [] && s.taskTypes == [])
    && ScoreAgent(id, s, req).points > 0
  }

  function RoleOf(roles: map<string, Scope>, id: string): Option<Scope> {
    if id in roles then Some(roles[id]) else None
  }

  /** What the matcher reads: the rows in query order, the role defaults and the clock. */
  datatype Roster = Roster(agents: map<string, Agent>, order: seq<string>, roles: map<string, Scope>, now: int)

  predicate EligibleIn(r: Roster, id: string, req: Requirements) {
    id in r.agents && Eligible(id, r.agents[id], RoleOf(r.roles, id), r.now, req)
  }

  function ScoreIn(r: Roster, id: string, req: Requirements): Score
    requires id in r.agents
  {
    ScoreAgent(id, EffectiveScope(r.agents[id], RoleOf(r.roles, id)), req)
  }

  /** Who is a candidate, read off the row and the role's defaults: a live agent (by its old status, if it has
      no state) other than the conductor that is not cooling down and has anything at all to offer. */
  lemma EligibleIff(r: Roster, id: string, req: Requirements)
    ensures EligibleIn(r, id, req) <==>
      && id in r.agents && id != "conductor"
      && var a, d := r.agents[id], if id in r.roles then r.roles[id] else Scope([], [], []);
         var areas := if a.kbScope == [] then d.kbScope else a.kbScope;
         var sources := if a.dataSources == [] then d.dataSources else a.dataSources;
         var types := if a.taskTypes == [] then d.taskTypes else a.taskTypes;
         && (if a.state.Some? then a.state.value in LIVE_STATES else a.status == Some("active"))
         && (a.cooldownUntil.Some? ==> a.cooldownUntil.value <= r.now)
         && (|| Elements(areas) * Elements(req.areas) != {}
             || (exists t :: t in types && req.taskType == Some(t))
             || ((areas != [] || types != []) && exists d :: d in sources && req.dataSource == Some(d)))
  {
    if id in r.agents {
      var s := EffectiveScope(r.agents[id], RoleOf(r.roles, id));
      PointsAre(id, s, req);
      if s.kbScope == [] {
        assert Elements(s.kbScope) == {};
      }
    }
  }

  /** The points of an agent on the roster, from its row and, column by column, its role's defaults. */
  lemma PointsIn(r: Roster, id: string, req: Requirements)
    requires id in r.agents
    ensures
      var a, d := r.agents[id], if id in r.roles then r.roles[id] else Scope([], [], []);
      && ScoreIn(r, id, req).agent == id
      && ScoreIn(r, id, req).points
         == 10 * |Elements(if a.kbScope == [] then d.kbScope else a.kbScope) * Elements(req.areas)|
            + (if exists t :: t in (if a.taskTypes == [] then d.taskTypes else a.taskTypes) && req.taskType == Some(t) then 25 else 0)
            + (if exists d' :: d' in (if a.dataSources == [] then d.dataSources else a.dataSources) && req.dataSource == Some(d') then 8 else 0)
  {
    PointsAre(id, EffectiveScope(r.agents[id], RoleOf(r.roles, id)), req);
  }

  function Scored(r: Roster, n: nat, req: Requirements): seq<Score>
    requires n <= |r.order|
  {
    if n == 0 then []
    else
      Scored(r, n - 1, req)
      + (if EligibleIn(r, r.order[n - 1], req) then [ScoreIn(r, r.order[n - 1], req)] else [])
  }

  // ----- selection: a stable sort by descending score -----

  /** Behind everything at least as good, in front of everything worse. */
  function Insert(sorted: seq<Score>, c: Score): (r: seq<Score>)
    ensures r != []
  {
    if sorted == [] || sorted[0].points < c.points then [c] + sorted
    else [sorted[0]] + Insert(sorted[1..], c)
  }

  function StableSort(cs: seq<Score>): (r: seq<Score>)
    ensures r == [] <==> cs == []
  {
    if cs == [] then [] else Insert(StableSort(cs[..|cs| - 1]), cs[|cs| - 1])
  }

  predicate Descending(cs: seq<Score>) {
    |cs| < 2 || (cs[0].points >= cs[1].points && Descending(cs[1..]))
  }

  lemma {:induction false} InsertKeepsOrder(sorted: seq<Score>, c: Score)
    requires Descending(sorted)
    ensures Descending(Insert(sorted, c))
  {
    var r := Insert(sorted, c);
    if sorted == [] || sorted[0].points < c.points {
      assert r[1..] == sorted;
    } else {
      InsertKeepsOrder(sorted[1..], c);
      assert r[1..] == Insert(sorted[1..], c);
    }
  }

  lemma {:induction false} InsertPermutes(sorted: seq<Score>, c: Score)
    ensures multiset(Insert(sorted, c)) == multiset(sorted) + multiset{c}
  {
    if !(sorted == [] || sorted[0].points < c.points) {
      InsertPermutes(sorted[1..], c);
      assert sorted == [sorted[0]] + sorted[1..];
    }
  }

  /** The sort loses no candidate and puts better ones first. */
  lemma {:induction false} StableSortSorts(cs: seq<Score>)
    ensures Descending(StableSort(cs)) && multiset(StableSort(cs)) == multiset(cs)
  {
    if cs != [] {
      var n := |cs| - 1;
      StableSortSorts(cs[..n]);
      InsertKeepsOrder(StableSort(cs[..n]), cs[n]);
      InsertPermutes(StableSort(cs[..n]), cs[n]);
      SplitLast(cs);
    }
  }

  /** `c` is the candidate that comes first among those with the highest score. */
  ghost predicate FirstBest(cs: seq<Score>, c: Score) {
    exists i :: 0 <= i < |cs| && BestAt(cs, c, i)
  }

  ghost predicate BestAt(cs: seq<Score>, c: Score, i: nat)
    requires i < |cs|
  {
    && cs[i] == c
    && (forall j :: 0 <= j < |cs| ==> cs[j].points <= c.points)
    && (forall j :: 0 <= j < i ==> cs[j].points < c.points)
  }

  lemma {:induction false} HeadIsFirstBest(cs: seq<Score>)
    requires cs != []
    ensures FirstBest(cs, StableSort(cs)[0])
  {
    var n := |cs| - 1;
    if n == 0 {
      assert BestAt(cs, cs[0], 0);
    } else {
      var before := StableSort(cs[..n])[0];
      HeadIsFirstBest(cs[..n]);
      var i :| 0 <= i < n && BestAt(cs[..n], before, i);
      assert forall j :: 0 <= j < n ==> cs[..n][j] == cs[j];
      if before.points < cs[n].points {
        assert BestAt(cs, cs[n], n);
      } else {
        assert BestAt(cs, before, i);
      }
    }
  }

  datatype MatchResult = MatchResult(best: Option<Score>, backup: Option<Score>, manual: bool)

  function MatchFor(r: Roster, req: Requirements): MatchResult {
    var sorted := StableSort(Scored(r, |r.order|, req));
    if sorted == [] then MatchResult(None, None, true)
    else MatchResult(Some(sorted[0]), if |sorted| > 1 then Some(sorted[1]) else None,
                     req.risk == High && sorted[0].points < 25)
  }

  method MatchAgent(r: Roster, input: MatchInput) returns (m: MatchResult)
    ensures m == MatchFor(r, DeriveRequirements(input))
  {
    var req := DeriveRequirements(input);
    var scored: seq<Score> := [];
    for i := 0 to |r.order|
      invariant scored == Scored(r, i, req)
    {
      var id := r.order[i];
      if id in r.agents && OnRoster(r.agents[id]) && id != "conductor" && !InCooldown(r.agents[id], r.now) {
        var scope := EffectiveScope(r.agents[id], RoleOf(r.roles, id));
        if !(scope.kbScope == [] && scope.taskTypes == []) {
          var s := ScoreAgent(id, scope, req);
          if s.points > 0 {
            scored := scored + [s];
          }
        }
      }
    }
    var sorted := StableSort(scored);
    if sorted == [] {
      return MatchResult(None, None, true);
    }
    m := MatchResult(Some(sorted[0]), if |sorted| > 1 then Some(sorted[1]) else None,
                     req.risk == High && sorted[0].points < 25);
  }

  lemma {:induction false} ScoredAreEligible(r: Roster, n: nat, req: Requirements)
    requires n <= |r.order|
    ensures forall s :: s in Scored(r, n, req) <==>
              exists k :: 0 <= k < n && EligibleIn(r, r.order[k], req) && s == ScoreIn(r, r.order[k], req)
  {
    if n > 0 {
      ScoredAreEligible(r, n - 1, req);
    }
  }

  /** The agent in place `k` of the roster is eligible, nobody eligible scores higher, and nobody in front of
      it as high. */
  ghost predicate FirstOfTheBest(r: Roster, n: nat, req: Requirements, k: int)
    requires n <= |r.order|
  {
    && 0 <= k < n && EligibleIn(r, r.order[k], req)
    && (forall j :: 0 <= j < n && EligibleIn(r, r.order[j], req) ==>
          ScoreIn(r, r.order[j], req).points <= ScoreIn(r, r.order[k], req).points)
    && forall j :: 0 <= j < k && EligibleIn(r, r.order[j], req) ==>
         ScoreIn(r, r.order[j], req).points < ScoreIn(r, r.order[k], req).points
  }

  lemma HeadOfOneMore(cs: seq<Score>, c: Score)
    ensures StableSort(cs + [c])[0] == if cs == [] || StableSort(cs)[0].points < c.points then c else StableSort(cs)[0]
  {
    assert (cs + [c])[..|cs|] == cs;
  }

  /** The roster as the matcher sees it: a score in the place of everybody eligible. */
  function Marks(r: Roster, n: nat, req: Requirements): seq<Option<Score>>
    requires n <= |r.order|
  {
    seq(n, k requires 0 <= k < n => if EligibleIn(r, r.order[k], req) then Some(ScoreIn(r, r.order[k], req)) else None)
  }

  function Kept(marks: seq<Option<Score>>): seq<Score> {
    if marks == [] then []
    else
      var n := |marks| - 1;
      Kept(marks[..n]) + (if marks[n].Some? then [marks[n].value] else [])
  }

  lemma {:induction false} ScoredAreKept(r: Roster, n: nat, req: Requirements)
    requires n <= |r.order|
    ensures Scored(r, n, req) == Kept(Marks(r, n, req))
  {
    if n > 0 {
      ScoredAreKept(r, n - 1, req);
      assert Marks(r, n, req)[..n - 1] == Marks(r, n - 1, req);
    }
  }

  ghost predicate FirstMark(marks: seq<Option<Score>>, k: int) {
    && 0 <= k < |marks| && marks[k].Some?
    && (forall j :: 0 <= j < |marks| && marks[j].Some? ==> marks[j].value.points <= marks[k].value.points)
    && forall j :: 0 <= j < k && marks[j].Some? ==> marks[j].value.points < marks[k].value.points
  }

  lemma {:induction false} KeptAreMarked(marks: seq<Option<Score>>, c: Score)
    requires c in Kept(marks)
    ensures exists j :: 0 <= j < |marks| && marks[j] == Some(c)
  {
    var n := |marks| - 1;
    if !(marks[n] == Some(c)) {
      KeptAreMarked(marks[..n], c);
    }
  }

  lemma {:induction false} HeadIsFirstMark(marks: seq<Option<Score>>, k: int)
    requires FirstMark(marks, k)
    ensures Kept(marks) != [] && StableSort(Kept(marks))[0] == marks[k].value
  {
    var n := |marks| - 1;
    var cs := Kept(marks[..n]);
    if marks[n].Some? {
      HeadOfOneMore(cs, marks[n].value);
    } else {
      assert cs + [] == cs;
    }
    if k < n {
      HeadIsFirstMark(marks[..n], k);
    } else if cs != [] {
      HeadIsMarked(marks[..n], cs);
    }
  }

  lemma HeadIsMarked(marks: seq<Option<Score>>, cs: seq<Score>)
    requires cs == Kept(marks) && cs != []
    ensures exists j :: 0 <= j < |marks| && marks[j] == Some(StableSort(cs)[0])
  {
    HeadIsFirstBest(cs);
    var i :| 0 <= i < |cs| && BestAt(cs, StableSort(cs)[0], i);
    KeptAreMarked(marks, cs[i]);
  }

  /** The agent chosen is the first of the best in roster order. */
  lemma BestIsFirst(r: Roster, req: Requirements, k: int)
    requires FirstOfTheBest(r, |r.order|, req, k)
    ensures MatchFor(r, req).best == Some(ScoreIn(r, r.order[k], req))
  {
    var marks := Marks(r, |r.order|, req);
    ScoredAreKept(r, |r.order|, req);
    assert FirstMark(marks, k);
    HeadIsFirstMark(marks, k);
  }

  /** Taken from the first place on, there is a first of the best as soon as anybody is eligible. */
  lemma {:induction false} SomebodyIsFirst(r: Roster, n: nat, req: Requirements) returns (k: nat)
    requires n <= |r.order| && exists j :: 0 <= j < n && EligibleIn(r, r.order[j], req)
    ensures FirstOfTheBest(r, n, req, k)
  {
    if exists j :: 0 <= j < n - 1 && EligibleIn(r, r.order[j], req) {
      k := SomebodyIsFirst(r, n - 1, req);
      if EligibleIn(r, r.order[n - 1], req) && ScoreIn(r, r.order[k], req).points < ScoreIn(r, r.order[n - 1], req).points {
        k := n - 1;
      }
    } else {
      k := n - 1;
    }
  }

  /** The backup is a best one among the candidates that are left without the best. */
  lemma BackupIsNextBest(r: Roster, req: Requirements)
    ensures var m, cs := MatchFor(r, req), multiset(Scored(r, |r.order|, req));
            && (m.backup.Some? <==> |Scored(r, |r.order|, req)| >= 2)
            && (m.backup.Some? ==>
                  && m.best.Some? && m.backup.value in cs - multiset{m.best.value}
                  && forall c :: c in cs - multiset{m.best.value} ==> c.points <= m.backup.value.points)
  {
    StableSortSorts(Scored(r, |r.order|, req));
    SecondIsNextBest(Scored(r, |r.order|, req), StableSort(Scored(r, |r.order|, req)));
  }

  lemma SecondIsNextBest(cs: seq<Score>, sorted: seq<Score>)
    requires Descending(sorted) && multiset(sorted) == multiset(cs)
    ensures |sorted| == |cs|
    ensures |sorted| >= 2 ==>
              && sorted[1] in multiset(cs) - multiset{sorted[0]}
              && forall c :: c in multiset(cs) - multiset{sorted[0]} ==> c.points <= sorted[1].points
  {
    assert |sorted| == |multiset(sorted)| == |multiset(cs)| == |cs|;
    if |sorted| >= 2 {
      var rest := sorted[1..];
      assert sorted == [sorted[0]] + rest;
      assert multiset(cs) - multiset{sorted[0]} == multiset(rest);
      forall c: Score | c in multiset(rest) ensures c.points <= rest[0].points {
        var i :| 0 <= i < |rest| && rest[i] == c;
        FirstIsHighest(rest, i);
      }
    }
  }

  lemma {:induction false} FirstIsHighest(cs: seq<Score>, i: nat)
    requires Descending(cs) && i < |cs|
    ensures cs[i].points <= cs[0].points
  {
    if i > 0 {
      FirstIsHighest(cs[1..], i - 1);
    }
  }

  /** The chosen agent is eligible and no eligible agent scores higher; nobody is chosen only if nobody
      is eligible. A human takes over if nobody is chosen, or the risk is high and the best has less than 25. */
  lemma BestIsEligibleMaximum(r: Roster, req: Requirements)
    ensures var m := MatchFor(r, req);
            && (m.manual <==> m.best.None? || (req.risk == High && m.best.value.points < 25))
            && (m.best.None? <==> forall k :: 0 <= k < |r.order| ==> !EligibleIn(r, r.order[k], req))
            && (m.best.Some? ==>
                  && (exists k :: 0 <= k < |r.order| && r.order[k] == m.best.value.agent)
                  && EligibleIn(r, m.best.value.agent, req)
                  && m.best.value == ScoreIn(r, m.best.value.agent, req)
                  && forall k :: 0 <= k < |r.order| && EligibleIn(r, r.order[k], req) ==>
                       ScoreIn(r, r.order[k], req).points <= m.best.value.points)
  {
    var cs := Scored(r, |r.order|, req);
    ScoredAreEligible(r, |r.order|, req);
    if cs != [] {
      HeadIsFirstBest(cs);
      var best := StableSort(cs)[0];
      var i :| 0 <= i < |cs| && BestAt(cs, best, i);
      assert cs[i] in cs;
      forall k | 0 <= k < |r.order| && EligibleIn(r, r.order[k], req)
        ensures ScoreIn(r, r.order[k], req).points <= best.points
      {
        var s := ScoreIn(r, r.order[k], req);
        assert s in cs;
        var j :| 0 <= j < |cs| && cs[j] == s;
      }
    } else {
      assert forall k :: 0 <= k < |r.order| && EligibleIn(r, r.order[k], req) ==> ScoreIn(r, r.order[k], req) !in cs;
    }
  }

  function CountBusy(r: Roster, n: nat): nat
    requires n <= |r.order|
  {
    if n == 0 then 0
    else
      CountBusy(r, n - 1)
      + (if r.order[n - 1] in r.agents && r.agents[r.order[n - 1]].state.Some?
            && r.agents[r.order[n - 1]].state.value in BUSY_STATES then 1 else 0)
  }

  lemma {:induction false} BusyAreCounted(r: Roster, n: nat)
    requires n <= |r.order|
    ensures CountBusy(r, n) == |set k | 0 <= k < n && r.order[k] in r.agents && r.agents[r.order[k]].state.Some?
                                        && r.agents[r.order[k]].state.value in BUSY_STATES|
  {
    var busy := set k | 0 <= k < n && r.order[k] in r.agents && r.agents[r.order[k]].state.Some?
                        && r.agents[r.order[k]].state.value in BUSY_STATES;
    if n == 0 {
      assert busy == {};
    } else {
      var before := set k | 0 <= k < n - 1 && r.order[k] in r.agents && r.agents[r.order[k]].state.Some?
                            && r.agents[r.order[k]].state.value in BUSY_STATES;
      BusyAreCounted(r, n - 1);
      var id := r.order[n - 1];
      assert busy == before + if id in r.agents && r.agents[id].state.Some? && r.agents[id].state.value in BUSY_STATES then {n - 1} else {};
    }
  }

  /** Another roster agent is busy in one of the required areas, or a task of the required type is already
      assigned and approved or executing. */
  predicate ScopeInFlight(r: Roster, req: Requirements, exclude: string, taskInFlight: bool) {
    || (exists k :: 0 <= k < |r.order| && r.order[k] != exclude && BusyIn(r, r.order[k], req))
    || (req.taskType.Some? && taskInFlight)
  }

  predicate BusyIn(r: Roster, id: string, req: Requirements) {
    && id in r.agents && OnRoster(r.agents[id]) && StateOf(r.agents[id]) in BUSY_STATES
    && IntersectAreas(EffectiveScope(r.agents[id], RoleOf(r.roles, id)).kbScope, req.areas) != []
  }
}
