/** Inputs for the conductor: two cycles that run an agent twice, and a best match that is turned away.
    Source: server/agents/conductor.ts. */
module CycleExamples {
  import opened Collections
  import opened AgentLifecycle
  import opened ActivationService
  import opened AgentMatcher
  import opened Conductor

  /** An agent that has never failed. */
  function Fresh(state: State, scope: seq<string>): Agent {
    Agent(Some(state), Some("active"), None, None, None, Some(0), Some(0), None, scope, [], [])
  }

  function Idle(scope: seq<string>): Agent {
    Fresh(Standby, scope)
  }

  function About(area: string): Signal {
    Signal("s", [area], None, "info")
  }

  function Needs(area: string): Requirements {
    DeriveRequirements(InputOf(About(area)))
  }

  lemma NeedsOnlyAreas(area: string)
    ensures Needs(area) == Requirements([area], None, None, Low)
  {
  }

  lemma SharedArea(scope: seq<string>, area: string)
    requires |scope| == 1
    ensures |IntersectAreas(scope, [area])| == if scope == [area] then 1 else 0
  {
    IntersectionIsExact(scope, [area]);
    assert Elements(scope) == {scope[0]} && Elements([area]) == {area};
    assert Elements(scope) * Elements([area]) == if scope[0] == area then {area} else {};
  }

  /** A live agent is a candidate exactly for the area its stored scope or, if that is empty, its role names. */
  lemma IdleIsEligible(id: string, state: State, a: Agent, role: Option<Scope>, scope: seq<string>, now: int, area: string)
    requires id != "conductor" && |scope| == 1 && state in LIVE_STATES
    requires (a == Fresh(state, scope) && role == None) || (a == Fresh(state, []) && role == Some(Scope(scope, [], [])))
    ensures Eligible(id, a, role, now, Needs(area)) <==> scope == [area]
  {
    NeedsOnlyAreas(area);
    SharedArea(scope, area);
    assert EffectiveScope(a, role) == Scope(scope, [], []);
  }

  /** The only eligible agent is the best match, and no signal of low risk goes to a human. */
  lemma OnlyCandidateIsBest(r: Roster, area: string, k: nat)
    requires k < |r.order| && EligibleIn(r, r.order[k], Needs(area))
    requires forall i :: 0 <= i < |r.order| && EligibleIn(r, r.order[i], Needs(area)) ==> r.order[i] == r.order[k]
    ensures var m := MatchFor(r, Needs(area)); m.best.Some? && m.best.value.agent == r.order[k] && !m.manual
  {
    NeedsOnlyAreas(area);
    BestIsEligibleMaximum(r, Needs(area));
  }

  // ----- a second run -----

  function TwoAgents(): Roster {
    Roster(map["a" := Idle(["x"]), "b" := Idle(["y"])], ["a", "b"], map[], 0)
  }

  lemma NobodyIsBusy()
    ensures InitialBudget(TwoAgents()) == MAX_ACTIVE_AGENTS
    ensures forall id, area :: !ScopeInFlight(TwoAgents(), Needs(area), id, false)
  {
    var r := TwoAgents();
    assert CountBusy(r, 0) == 0 && CountBusy(r, 1) == 0 && CountBusy(r, 2) == 0;
  }

  lemma GateIsOpen(id: string, area: string, seen: set<string>)
    requires (id == "a" && area == "x") || (id == "b" && area == "y")
    requires id !in seen
    ensures Routable(TwoAgents(), ["a", "b"], seen, About(area), id)
  {
    var r := TwoAgents();
    NeedsOnlyAreas(area);
    NobodyIsBusy();
    IdleIsEligible("a", Standby, Idle(["x"]), None, ["x"], 0, area);
    IdleIsEligible("b", Standby, Idle(["y"]), None, ["y"], 0, area);
    OnlyCandidateIsBest(r, area, if id == "a" then 0 else 1);
    GateOpensIff(GateContext(r, id, Needs(area)));
    assert area in Elements(r.agents[id].kbScope) * Elements([area]);
  }

  lemma BothAreRouted() returns (areasA: seq<string>, areasB: seq<string>)
    ensures Route(TwoAgents(), ["a", "b"], [About("x"), About("y")]).matches
         == [SignalMatch("a", About("x"), areasA), SignalMatch("b", About("y"), areasB)]
  {
    var r, active, signals := TwoAgents(), ["a", "b"], [About("x"), About("y")];
    areasA, areasB := IntersectAreas(["x"], ["x"]), IntersectAreas(["y"], ["y"]);
    NobodyIsBusy();
    assert signals[..1] == [About("x")] && signals[..1][..0] == [] && signals[..0] == [];
    var none := Route(r, active, []);
    assert none == Routing([], {}, MAX_ACTIVE_AGENTS);
    GateIsOpen("a", "x", {});
    var one := Route(r, active, signals[..1]);
    assert one == RouteOne(r, active, none, About("x"));
    assert one == Routing([SignalMatch("a", About("x"), areasA)], {"a"}, MAX_ACTIVE_AGENTS - 1);
    GateIsOpen("b", "y", {"a"});
    assert Route(r, active, signals) == RouteOne(r, active, one, About("y"));
  }

  /** The first run throws at once, every later one returns after fifteen minutes. */
  function FirstThrows(n: nat, id: string): (Outcome, nat) {
    if n == 0 then (Threw, 0) else (Returned(false, 0, 0), MIN_COOLDOWN_MS)
  }

  lemma WhatTheSignalPhaseLeaves(matches: seq<SignalMatch>, agents: map<string, Agent>, start: int)
    requires |matches| == 2 && matches[0].agent == "a" && matches[1].agent == "b"
    requires "a" in agents && agents["a"].failures == Some(0)
    ensures ReturnedAgents(matches, FirstThrows, 2) == ["b"]
    ensures FailedRuns(matches, FirstThrows, agents, start, 2) == [Failure("a", start, From(start + MIN_COOLDOWN_MS))]
    ensures ClockAfter(matches, FirstThrows, start, 2) == start + MIN_COOLDOWN_MS
  {
    FirstCooldown();
    assert ClockAfter(matches, FirstThrows, start, 1) == start;
    assert ReturnedAgents(matches, FirstThrows, 1) == [];
    assert FailedRuns(matches, FirstThrows, agents, start, 1) == [Failure("a", start, From(start + MIN_COOLDOWN_MS))];
  }

  lemma OnlyTheFirstIsVisited()
    ensures Visited(["a", "b"], {"a"}, ["b"]) == ["a"]
  {
    assert ["a", "b"][..1] == ["a"] && ["a"][..0] == [];
    assert Visited([], {"a"}, ["b"]) == [] && Visited(["a"], {"a"}, ["b"]) == ["a"];
  }

  lemma BothAreActive()
    ensures ActiveAgents(TwoAgents().agents, ["a", "b"]) == ["a", "b"]
  {
    var agents := TwoAgents().agents;
    assert ["a", "b"][..1] == ["a"] && ["a"][..0] == [];
    assert ActiveAgents(agents, []) == [] && ActiveAgents(agents, ["a"]) == ["a"];
  }

  /** A whole cycle in which agent `a` is run for a signal, throws, and is run again by its schedule, because
      another agent's run took the fifteen minutes of its cooldown. */
  method SecondRunHappens() returns (matched: seq<string>, scheduled: seq<string>)
    ensures "a" in matched && "a" in scheduled
  {
    var matches, visits := FifteenMinuteCycle();
    OneVisit(visits, "a");
    matched, scheduled := Agents(matches), RanAgents(visits);
    assert matched[0] == "a";
  }

  method FifteenMinuteCycle() returns (matches: seq<SignalMatch>, visits: seq<Visit>)
    ensures |matches| == 2 && matches[0].agent == "a"
    ensures VisitedAgents(visits) == ["a"] && forall v :: v in visits && v.agent == "a" ==> v.ran
  {
    var st := new AgentStore(TwoAgents().agents, ["a", "b"], 0);
    ghost var agents := st.agents;
    assert Roster(st.agents, st.order, map[], st.now) == TwoAgents();
    OnlyTheFirstIsVisited();
    BothAreActive();
    ghost var areasA, areasB := BothAreRouted();
    ghost var routed := Route(TwoAgents(), ["a", "b"], [About("x"), About("y")]).matches;
    var ran, failed;
    ghost var start, between;
    matches, ran, failed, visits, start, between :=
      RunConductor(st, map[], [About("x"), About("y")], {"a"}, DueEachTime, 0, FirstThrows);
    assert matches == routed;
    WhatTheSignalPhaseLeaves(matches, agents, start);
    TheCooldownHasPassed(visits, failed, start);
  }

  function DueEachTime(id: string): bool {
    true
  }

  lemma OneVisit(visits: seq<Visit>, id: string)
    requires VisitedAgents(visits) == [id] && forall v :: v in visits && v.agent == id ==> v.ran
    ensures RanAgents(visits) == [id]
  {
    VisitedCount(visits);
    var v := visits[0];
    assert visits[..0] == [] && v in visits;
    assert VisitedAgents(visits) == VisitedAgents([]) + [v.agent];
    assert VisitedAgents(visits)[0] == v.agent && v.ran;
    assert RanAgents(visits) == RanAgents([]) + [v.agent];
  }

  lemma {:induction false} VisitedCount(visits: seq<Visit>)
    ensures |VisitedAgents(visits)| == |visits|
  {
    if visits != [] {
      VisitedCount(visits[..|visits| - 1]);
    }
  }

  lemma TheCooldownHasPassed(visits: seq<Visit>, failed: seq<Failure>, start: int)
    requires failed == [Failure("a", start, From(start + MIN_COOLDOWN_MS))] && DueExactly(visits, failed, DueEachTime)
    requires forall v :: v in visits ==> v.at >= start + MIN_COOLDOWN_MS
    ensures forall v :: v in visits && v.agent == "a" ==> v.ran
  {
    assert failed[0] in failed;
  }

  lemma FirstCooldown()
    ensures CooldownMs(1) == MIN_COOLDOWN_MS
  {
    assert PowerOfTwo(0) == 1;
  }

  // ----- a second run at once -----

  /** An agent that was hired and has not been put on standby: the bracket leaves its state alone. */
  function OneHired(): Roster {
    Roster(map["a" := Fresh(Hired, ["x"])], ["a"], map[], 0)
  }

  lemma HiredIsRouted() returns (areas: seq<string>)
    ensures Route(OneHired(), ["a"], [About("x")]).matches == [SignalMatch("a", About("x"), areas)]
  {
    var r, active, signals := OneHired(), ["a"], [About("x")];
    areas := IntersectAreas(["x"], ["x"]);
    NeedsOnlyAreas("x");
    IdleIsEligible("a", Hired, Fresh(Hired, ["x"]), None, ["x"], 0, "x");
    OnlyCandidateIsBest(r, "x", 0);
    GateOpensIff(GateContext(r, "a", Needs("x")));
    assert "x" in Elements(r.agents["a"].kbScope) * Elements(["x"]);
    assert CountBusy(r, 0) == 0 && CountBusy(r, 1) == 0 && signals[..0] == [];
    var none := Route(r, active, []);
    assert none == Routing([], {}, MAX_ACTIVE_AGENTS);
    assert Route(r, active, signals) == RouteOne(r, active, none, About("x"));
  }

  /** Every run rejects at once, with nothing that could be read. */
  function RejectsNull(n: nat, id: string): (Outcome, nat) {
    (ThrewUnreadably, 0)
  }

  /** A cycle that takes no time and runs the agent twice: the unreadable rejection set no cooldown. */
  method UnreadableThrowRunsTwice() returns (matched: seq<string>, scheduled: seq<string>)
    ensures "a" in matched && "a" in scheduled
  {
    var matches, visits := UnreadableCycle();
    OneVisit(visits, "a");
    matched, scheduled := Agents(matches), RanAgents(visits);
    assert matched[0] == "a";
  }

  method UnreadableCycle() returns (matches: seq<SignalMatch>, visits: seq<Visit>)
    ensures |matches| == 1 && matches[0].agent == "a"
    ensures VisitedAgents(visits) == ["a"] && forall v :: v in visits && v.agent == "a" ==> v.ran
  {
    var st := new AgentStore(OneHired().agents, ["a"], 0);
    ghost var agents := st.agents;
    assert Roster(st.agents, st.order, map[], st.now) == OneHired();
    OnlyAgentIsVisited();
    ghost var areas := HiredIsRouted();
    ghost var routed := Route(OneHired(), ["a"], [About("x")]).matches;
    var ran, failed;
    ghost var start, between;
    matches, ran, failed, visits, start, between :=
      RunConductor(st, map[], [About("x")], {"a"}, DueEachTime, 0, RejectsNull);
    assert matches == routed;
    NothingIsSet(matches, agents, start);
    ReleasedAtOnce(visits, failed, start);
  }

  lemma ReleasedAtOnce(visits: seq<Visit>, failed: seq<Failure>, start: int)
    requires failed == [Failure("a", start, Always)] && DueExactly(visits, failed, DueEachTime)
    ensures forall v :: v in visits && v.agent == "a" ==> v.ran
  {
    assert failed[0] in failed;
  }

  lemma OnlyAgentIsVisited()
    ensures ActiveAgents(OneHired().agents, OneHired().order) == ["a"] && Visited(["a"], {"a"}, []) == ["a"]
  {
    var agents := OneHired().agents;
    assert ["a"][..0] == [];
    assert ActiveAgents(agents, []) == [] && Visited([], {"a"}, []) == [];
  }

  lemma NothingIsSet(matches: seq<SignalMatch>, agents: map<string, Agent>, start: int)
    requires |matches| == 1 && matches[0].agent == "a" && "a" in agents && agents["a"] == Fresh(Hired, ["x"])
    ensures ReturnedAgents(matches, RejectsNull, 1) == []
    ensures FailedRuns(matches, RejectsNull, agents, start, 1) == [Failure("a", start, Always)]
  {
    assert ClockAfter(matches, RejectsNull, start, 0) == start;
    assert FailedRuns(matches, RejectsNull, agents, start, 0) == [];
  }

  // ----- a best match that is turned away -----

  /** One agent with nothing stored in its scope, whose role covers "x". */
  function RoleOnly(): Roster {
    Roster(map["a" := Idle([])], ["a"], map["a" := Scope(["x"], [], [])], 0)
  }

  /** It is the best match for a signal about "x", and the gate turns it away. */
  lemma BestMatchIsTurnedAway()
    ensures MatchFor(RoleOnly(), Needs("x")).best.Some? && !MatchFor(RoleOnly(), Needs("x")).manual
    ensures MatchFor(RoleOnly(), Needs("x")).best.value.agent == "a"
    ensures Route(RoleOnly(), ["a"], [About("x")]).matches == []
  {
    IdleIsEligible("a", Standby, Idle([]), Some(Scope(["x"], [], [])), ["x"], 0, "x");
    OnlyCandidateIsBest(RoleOnly(), "x", 0);
    var matches := Route(RoleOnly(), ["a"], [About("x")]).matches;
    if matches != [] {
      assert matches[0] in matches;
      EmptyStoredScopeIsNeverRouted(RoleOnly(), ["a"], [About("x")], matches[0]);
    }
  }
}
