/** One conductor cycle: signals are matched to agents, the matched agents run, then the agents whose
    schedule is due. Source: server/agents/conductor.ts. */
module Conductor {
  import opened Collections
  import opened AgentLifecycle
  import opened ActivationService
  import opened AgentMatcher

  /** An open signal; `areas` are the knowledge areas derived from it. */
  datatype Signal = Signal(id: string, areas: seq<string>, connectorType: Option<string>, severity: string)

  /** What the conductor asks the matcher: no action type, and so no dangerous one. */
  function InputOf(s: Signal): MatchInput {
    MatchInput(s.areas, None, false, s.connectorType, s.severity)
  }

  datatype SignalMatch = SignalMatch(agent: string, signal: Signal, matchedAreas: seq<string>)

  // ----- matching -----

  /** Routing so far: the matches, the agents they use, and how many more may be activated. */
  datatype Routing = Routing(matches: seq<SignalMatch>, seen: set<string>, budget: nat)

  predicate IsLive(a: Agent) {
    StateOf(a) in LIVE_STATES
  }

  /** Without an action type no assigned task can be in the way, only busy agents. */
  function GateContext(r: Roster, id: string, req: Requirements): Context
    requires id in r.agents
  {
    var a := r.agents[id];
    Context(SignalChannel, a.kbScope, Some(req.areas), InCooldown(a, r.now), StateOf(a) in BUSY_STATES,
            ScopeInFlight(r, req, id, false), false, IsLive(a))
  }

  /** Everything a signal has to pass before it wakes `id`. `active` lists the agents the cycle loaded. */
  predicate Routable(r: Roster, active: seq<string>, seen: set<string>, s: Signal, id: string) {
    var req := DeriveRequirements(InputOf(s));
    var m := MatchFor(r, req);
    && m.best.Some? && m.best.value.agent == id && !m.manual
    && id !in seen && id in active && id in r.agents && IsLive(r.agents[id])
    && EvaluateActivation(GateContext(r, id, req)).Allowed()
  }

  function RouteOne(r: Roster, active: seq<string>, before: Routing, s: Signal): Routing {
    var m := MatchFor(r, DeriveRequirements(InputOf(s)));
    if before.budget == 0 || m.best.None? || !Routable(r, active, before.seen, s, m.best.value.agent) then before
    else
      var id := m.best.value.agent;
      Routing(before.matches + [SignalMatch(id, s, IntersectAreas(r.agents[id].kbScope, s.areas))],
              before.seen + {id}, before.budget - 1)
  }

  function InitialBudget(r: Roster): nat {
    if MAX_ACTIVE_AGENTS > CountBusy(r, |r.order|) then MAX_ACTIVE_AGENTS - CountBusy(r, |r.order|) else 0
  }

  function Route(r: Roster, active: seq<string>, signals: seq<Signal>): Routing {
    if signals == [] then Routing([], {}, InitialBudget(r))
    else RouteOne(r, active, Route(r, active, signals[..|signals| - 1]), signals[|signals| - 1])
  }

  /** What it takes for a signal to wake the agent in place `k` of the roster. */
  ghost predicate Wakes(r: Roster, active: seq<string>, seen: set<string>, s: Signal, k: int) {
    var req := DeriveRequirements(InputOf(s));
    && FirstOfTheBest(r, |r.order|, req, k)
    && (var id := r.order[k];
        var a := r.agents[id];
        && (s.severity in {"critical", "security_risk"} ==> ScoreIn(r, id, req).points >= 25)
        && id in active && id !in seen
        && StateOf(a) in LIVE_STATES && StateOf(a) !in BUSY_STATES
        && (exists area :: area in a.kbScope && area in s.areas)
        && NobodyElseIsAtWork(r, id, s.areas))
  }

  /** No other live agent that is busy covers one of the areas, by its stored scope or its role's. */
  ghost predicate NobodyElseIsAtWork(r: Roster, id: string, areas: seq<string>) {
    forall j :: 0 <= j < |r.order| && r.order[j] != id && r.order[j] in r.agents ==>
      var b, d := r.agents[r.order[j]], if r.order[j] in r.roles then r.roles[r.order[j]].kbScope else [];
      OnRoster(b) && StateOf(b) in BUSY_STATES ==>
        forall area :: area in (if b.kbScope == [] then d else b.kbScope) ==> area !in areas
  }

  /** Signal by signal: one is routed exactly if there is budget left and some agent it wakes, and then to that
      agent. At the start nobody is used, and the budget is what four active agents leave. */
  lemma RoutedIff(r: Roster, active: seq<string>, signals: seq<Signal>, i: nat)
    requires i < |signals|
    ensures Route(r, active, signals[..0]).matches == [] && Route(r, active, signals[..0]).seen == {}
    ensures Route(r, active, signals[..0]).budget == if CountBusy(r, |r.order|) < 4 then 4 - CountBusy(r, |r.order|) else 0
    ensures
      var s, before, after := signals[i], Route(r, active, signals[..i]), Route(r, active, signals[..i + 1]);
      && ((before.budget == 0 || forall k :: !Wakes(r, active, before.seen, s, k)) ==> after == before)
      && (forall k :: before.budget > 0 && Wakes(r, active, before.seen, s, k) ==>
            && |after.matches| == |before.matches| + 1 && after.matches[..|before.matches|] == before.matches
            && after.matches[|before.matches|].agent == r.order[k] && after.matches[|before.matches|].signal == s
            && after.seen == before.seen + {r.order[k]} && after.budget == before.budget - 1)
  {
    assert signals[..i + 1][..i] == signals[..i];
    RouteOneIff(r, active, Route(r, active, signals[..i]), signals[i]);
  }

  lemma RouteOneIff(r: Roster, active: seq<string>, before: Routing, s: Signal)
    ensures (before.budget == 0 || forall k :: !Wakes(r, active, before.seen, s, k)) ==> RouteOne(r, active, before, s) == before
    ensures forall k :: before.budget > 0 && Wakes(r, active, before.seen, s, k) ==>
              var after := RouteOne(r, active, before, s);
              && |after.matches| == |before.matches| + 1 && after.matches[..|before.matches|] == before.matches
              && after.matches[|before.matches|].agent == r.order[k] && after.matches[|before.matches|].signal == s
              && after.seen == before.seen + {r.order[k]} && after.budget == before.budget - 1
  {
    var req := DeriveRequirements(InputOf(s));
    forall k | Wakes(r, active, before.seen, s, k) ensures Routable(r, active, before.seen, s, r.order[k]) {
      BestIsFirst(r, req, k);
      WakesOpensGate(r, active, before.seen, s, k);
    }
    BestIsEligibleMaximum(r, req);
    var m := MatchFor(r, req);
    if m.best.Some? && Routable(r, active, before.seen, s, m.best.value.agent) {
      RoutableWakes(r, active, before.seen, s, m.best.value.agent);
    }
  }

  lemma WakesOpensGate(r: Roster, active: seq<string>, seen: set<string>, s: Signal, k: int)
    requires Wakes(r, active, seen, s, k)
    ensures EvaluateActivation(GateContext(r, r.order[k], DeriveRequirements(InputOf(s)))).Allowed()
  {
    var id, req := r.order[k], DeriveRequirements(InputOf(s));
    var area :| area in r.agents[id].kbScope && area in s.areas;
    assert area in Elements(r.agents[id].kbScope) * Elements(req.areas);
    InFlightIff(r, req, id);
    GateOpensIff(GateContext(r, id, req));
  }

  lemma RoutableWakes(r: Roster, active: seq<string>, seen: set<string>, s: Signal, id: string)
    requires Routable(r, active, seen, s, id)
    ensures exists k :: Wakes(r, active, seen, s, k)
  {
    var req := DeriveRequirements(InputOf(s));
    BestIsEligibleMaximum(r, req);
    var k := SomebodyIsFirst(r, |r.order|, req);
    BestIsFirst(r, req, k);
    GateOpensIff(GateContext(r, id, req));
    var area :| area in Elements(r.agents[id].kbScope) * Elements(req.areas);
    InFlightIff(r, req, id);
    assert r.order[k] == id;
    assert Wakes(r, active, seen, s, k);
  }

  lemma InFlightIff(r: Roster, req: Requirements, id: string)
    ensures !ScopeInFlight(r, req, id, false) <==> NobodyElseIsAtWork(r, id, req.areas)
  {
    forall j | 0 <= j < |r.order| && r.order[j] in r.agents
      ensures IntersectAreas(EffectiveScope(r.agents[r.order[j]], RoleOf(r.roles, r.order[j])).kbScope, req.areas) == []
              <==> forall area :: area in EffectiveScope(r.agents[r.order[j]], RoleOf(r.roles, r.order[j])).kbScope ==> area !in req.areas
    {
      NothingShared(EffectiveScope(r.agents[r.order[j]], RoleOf(r.roles, r.order[j])).kbScope, req.areas);
    }
  }

  lemma NothingShared(a: seq<string>, b: seq<string>)
    ensures IntersectAreas(a, b) == [] <==> forall area :: area in a ==> area !in b
  {
    IntersectionIsExact(a, b);
    var both := IntersectAreas(a, b);
    if both != [] {
      assert both[0] in Elements(both);
    }
    forall area | area in a && area in b ensures both != [] {
      assert area in Elements(a) * Elements(b);
    }
  }

  /** Once the budget is used up no later signal is routed, so leaving the loop early loses nothing. */
  lemma {:induction false} ExhaustedStays(r: Roster, active: seq<string>, signals: seq<Signal>, n: nat)
    requires n <= |signals| && Route(r, active, signals[..n]).budget == 0
    ensures Route(r, active, signals) == Route(r, active, signals[..n])
    decreases |signals|
  {
    if n < |signals| {
      var k := |signals| - 1;
      assert signals[..k][..n] == signals[..n];
      ExhaustedStays(r, active, signals[..k], n);
      NoBudgetNoMatch(r, active, Route(r, active, signals[..k]), signals[k]);
    } else {
      assert signals[..n] == signals;
    }
  }

  lemma NoBudgetNoMatch(r: Roster, active: seq<string>, before: Routing, s: Signal)
    requires before.budget == 0
    ensures RouteOne(r, active, before, s) == before
  {
  }

  method MatchSignalsToAgents(r: Roster, active: seq<string>, signals: seq<Signal>) returns (matches: seq<SignalMatch>)
    ensures matches == Route(r, active, signals).matches
  {
    matches := [];
    var seen: set<string> := {};
    var budget := InitialBudget(r);
    for i := 0 to |signals|
      invariant Routing(matches, seen, budget) == Route(r, active, signals[..i])
    {
      assert signals[..i + 1][..i] == signals[..i];
      if budget == 0 {
        ExhaustedStays(r, active, signals, i);
        return;
      }
      var req := DeriveRequirements(InputOf(signals[i]));
      var m := MatchAgent(r, InputOf(signals[i]));
      if m.best.None? || m.manual || m.best.value.agent in seen || m.best.value.agent !in active
         || m.best.value.agent !in r.agents || !IsLive(r.agents[m.best.value.agent]) {
        assert RouteOne(r, active, Routing(matches, seen, budget), signals[i]) == Routing(matches, seen, budget);
        continue;
      }
      var id := m.best.value.agent;
      var decision := EvaluateActivation(GateContext(r, id, req));
      if !decision.Allowed() {
        assert !Routable(r, active, seen, signals[i], id);
        continue;
      }
      seen := seen + {id};
      budget := budget - 1;
      matches := matches + [SignalMatch(id, signals[i], decision.matchedAreas)];
    }
    assert signals[..|signals|] == signals;
  }

  function Agents(matches: seq<SignalMatch>): seq<string> {
    seq(|matches|, i requires 0 <= i < |matches| => matches[i].agent)
  }

  /** What is promised of one match. */
  ghost predicate GoodMatch(r: Roster, active: seq<string>, m: SignalMatch) {
    var req := DeriveRequirements(InputOf(m.signal));
    && m.agent in active && m.agent in r.agents
    && (var a := r.agents[m.agent];
        && IsLive(a) && StateOf(a) !in BUSY_STATES && !InCooldown(a, r.now) && m.agent != "conductor"
        && m.matchedAreas != [] && Elements(m.matchedAreas) == Elements(a.kbScope) * Elements(req.areas))
    && EligibleIn(r, m.agent, req)
    && (forall k :: 0 <= k < |r.order| && EligibleIn(r, r.order[k], req) ==>
          ScoreIn(r, r.order[k], req).points <= ScoreIn(r, m.agent, req).points)
    && (req.risk == High ==> ScoreIn(r, m.agent, req).points >= 25)
    && !ScopeInFlight(r, req, m.agent, false)
  }

  lemma RoutableIsGood(r: Roster, active: seq<string>, seen: set<string>, s: Signal, id: string)
    requires Routable(r, active, seen, s, id)
    ensures GoodMatch(r, active, SignalMatch(id, s, IntersectAreas(r.agents[id].kbScope, s.areas)))
  {
    var req := DeriveRequirements(InputOf(s));
    BestIsEligibleMaximum(r, req);
    IntersectionIsExact(r.agents[id].kbScope, req.areas);
  }

  /** Distinct agents, the ones seen, as many as the budget is short of, and each match a good one. */
  ghost predicate GoodRouting(r: Roster, active: seq<string>, routing: Routing) {
    && NoDuplicates(Agents(routing.matches))
    && Elements(Agents(routing.matches)) == routing.seen
    && |routing.matches| + routing.budget == InitialBudget(r)
    && forall m :: m in routing.matches ==> GoodMatch(r, active, m)
  }

  lemma OneMoreMatch(r: Roster, active: seq<string>, before: Routing, m: SignalMatch)
    requires GoodRouting(r, active, before) && GoodMatch(r, active, m) && m.agent !in before.seen && before.budget > 0
    ensures GoodRouting(r, active, Routing(before.matches + [m], before.seen + {m.agent}, before.budget - 1))
  {
    assert Agents(before.matches + [m]) == Agents(before.matches) + [m.agent];
    assert forall a :: a in Agents(before.matches) ==> a in Elements(Agents(before.matches));
    MembersOfOneMore(before.matches, m);
  }

  lemma RouteOneIsGood(r: Roster, active: seq<string>, before: Routing, s: Signal)
    requires GoodRouting(r, active, before)
    ensures GoodRouting(r, active, RouteOne(r, active, before, s))
  {
    var m := MatchFor(r, DeriveRequirements(InputOf(s)));
    if before.budget > 0 && m.best.Some? && Routable(r, active, before.seen, s, m.best.value.agent) {
      var id := m.best.value.agent;
      RoutableIsGood(r, active, before.seen, s, id);
      OneMoreMatch(r, active, before, SignalMatch(id, s, IntersectAreas(r.agents[id].kbScope, s.areas)));
    }
  }

  /** Pairwise distinct agents, within the cap on active agents, each the right one for its signal. */
  lemma {:induction false} MatchesAreGood(r: Roster, active: seq<string>, signals: seq<Signal>)
    ensures GoodRouting(r, active, Route(r, active, signals))
    ensures var busy := |set k | 0 <= k < |r.order| && r.order[k] in r.agents && r.agents[r.order[k]].state.Some?
                                 && r.agents[r.order[k]].state.value in BUSY_STATES|;
            |Route(r, active, signals).matches| <= if busy < 4 then 4 - busy else 0
  {
    BusyAreCounted(r, |r.order|);
    if signals != [] {
      MatchesAreGood(r, active, signals[..|signals| - 1]);
      RouteOneIsGood(r, active, Route(r, active, signals[..|signals| - 1]), signals[|signals| - 1]);
    }
  }

  /** The gate looks at the stored scope only, the matcher also at the role's default: an agent whose
      stored scope is empty can be the best match and is then always turned away. */
  lemma EmptyStoredScopeIsNeverRouted(r: Roster, active: seq<string>, signals: seq<Signal>, m: SignalMatch)
    requires m in Route(r, active, signals).matches
    ensures m.agent in r.agents && r.agents[m.agent].kbScope != []
  {
    MatchesAreGood(r, active, signals);
    assert m.matchedAreas[0] in Elements(m.matchedAreas);
  }

  // ----- the cycle -----

  /** From when on a row lets its agent be run: a busy row never does. */
  datatype Release = Never | Always | From(at: int)

  function ReleaseOf(a: Agent): Release {
    if StateOf(a) in BUSY_STATES then Never
    else
      match a.cooldownUntil
      case None => Always
      case Some(until) => From(until)
  }

  predicate IsReleased(r: Release, now: int) {
    match r
    case Never => false
    case Always => true
    case From(at) => now >= at
  }

  /** What a run that ends in an exception at time `end` leaves of a row. A readable exception sets a cooldown;
      a bracket that is cut short leaves an agent it took through a run busy, and any other as it was. */
  function ReleaseAfter(a: Agent, o: Outcome, end: int): Release {
    if o.Threw? then From(end + CooldownMs(a.failures.GetOr(0) + 1))
    else if Runs(StateOf(a)) then Never
    else ReleaseOf(a)
  }

  /** A run of the signal phase that ended in an exception: when, and how it left the row. */
  datatype Failure = Failure(agent: string, at: int, release: Release)

  /** A look at an agent in the scheduled phase: when, and whether it was run. */
  datatype Visit = Visit(agent: string, at: int, ran: bool)

  /** What the cycle cannot control: what the `n`-th runner call does and how long it takes. */
  type Runner = (nat, string) -> (Outcome, nat)

  function ActiveAgents(agents: map<string, Agent>, order: seq<string>): (active: seq<string>)
    ensures forall id :: id in active <==> id in order && id in agents && agents[id].status == Some("active")
  {
    if order == [] then []
    else
      var n := |order| - 1;
      assert order == order[..n] + [order[n]];
      ActiveAgents(agents, order[..n])
      + (if order[n] in agents && agents[order[n]].status == Some("active") then [order[n]] else [])
  }

  lemma {:induction false} ActiveAgentsAreDistinct(agents: map<string, Agent>, order: seq<string>)
    requires NoDuplicates(order)
    ensures NoDuplicates(ActiveAgents(agents, order))
  {
    if order != [] {
      ActiveAgentsAreDistinct(agents, order[..|order| - 1]);
    }
  }

  /** The row still shows how the failure left it. */
  predicate Remembers(agents: map<string, Agent>, f: Failure) {
    f.agent in agents && ReleaseOf(agents[f.agent]) == f.release
  }

  lemma RejectionLeaves(a: Agent, input: Input, o: Outcome, end: int)
    requires Rejects(o)
    ensures ReleaseOf(FinalRow(a, input, o, end)) == ReleaseAfter(a, o, end)
  {
  }

  /** `Math.min(1, 0.5 + matchedAreas.length * 0.15)` */
  function Confidence(areas: nat): real {
    if 0.5 + areas as real * 0.15 < 1.0 then 0.5 + areas as real * 0.15 else 1.0
  }

  function InputFor(m: SignalMatch): Input {
    Input(m.agent, Some(m.signal.id), "matched", Some(Confidence(|m.matchedAreas|)), 1, "Run failed")
  }

  /** A matched agent is woken for its signal, with the signal as evidence, and more surely the more areas match:
      0.65 for one, 0.15 more for each of the next two, and certainty from four on. */
  lemma InputForIs(m: SignalMatch)
    ensures var input, n := InputFor(m), |m.matchedAreas|;
      && input.agent == m.agent && input.triggerRef == Some(m.signal.id) && input.evidence > 0
      && (n == 1 ==> input.confidence == Some(0.65))
      && (1 <= n <= 3 ==> input.confidence == Some(0.65 + (n - 1) as real * 0.15))
      && (n >= 4 ==> input.confidence == Some(1.0))
  {
  }

  function ScheduledInput(id: string): Input {
    Input(id, Some("job"), "due", None, 1, "Run failed")
  }

  function FailedAgents(failed: seq<Failure>): set<string> {
    set f | f in failed :: f.agent
  }

  ghost predicate AllRemembered(agents: map<string, Agent>, failed: seq<Failure>, since: int) {
    forall f :: f in failed ==> f.at >= since && Remembers(agents, f)
  }

  /** Running another agent does not touch the rows of those that failed. */
  lemma OthersKeep(agents: map<string, Agent>, failed: seq<Failure>, since: int, id: string, row: Agent)
    requires AllRemembered(agents, failed, since) && id !in FailedAgents(failed)
    ensures AllRemembered(agents[id := row], failed, since)
  {
    forall f | f in failed ensures Remembers(agents[id := row], f) {
      assert f.agent in FailedAgents(failed);
    }
  }

  lemma OneMoreFailure(agents: map<string, Agent>, failed: seq<Failure>, since: int, f: Failure)
    requires AllRemembered(agents, failed, since) && f.at >= since && Remembers(agents, f)
    ensures AllRemembered(agents, failed + [f], since)
    ensures FailedAgents(failed + [f]) == FailedAgents(failed) + {f.agent}
  {
    assert forall x :: x in failed + [f] <==> x in failed || x == f;
  }

  /** The matched agents whose runs returned, in order, and those whose runs threw. */
  function ReturnedAgents(matches: seq<SignalMatch>, runner: Runner, n: nat): seq<string>
    requires n <= |matches|
  {
    if n == 0 then []
    else
      var id := matches[n - 1].agent;
      ReturnedAgents(matches, runner, n - 1) + (if Rejects(runner(n - 1, id).0) then [] else [id])
  }

  function ThrewAgents(matches: seq<SignalMatch>, runner: Runner, n: nat): set<string>
    requires n <= |matches|
  {
    if n == 0 then {}
    else
      var id := matches[n - 1].agent;
      ThrewAgents(matches, runner, n - 1) + (if Rejects(runner(n - 1, id).0) then {id} else {})
  }

  /** How long one run takes. */
  function TimeOf(call: (Outcome, nat)): nat {
    Elapsed(call.0, call.1)
  }

  /** When the first `n` matched runs are over. */
  function ClockAfter(matches: seq<SignalMatch>, runner: Runner, start: int, n: nat): int
    requires n <= |matches|
  {
    if n == 0 then start else ClockAfter(matches, runner, start, n - 1) + TimeOf(runner(n - 1, matches[n - 1].agent))
  }

  /** The failures the cycle remembers: who, when, and how the run left the row. */
  function FailedRuns(matches: seq<SignalMatch>, runner: Runner, agents: map<string, Agent>, start: int, n: nat): seq<Failure>
    requires n <= |matches|
  {
    if n == 0 then []
    else
      var id := matches[n - 1].agent;
      FailedRuns(matches, runner, agents, start, n - 1)
      + (if Rejects(runner(n - 1, id).0) && id in agents then
           [Failure(id, ClockAfter(matches, runner, start, n), ReleaseAfter(agents[id], runner(n - 1, id).0, ClockAfter(matches, runner, start, n)))]
         else [])
  }

  /** Who returned, who failed, and when, in terms of what the runner did: the runs follow one another, and one
      whose activation is not recorded takes no time. */
  lemma {:induction false} RunsAre(matches: seq<SignalMatch>, runner: Runner, agents: map<string, Agent>, start: int, n: nat)
    requires n <= |matches|
    ensures ClockAfter(matches, runner, start, 0) == start
    ensures n < |matches| ==>
              ClockAfter(matches, runner, start, n + 1) == ClockAfter(matches, runner, start, n)
                + (var call := runner(n, matches[n].agent); if call.0.NotRecorded? then 0 else call.1)
    ensures forall id :: id in ReturnedAgents(matches, runner, n) <==>
              exists k :: 0 <= k < n && matches[k].agent == id && (runner(k, id).0.Returned? || runner(k, id).0.Unusable?)
    ensures forall f :: f in FailedRuns(matches, runner, agents, start, n) <==> exists k :: FailedAs(matches, runner, agents, start, n, k, f)
  {
    if n > 0 {
      RunsAre(matches, runner, agents, start, n - 1);
      var m := n - 1;
      var before := FailedRuns(matches, runner, agents, start, m);
      assert before + [] == before;
      forall f ensures f in FailedRuns(matches, runner, agents, start, n) <==> exists k :: FailedAs(matches, runner, agents, start, n, k, f) {
        FailedLast(matches, runner, agents, start, n, f);
        if exists k :: FailedAs(matches, runner, agents, start, n, k, f) {
          var k :| FailedAs(matches, runner, agents, start, n, k, f);
          assert k != m ==> FailedAs(matches, runner, agents, start, m, k, f);
        }
        if exists k :: FailedAs(matches, runner, agents, start, m, k, f) {
          var k :| FailedAs(matches, runner, agents, start, m, k, f);
          assert FailedAs(matches, runner, agents, start, n, k, f);
        }
      }
    }
  }

  /** Run number `k` ended in the exception `f`. A readable one sets a cooldown; one that is not leaves an
      agent that was in standby or busy as busy, and any other free from when it was. */
  ghost predicate FailedAs(matches: seq<SignalMatch>, runner: Runner, agents: map<string, Agent>, start: int, n: nat, k: int, f: Failure)
    requires n <= |matches|
  {
    && 0 <= k < n && f.agent == matches[k].agent && f.agent in agents && f.at == ClockAfter(matches, runner, start, k + 1)
    && (var a, o := agents[f.agent], runner(k, f.agent).0;
        || (o.Threw? && f.release == From(f.at + CooldownMs(if a.failures.Some? then a.failures.value + 1 else 1)))
        || ((o.NotRecorded? || o.ThrewUnreadably?)
            && f.release == if StateOf(a) == Standby || StateOf(a) in BUSY_STATES then Never
                            else if a.cooldownUntil.Some? then From(a.cooldownUntil.value) else Always))
  }

  lemma FailedLast(matches: seq<SignalMatch>, runner: Runner, agents: map<string, Agent>, start: int, n: nat, f: Failure)
    requires 0 < n <= |matches|
    ensures FailedAs(matches, runner, agents, start, n, n - 1, f) <==>
              var id, end := matches[n - 1].agent, ClockAfter(matches, runner, start, n);
              && Rejects(runner(n - 1, id).0) && id in agents
              && f == Failure(id, end, ReleaseAfter(agents[id], runner(n - 1, id).0, end))
  {
  }

  /** Every matched agent is run once, and either returns or throws. */
  lemma {:induction false} RunsPartition(matches: seq<SignalMatch>, runner: Runner, n: nat)
    requires n <= |matches| && NoDuplicates(Agents(matches))
    ensures Elements(ReturnedAgents(matches, runner, n)) + ThrewAgents(matches, runner, n) == Elements(Agents(matches)[..n])
    ensures Elements(ReturnedAgents(matches, runner, n)) !! ThrewAgents(matches, runner, n)
  {
    if n > 0 {
      RunsPartition(matches, runner, n - 1);
      NextElement(Agents(matches), n - 1);
      var before, id := ReturnedAgents(matches, runner, n - 1), matches[n - 1].agent;
      assert Elements(before + [id]) == Elements(before) + {id};
      assert before + [] == before;
    }
  }

  lemma {:induction false} FailuresAreThrows(matches: seq<SignalMatch>, runner: Runner, agents: map<string, Agent>, start: int, n: nat)
    requires n <= |matches| && forall id :: id in Agents(matches) ==> id in agents
    ensures FailedAgents(FailedRuns(matches, runner, agents, start, n)) == ThrewAgents(matches, runner, n)
  {
    if n > 0 {
      FailuresAreThrows(matches, runner, agents, start, n - 1);
      assert Agents(matches)[n - 1] in Agents(matches);
      var before := FailedRuns(matches, runner, agents, start, n - 1);
      var id, end := matches[n - 1].agent, ClockAfter(matches, runner, start, n);
      var f := Failure(id, end, ReleaseAfter(agents[id], runner(n - 1, id).0, end));
      MembersOfOneMore(before, f);
      assert before + [] == before;
    }
  }

  lemma {:induction false} ClockRuns(matches: seq<SignalMatch>, runner: Runner, start: int, n: nat)
    requires n <= |matches|
    ensures ClockAfter(matches, runner, start, n) >= start
  {
    if n > 0 {
      ClockRuns(matches, runner, start, n - 1);
    }
  }

  /** The signal phase after `n` of its runs, started at `since` on the rows `start`. */
  ghost predicate PhaseAt(n: nat, matches: seq<SignalMatch>, runner: Runner, start: map<string, Agent>, since: int,
                          rows: map<string, Agent>, now: int, ran: seq<string>, failed: seq<Failure>)
    requires n <= |matches|
  {
    && rows.Keys == start.Keys
    && now == ClockAfter(matches, runner, since, n)
    && ran == ReturnedAgents(matches, runner, n)
    && failed == FailedRuns(matches, runner, start, since, n)
    && AllRemembered(rows, failed, since)
    && forall id :: id in start && id !in Elements(Agents(matches)[..n]) ==> rows[id] == start[id]
  }

  /** The rows of the agents run so far are what their runs made of them. */
  ghost predicate RowsAre(n: nat, matches: seq<SignalMatch>, runner: Runner, start: map<string, Agent>, since: int,
                          rows: map<string, Agent>)
    requires n <= |matches|
  {
    forall k :: 0 <= k < n && matches[k].agent in start ==>
      && matches[k].agent in rows
      && rows[matches[k].agent] == FinalRow(start[matches[k].agent], InputFor(matches[k]), runner(k, matches[k].agent).0,
                                            ClockAfter(matches, runner, since, k + 1))
  }

  lemma RowsStep(i: nat, matches: seq<SignalMatch>, runner: Runner, start: map<string, Agent>, since: int,
                 rows: map<string, Agent>, end: int, row: Agent)
    requires i < |matches| && NoDuplicates(Agents(matches)) && RowsAre(i, matches, runner, start, since, rows)
    requires matches[i].agent in start && end == ClockAfter(matches, runner, since, i + 1)
    requires row == FinalRow(start[matches[i].agent], InputFor(matches[i]), runner(i, matches[i].agent).0, end)
    ensures RowsAre(i + 1, matches, runner, start, since, rows[matches[i].agent := row])
  {
    forall k | 0 <= k < i ensures matches[k].agent != matches[i].agent {
      assert Agents(matches)[k] != Agents(matches)[i];
    }
  }

  /** Step 6: run the matched agents one after the other. */
  method RunSignalPhase(st: AgentStore, matches: seq<SignalMatch>, runner: Runner)
    returns (ran: seq<string>, failed: seq<Failure>)
    requires st.Valid() && NoDuplicates(Agents(matches))
    requires forall id :: id in Agents(matches) ==> id in st.agents
    modifies st
    ensures st.Valid() && st.order == old(st.order) && st.now >= old(st.now)
    ensures ran == ReturnedAgents(matches, runner, |matches|)
    ensures failed == FailedRuns(matches, runner, old(st.agents), old(st.now), |matches|)
    ensures st.now == ClockAfter(matches, runner, old(st.now), |matches|)
    ensures FailedAgents(failed) == ThrewAgents(matches, runner, |matches|)
    ensures AllRemembered(st.agents, failed, old(st.now))
    ensures st.agents.Keys == old(st.agents).Keys
    ensures forall id :: id in old(st.agents) && id !in Agents(matches) ==> st.agents[id] == old(st.agents)[id]
    ensures RowsAre(|matches|, matches, runner, old(st.agents), old(st.now), st.agents)
  {
    ghost var start, since := st.agents, st.now;
    ran, failed := [], [];
    for i := 0 to |matches|
      invariant st.Valid() && st.order == old(st.order)
      invariant PhaseAt(i, matches, runner, start, since, st.agents, st.now, ran, failed)
      invariant RowsAre(i, matches, runner, start, since, st.agents)
    {
      ran, failed := RunMatched(st, matches, i, runner, ran, failed, start, since);
    }
    FailuresAreThrows(matches, runner, start, since, |matches|);
    ClockRuns(matches, runner, since, |matches|);
    assert Agents(matches)[..|matches|] == Agents(matches);
  }

  method RunMatched(st: AgentStore, matches: seq<SignalMatch>, i: nat, runner: Runner, ran0: seq<string>, failed0: seq<Failure>,
                    ghost start: map<string, Agent>, ghost since: int)
    returns (ran: seq<string>, failed: seq<Failure>)
    requires st.Valid() && i < |matches| && NoDuplicates(Agents(matches))
    requires forall id :: id in Agents(matches) ==> id in start
    requires PhaseAt(i, matches, runner, start, since, st.agents, st.now, ran0, failed0)
    requires RowsAre(i, matches, runner, start, since, st.agents)
    modifies st
    ensures st.Valid() && st.order == old(st.order)
    ensures PhaseAt(i + 1, matches, runner, start, since, st.agents, st.now, ran, failed)
    ensures RowsAre(i + 1, matches, runner, start, since, st.agents)
  {
    ran, failed := ran0, failed0;
    var input := InputFor(matches[i]);
    ReadyToRun(i, matches, runner, start, since, st.agents, st.now, ran, failed);
    ghost var rows := st.agents;
    var threw, failure := RunOne(st, input, failed, i, runner, since);
    if threw {
      failed := failed + [failure];
    } else {
      ran := ran + [input.agent];
    }
    NextRun(matches, runner, start, since, i);
    RowsStep(i, matches, runner, start, since, rows, st.now, st.agents[input.agent]);
    PhaseStep(i, matches, runner, start, since, rows, st.agents);
  }

  lemma ReadyToRun(i: nat, matches: seq<SignalMatch>, runner: Runner, start: map<string, Agent>, since: int,
                   rows: map<string, Agent>, now: int, ran: seq<string>, failed: seq<Failure>)
    requires i < |matches| && NoDuplicates(Agents(matches)) && forall id :: id in Agents(matches) ==> id in start
    requires PhaseAt(i, matches, runner, start, since, rows, now, ran, failed)
    ensures var id := matches[i].agent;
            id in rows && rows[id] == start[id] && id !in FailedAgents(failed) && now >= since
  {
    assert Agents(matches)[i] == matches[i].agent;
    RunsPartition(matches, runner, i);
    FailuresAreThrows(matches, runner, start, since, i);
    ClockRuns(matches, runner, since, i);
    NextElement(Agents(matches), i);
  }

  /** Running one agent leaves the rows of all that have not run. */
  lemma PhaseStep(i: nat, matches: seq<SignalMatch>, runner: Runner, start: map<string, Agent>, since: int,
                  rows: map<string, Agent>, after: map<string, Agent>)
    requires i < |matches| && NoDuplicates(Agents(matches)) && rows.Keys == start.Keys == after.Keys
    requires forall id :: id in start && id !in Elements(Agents(matches)[..i]) ==> rows[id] == start[id]
    requires forall id :: id in rows && id != matches[i].agent ==> after[id] == rows[id]
    ensures forall id :: id in start && id !in Elements(Agents(matches)[..i + 1]) ==> after[id] == start[id]
  {
    NextElement(Agents(matches), i);
  }

  lemma NextRun(matches: seq<SignalMatch>, runner: Runner, agents: map<string, Agent>, start: int, i: nat)
    requires i < |matches| && matches[i].agent in agents
    ensures var id, end := matches[i].agent, ClockAfter(matches, runner, start, i) + TimeOf(runner(i, matches[i].agent));
            && ClockAfter(matches, runner, start, i + 1) == end
            && (Rejects(runner(i, id).0) ==>
                  && ReturnedAgents(matches, runner, i + 1) == ReturnedAgents(matches, runner, i)
                  && FailedRuns(matches, runner, agents, start, i + 1)
                     == FailedRuns(matches, runner, agents, start, i) + [Failure(id, end, ReleaseAfter(agents[id], runner(i, id).0, end))])
            && (!Rejects(runner(i, id).0) ==>
                  && ReturnedAgents(matches, runner, i + 1) == ReturnedAgents(matches, runner, i) + [id]
                  && FailedRuns(matches, runner, agents, start, i + 1) == FailedRuns(matches, runner, agents, start, i))
  {
  }

  lemma NextElement(s: seq<string>, i: nat)
    requires NoDuplicates(s) && i < |s|
    ensures Elements(s[..i + 1]) == Elements(s[..i]) + {s[i]} && s[i] !in Elements(s[..i])
  {
    assert s[..i + 1] == s[..i] + [s[i]];
  }

  /** One awaited run, with what the cycle remembers if it throws. */
  method RunOne(st: AgentStore, input: Input, ghost failed: seq<Failure>, n: nat, runner: Runner, ghost since: int)
    returns (threw: bool, failure: Failure)
    requires st.Valid() && input.agent in st.agents && input.agent !in FailedAgents(failed)
    requires AllRemembered(st.agents, failed, since) && st.now >= since
    modifies st
    ensures st.Valid() && st.order == old(st.order) && st.now >= old(st.now)
    ensures st.agents == old(st.agents)[input.agent := FinalRow(old(st.agents)[input.agent], input, runner(n, input.agent).0, st.now)]
    ensures threw <==> Rejects(runner(n, input.agent).0)
    ensures st.now == old(st.now) + TimeOf(runner(n, input.agent))
    ensures failure == Failure(input.agent, st.now, ReleaseAfter(old(st.agents)[input.agent], runner(n, input.agent).0, st.now))
    ensures AllRemembered(st.agents, if threw then failed + [failure] else failed, since)
    ensures FailedAgents(failed + [failure]) == FailedAgents(failed) + {input.agent}
  {
    var row := st.agents[input.agent];
    var (outcome, elapsed) := runner(n, input.agent);
    threw := RunWithActivation(st, input, outcome, elapsed);
    failure := Failure(input.agent, st.now, ReleaseAfter(row, outcome, st.now));
    OthersKeep(old(st.agents), failed, since, input.agent, FinalRow(row, input, outcome, st.now));
    if threw {
      RejectionLeaves(row, input, outcome, st.now);
      OneMoreFailure(st.agents, failed, since, failure);
    } else {
      assert forall x :: x in failed + [failure] <==> x in failed || x == failure;
    }
  }

  /** Neither cooling down nor busy. */
  predicate Free(agents: map<string, Agent>, id: string, now: int) {
    id in agents && !InCooldown(agents[id], now) && StateOf(agents[id]) !in BUSY_STATES
  }

  /** The schedule after its look at the first `i` agents, on the rows `start` from time `since` on. */
  ghost predicate ScheduleAt(i: nat, active: seq<string>, profiles: set<string>, due: string -> bool, signalRan: seq<string>,
                             start: map<string, Agent>, since: int, rows: map<string, Agent>, now: int, visits: seq<Visit>)
    requires i <= |active|
  {
    && now >= since && rows.Keys == start.Keys
    && VisitedAgents(visits) == Visited(active[..i], profiles, signalRan)
    && (forall v :: v in visits ==> since <= v.at <= now)
    && (forall v :: v in visits ==> (v.ran <==> due(v.agent) && Free(start, v.agent, v.at)))
    && forall id :: id in start && id !in active[..i] ==> rows[id] == start[id]
  }

  /** Step 7: run what is due, skipping agents that ran, cool down or are busy. Every remaining agent is
      looked at once, with the row the signal phase left. */
  method RunScheduledPhase(st: AgentStore, active: seq<string>, profiles: set<string>, due: string -> bool,
                           signalRan: seq<string>, runner: Runner, calls: nat)
    returns (visits: seq<Visit>)
    requires st.Valid() && NoDuplicates(active)
    modifies st
    ensures st.Valid() && st.order == old(st.order) && st.now >= old(st.now)
    ensures VisitedAgents(visits) == Visited(active, profiles, signalRan)
    ensures forall v :: v in visits ==> old(st.now) <= v.at <= st.now
    ensures forall v :: v in visits ==> (v.ran <==> due(v.agent) && Free(old(st.agents), v.agent, v.at))
  {
    ghost var start, since := st.agents, st.now;
    visits := [];
    var n := calls;
    for i := 0 to |active|
      invariant st.Valid() && st.order == old(st.order)
      invariant ScheduleAt(i, active, profiles, due, signalRan, start, since, st.agents, st.now, visits)
    {
      visits, n := VisitOne(st, active, i, profiles, due, signalRan, runner, n, visits, start, since);
    }
    assert active[..|active|] == active;
  }

  method VisitOne(st: AgentStore, active: seq<string>, i: nat, profiles: set<string>, due: string -> bool,
                  signalRan: seq<string>, runner: Runner, calls: nat, visits0: seq<Visit>,
                  ghost start: map<string, Agent>, ghost since: int)
    returns (visits: seq<Visit>, n: nat)
    requires st.Valid() && NoDuplicates(active) && i < |active|
    requires ScheduleAt(i, active, profiles, due, signalRan, start, since, st.agents, st.now, visits0)
    modifies st
    ensures st.Valid() && st.order == old(st.order)
    ensures ScheduleAt(i + 1, active, profiles, due, signalRan, start, since, st.agents, st.now, visits)
  {
    visits, n := visits0, calls;
    var id := active[i];
    ghost var rows, now := st.agents, st.now;
    if id !in profiles || id in signalRan {
      NextVisit(active, i, profiles, signalRan);
      return;
    }
    var visit := Visit(id, st.now, due(id) && Free(st.agents, id, st.now));
    NotVisitedYet(active, i);
    SameRowSameFreedom(st.agents, start, id, st.now);
    if visit.ran {
      var _, _ := RunOne(st, ScheduledInput(id), [], n, runner, st.now);
      n := n + 1;
    }
    visits := visits + [visit];
    ScheduleStep(i, active, profiles, due, signalRan, start, since, rows, now, visits0, visit, st.agents, st.now);
  }

  lemma NotVisitedYet(active: seq<string>, i: nat)
    requires NoDuplicates(active) && i < |active|
    ensures active[i] !in active[..i]
  {
  }

  lemma SameRowSameFreedom(rows: map<string, Agent>, start: map<string, Agent>, id: string, at: int)
    requires rows.Keys == start.Keys && (id in start ==> rows[id] == start[id])
    ensures Free(rows, id, at) == Free(start, id, at)
  {
  }

  lemma ScheduleStep(i: nat, active: seq<string>, profiles: set<string>, due: string -> bool, signalRan: seq<string>,
                     start: map<string, Agent>, since: int, rows: map<string, Agent>, now: int, visits: seq<Visit>,
                     visit: Visit, after: map<string, Agent>, end: int)
    requires NoDuplicates(active) && i < |active| && active[i] in profiles && active[i] !in signalRan
    requires ScheduleAt(i, active, profiles, due, signalRan, start, since, rows, now, visits)
    requires visit == Visit(active[i], now, due(active[i]) && Free(start, active[i], now))
    requires end >= now && after.Keys == rows.Keys && forall id :: id in rows && id != active[i] ==> after[id] == rows[id]
    ensures ScheduleAt(i + 1, active, profiles, due, signalRan, start, since, after, end, visits + [visit])
  {
    NextVisit(active, i, profiles, signalRan);
    OneMoreVisit(visits, visit);
    MembersOfOneMore(visits, visit);
  }

  lemma NextVisit(active: seq<string>, i: nat, profiles: set<string>, signalRan: seq<string>)
    requires NoDuplicates(active) && i < |active|
    ensures active[i] !in active[..i] && forall id :: id in active[..i + 1] <==> id in active[..i] || id == active[i]
    ensures Visited(active[..i + 1], profiles, signalRan)
         == if active[i] in profiles && active[i] !in signalRan then Visited(active[..i], profiles, signalRan) + [active[i]]
            else Visited(active[..i], profiles, signalRan)
  {
    PrefixOfOneMore(active, i);
    MembersOfOneMore(active[..i], active[i]);
    assert active[..i + 1][..i] == active[..i];
    var before := Visited(active[..i], profiles, signalRan);
    assert before + [] == before;
  }

  function VisitedAgents(visits: seq<Visit>): seq<string> {
    if visits == [] then [] else VisitedAgents(visits[..|visits| - 1]) + [visits[|visits| - 1].agent]
  }

  lemma OneMoreVisit(visits: seq<Visit>, v: Visit)
    ensures VisitedAgents(visits + [v]) == VisitedAgents(visits) + [v.agent]
  {
    assert (visits + [v])[..|visits|] == visits;
  }

  /** The agents the scheduled phase looks at: those with a profile that did not run for a signal. */
  function Visited(active: seq<string>, profiles: set<string>, signalRan: seq<string>): seq<string> {
    if active == [] then []
    else
      var n := |active| - 1;
      Visited(active[..n], profiles, signalRan)
      + (if active[n] in profiles && active[n] !in signalRan then [active[n]] else [])
  }

  lemma {:induction false} VisitedAreDistinct(active: seq<string>, profiles: set<string>, signalRan: seq<string>)
    requires NoDuplicates(active)
    ensures NoDuplicates(Visited(active, profiles, signalRan))
    ensures forall id :: id in Visited(active, profiles, signalRan) <==> id in active && id in profiles && id !in signalRan
  {
    if active != [] {
      var n := |active| - 1;
      VisitedAreDistinct(active[..n], profiles, signalRan);
      assert active == active[..n] + [active[n]];
    }
  }

  /** The agents the scheduled phase ran, in order. */
  function RanAgents(visits: seq<Visit>): seq<string> {
    if visits == [] then []
    else
      var n := |visits| - 1;
      RanAgents(visits[..n]) + (if visits[n].ran then [visits[n].agent] else [])
  }

  lemma {:induction false} RanWereVisited(visits: seq<Visit>)
    requires NoDuplicates(VisitedAgents(visits))
    ensures NoDuplicates(RanAgents(visits))
    ensures forall id :: id in RanAgents(visits) ==> id in VisitedAgents(visits)
    ensures forall id :: id in RanAgents(visits) <==> exists v :: v in visits && v.agent == id && v.ran
  {
    if visits != [] {
      var n := |visits| - 1;
      var last := [visits[n].agent];
      DistinctParts(VisitedAgents(visits[..n]), last);
      RanWereVisited(visits[..n]);
      assert visits == visits[..n] + [visits[n]];
      assert visits[n].agent in Elements(last);
      DistinctParts(RanAgents(visits[..n]), last);
    }
  }

  /** An agent whose signal run ended in an exception is due and released when the schedule looks at it. */
  ghost predicate SecondRun(visits: seq<Visit>, failed: seq<Failure>, due: string -> bool) {
    exists v, f :: v in visits && f in failed && v.agent == f.agent
                && due(v.agent) && IsReleased(f.release, v.at)
  }

  ghost predicate DueExactly(visits: seq<Visit>, failed: seq<Failure>, due: string -> bool) {
    forall v, f :: v in visits && f in failed && v.agent == f.agent ==>
      (v.ran <==> due(v.agent) && IsReleased(f.release, v.at))
  }

  /** Such an agent is run again exactly if it is due and released. */
  lemma FreeMeansReleased(between: map<string, Agent>, failed: seq<Failure>, visits: seq<Visit>, due: string -> bool, since: int)
    requires AllRemembered(between, failed, since)
    requires forall v :: v in visits ==> (v.ran <==> due(v.agent) && Free(between, v.agent, v.at))
    ensures DueExactly(visits, failed, due)
  {
    forall v, f | v in visits && f in failed && v.agent == f.agent
      ensures v.ran <==> due(v.agent) && IsReleased(f.release, v.at)
    {
      assert Remembers(between, f);
    }
  }

  lemma AttemptsAreDistinctIff(matched: seq<string>, ran: seq<string>, failed: seq<Failure>, visits: seq<Visit>, due: string -> bool)
    requires NoDuplicates(matched) && Elements(matched) == Elements(ran) + FailedAgents(failed)
    requires NoDuplicates(VisitedAgents(visits)) && (forall id :: id in VisitedAgents(visits) ==> id !in ran)
    requires DueExactly(visits, failed, due)
    ensures NoDuplicates(matched + RanAgents(visits)) <==> !SecondRun(visits, failed, due)
  {
    var scheduled := RanAgents(visits);
    RanWereVisited(visits);
    DistinctParts(matched, scheduled);
    if SecondRun(visits, failed, due) {
      var v, f :| v in visits && f in failed && v.agent == f.agent
               && due(v.agent) && IsReleased(f.release, v.at);
      assert v.agent in scheduled && f.agent in FailedAgents(failed);
      assert v.agent in Elements(matched) && v.agent in Elements(scheduled);
    } else {
      forall id | id in Elements(scheduled) ensures id !in Elements(matched) {
        var v :| v in visits && v.agent == id && v.ran;
        assert id !in Elements(ran);
        assert id !in FailedAgents(failed);
      }
    }
  }

  /** No exception of the signal phase lets its agent be run again within fifteen minutes. */
  ghost predicate ReleasedLate(failed: seq<Failure>) {
    forall f :: f in failed ==> f.release.Never? || (f.release.From? && f.release.at >= f.at + MIN_COOLDOWN_MS)
  }

  /** Every exception is readable, or that of an agent whose row the bracket makes and leaves busy. */
  ghost predicate ReadableOrBusy(matches: seq<SignalMatch>, runner: Runner, agents: map<string, Agent>) {
    forall k :: 0 <= k < |matches| && Rejects(runner(k, matches[k].agent).0) && matches[k].agent in agents ==>
      runner(k, matches[k].agent).0.Threw? || Runs(StateOf(agents[matches[k].agent]))
  }

  lemma {:induction false} ReadableReleasesLate(matches: seq<SignalMatch>, runner: Runner, agents: map<string, Agent>,
                                                start: int, n: nat)
    requires n <= |matches| && ReadableOrBusy(matches, runner, agents)
    ensures ReleasedLate(FailedRuns(matches, runner, agents, start, n))
  {
    if n > 0 {
      ReadableReleasesLate(matches, runner, agents, start, n - 1);
      var id, end, before := matches[n - 1].agent, ClockAfter(matches, runner, start, n), FailedRuns(matches, runner, agents, start, n - 1);
      if Rejects(runner(n - 1, id).0) && id in agents {
        CooldownShape(agents[id].failures.GetOr(0) + 1, agents[id].failures.GetOr(0) + 1);
        MembersOfOneMore(before, Failure(id, end, ReleaseAfter(agents[id], runner(n - 1, id).0, end)));
      } else {
        assert before + [] == before;
      }
    }
  }

  /** If the whole cycle takes less than fifteen minutes, no cooldown it set can pass within it. */
  lemma ShortCycleHasNoSecondRun(visits: seq<Visit>, failed: seq<Failure>, due: string -> bool, start: int, end: int)
    requires end - start < MIN_COOLDOWN_MS && ReleasedLate(failed)
    requires forall v :: v in visits ==> v.at <= end
    requires forall f :: f in failed ==> f.at >= start
    ensures !SecondRun(visits, failed, due)
  {
  }

  /** Fifteen minutes are tight: an agent without earlier failures whose signal run throws is shut out
      for exactly that long, and may then run a second time in the same cycle. */
  lemma FifteenMinutesAreTight(agents: map<string, Agent>, a: Agent, input: Input, end: int, at: int)
    requires a.failures.GetOr(0) == 0
    ensures Free(agents[input.agent := FinalRow(a, input, Threw, end)], input.agent, at)
            <==> at >= end + MIN_COOLDOWN_MS
  {
    assert PowerOfTwo(0) == 1;
  }

  /** One cycle. `sweep` is the time the task sweep between matching and running takes. The agents run,
      for a signal or by schedule, are pairwise distinct exactly if no agent whose signal run ended in an
      exception is due and released at the schedule's look - in particular whenever the cycle takes less
      than fifteen minutes and its exceptions are readable, or leave the agent busy. */
  method RunConductor(st: AgentStore, roles: map<string, Scope>, signals: seq<Signal>, profiles: set<string>,
                      due: string -> bool, sweep: nat, runner: Runner)
    returns (matches: seq<SignalMatch>, ran: seq<string>, failed: seq<Failure>, visits: seq<Visit>,
             ghost start: int, ghost between: map<string, Agent>)
    requires st.Valid()
    modifies st
    ensures st.Valid() && st.now >= old(st.now)
    ensures matches == Route(old(Roster(st.agents, st.order, roles, st.now)),
                             old(ActiveAgents(st.agents, st.order)), signals).matches
    ensures ran == ReturnedAgents(matches, runner, |matches|)
    // `start` is when the signal phase begins
    ensures start == old(st.now) + sweep
    ensures failed == FailedRuns(matches, runner, old(st.agents), start, |matches|)
    ensures FailedAgents(failed) == ThrewAgents(matches, runner, |matches|)
    ensures forall v :: v in visits ==> ClockAfter(matches, runner, start, |matches|) <= v.at <= st.now
    ensures VisitedAgents(visits) == Visited(old(ActiveAgents(st.agents, st.order)), profiles, ran)
    // `between` are the rows after the signal phase; the schedule judges every remaining agent by them
    ensures forall id :: id in old(st.agents) && id !in Agents(matches) ==> id in between && between[id] == old(st.agents)[id]
    ensures RowsAre(|matches|, matches, runner, old(st.agents), start, between)
    ensures forall v :: v in visits ==> (v.ran <==> due(v.agent) && Free(between, v.agent, v.at))
    ensures DueExactly(visits, failed, due)
    ensures NoDuplicates(Agents(matches) + RanAgents(visits)) <==> !SecondRun(visits, failed, due)
    ensures st.now - old(st.now) < MIN_COOLDOWN_MS && ReadableOrBusy(matches, runner, old(st.agents)) ==>
              NoDuplicates(Agents(matches) + RanAgents(visits))
  {
    var active := ActiveAgents(st.agents, st.order);
    var roster := Roster(st.agents, st.order, roles, st.now);
    ActiveAgentsAreDistinct(st.agents, st.order);
    matches := MatchSignalsToAgents(roster, active, signals);
    MatchesAreGood(roster, active, signals);
    MatchedRowsExist(roster, active, matches);
    ghost var rows := st.agents;
    st.now := st.now + sweep;
    start := st.now;
    ran, failed, visits, between := RunPhases(st, active, matches, profiles, due, runner, rows, start);
    if st.now - old(st.now) < MIN_COOLDOWN_MS && ReadableOrBusy(matches, runner, rows) {
      ReadableReleasesLate(matches, runner, rows, start, |matches|);
      ShortCycleHasNoSecondRun(visits, failed, due, old(st.now), st.now);
    }
  }

  /** Steps 6 and 7, from the rows `rows` at time `start`. */
  method RunPhases(st: AgentStore, active: seq<string>, matches: seq<SignalMatch>, profiles: set<string>,
                   due: string -> bool, runner: Runner, ghost rows: map<string, Agent>, ghost start: int)
    returns (ran: seq<string>, failed: seq<Failure>, visits: seq<Visit>, ghost between: map<string, Agent>)
    requires st.Valid() && st.agents == rows && st.now == start
    requires NoDuplicates(active) && NoDuplicates(Agents(matches)) && forall id :: id in Agents(matches) ==> id in rows
    modifies st
    ensures st.Valid() && st.now >= start
    ensures ran == ReturnedAgents(matches, runner, |matches|)
    ensures failed == FailedRuns(matches, runner, rows, start, |matches|)
    ensures FailedAgents(failed) == ThrewAgents(matches, runner, |matches|)
    ensures forall f :: f in failed ==> f.at >= start
    ensures forall v :: v in visits ==> ClockAfter(matches, runner, start, |matches|) <= v.at <= st.now
    ensures VisitedAgents(visits) == Visited(active, profiles, ran)
    ensures forall id :: id in rows && id !in Agents(matches) ==> id in between && between[id] == rows[id]
    ensures RowsAre(|matches|, matches, runner, rows, start, between)
    ensures forall v :: v in visits ==> (v.ran <==> due(v.agent) && Free(between, v.agent, v.at))
    ensures DueExactly(visits, failed, due)
    ensures NoDuplicates(Agents(matches) + RanAgents(visits)) <==> !SecondRun(visits, failed, due)
  {
    ran, failed := RunSignalPhase(st, matches, runner);
    between := st.agents;
    RunsPartition(matches, runner, |matches|);
    assert Agents(matches)[..|matches|] == Agents(matches);
    visits := RunScheduledPhase(st, active, profiles, due, ran, runner, |matches|);
    FreeMeansReleased(between, failed, visits, due, start);
    VisitedAreDistinct(active, profiles, ran);
    AttemptsAreDistinctIff(Agents(matches), ran, failed, visits, due);
  }

  lemma MatchedRowsExist(r: Roster, active: seq<string>, matches: seq<SignalMatch>)
    requires forall m :: m in matches ==> GoodMatch(r, active, m)
    ensures forall id :: id in Agents(matches) ==> id in r.agents
  {
    forall id | id in Agents(matches) ensures id in r.agents {
      var i :| 0 <= i < |matches| && Agents(matches)[i] == id;
      assert matches[i] in matches;
    }
  }
}
