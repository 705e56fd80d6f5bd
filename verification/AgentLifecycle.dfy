/** The agent lifecycle: legal transitions, the stored rows they change, and failure cooldowns.
    Source: server/agents/agentLifecycle.ts. */
module AgentLifecycle {
  import opened Collections

  datatype State = Candidate | Proposed | Approved | Hired | Standby | Triggered | Assigned | Working
                 | Blocked | AwaitingApproval | Completed | Verified | Archived

  /** `VALID_AGENT_TRANSITIONS` */
  function Targets(s: State): set<State> {
    match s
    case Candidate => {Proposed, Archived}
    case Proposed => {Approved, Archived}
    case Approved => {Hired, Archived}
    case Hired => {Standby, Archived}
    case Standby => {Triggered, Archived}
    case Triggered => {Assigned, Standby, Archived}
    case Assigned => {Working, Blocked, Standby, Archived}
    case Working => {AwaitingApproval, Completed, Blocked, Standby, Archived}
    case Blocked => {Standby, Archived}
    case AwaitingApproval => {Working, Completed, Blocked, Standby, Archived}
    case Completed => {Verified, Standby, Archived}
    case Verified => {Standby, Archived}
    case Archived => {}
  }

  predicate CanTransition(from: State, to: State) {
    to in Targets(from)
  }

  const LIVE_STATES: set<State> :=
    {Hired, Standby, Triggered, Assigned, Working, Blocked, AwaitingApproval, Completed, Verified}

  const BUSY_STATES: set<State> := {Triggered, Assigned, Working, AwaitingApproval}

  /** The legal moves, by what they are for: anybody may be archived, a live agent may go back to standby, one
      with work in hand may be blocked, and otherwise things only go forward - towards being hired, from
      standby to work, between work and waiting for approval, and to verified completion. */
  lemma TransitionTable(from: State, to: State)
    ensures CanTransition(from, to) <==>
      || (to == Archived && from != Archived)
      || (to == Standby && from in LIVE_STATES && from != Standby)
      || (to == Blocked && from in {Assigned, Working, AwaitingApproval})
      || (from, to) in {(Candidate, Proposed), (Proposed, Approved), (Approved, Hired),
                        (Standby, Triggered), (Triggered, Assigned), (Assigned, Working),
                        (Working, AwaitingApproval), (AwaitingApproval, Working),
                        (Working, Completed), (AwaitingApproval, Completed), (Completed, Verified)}
    ensures from in LIVE_STATES <==> from !in {Candidate, Proposed, Approved, Archived}
    ensures from in BUSY_STATES <==> from in {Triggered, Assigned, Working, AwaitingApproval}
  {
  }

  function LegacyStatus(s: State): string {
    match s
    case Candidate | Proposed | Approved => "pending"
    case Archived => "retired"
    case Blocked => "paused"
    case _ => "active"
  }

  // ----- cooldowns -----

  const MINUTE_MS := 60 * 1000
  const MIN_COOLDOWN_MS := 15 * MINUTE_MS
  const MAX_COOLDOWN_MS := 6 * 60 * MINUTE_MS

  function PowerOfTwo(n: nat): nat {
    if n == 0 then 1 else 2 * PowerOfTwo(n - 1)
  }

  /** `min(15 min * min(2 ** max(0, failures - 1), 24), 6 h)` */
  function CooldownMs(failures: int): int {
    var exponent := if failures - 1 > 0 then failures - 1 else 0;
    var multiplier := if PowerOfTwo(exponent) < 24 then PowerOfTwo(exponent) else 24;
    if MIN_COOLDOWN_MS * multiplier < MAX_COOLDOWN_MS then MIN_COOLDOWN_MS * multiplier else MAX_COOLDOWN_MS
  }

  lemma {:induction false} PowersGrow(m: nat, n: nat)
    requires m <= n
    ensures 1 <= PowerOfTwo(m) <= PowerOfTwo(n)
    decreases n
  {
    if m < n {
      PowersGrow(m, n - 1);
    } else if n > 0 {
      PowersGrow(n - 1, n - 1);
    }
  }

  /** Never below 15 minutes, never above 6 hours, never shorter after more failures, and at its
      longest exactly from the sixth failure on. Up to the fifth each failure doubles it. */
  lemma CooldownShape(f: int, g: int)
    ensures MIN_COOLDOWN_MS <= CooldownMs(f) <= MAX_COOLDOWN_MS
    ensures f <= g ==> CooldownMs(f) <= CooldownMs(g)
    ensures CooldownMs(f) == MAX_COOLDOWN_MS <==> f >= 6
    ensures MIN_COOLDOWN_MS == 900000 && MAX_COOLDOWN_MS == 21600000
    ensures f <= 1 ==> CooldownMs(f) == MIN_COOLDOWN_MS
    ensures 1 <= f <= 4 ==> CooldownMs(f + 1) == 2 * CooldownMs(f)
  {
    var m, n := if f - 1 > 0 then f - 1 else 0, if g - 1 > 0 then g - 1 else 0;
    PowersGrow(m, m);
    PowersGrow(n, n);
    if f <= g {
      PowersGrow(m, n);
    }
    assert PowerOfTwo(1) == 2 && PowerOfTwo(2) == 4 && PowerOfTwo(3) == 8 && PowerOfTwo(4) == 16 && PowerOfTwo(5) == 32;
    if f >= 6 {
      PowersGrow(5, m);
    } else {
      PowersGrow(m, 4);
    }
  }

  // ----- rows -----

  /** One row of `agents`. Counters and the lifecycle column may be NULL on old rows; `cooldownUntil` is
      the stored instant in milliseconds. */
  datatype Agent = Agent(state: Option<State>, status: Option<string>, currentTask: Option<string>,
                         lastReason: Option<string>, confidence: Option<real>, failures: Option<int>,
                         successes: Option<int>, cooldownUntil: Option<int>,
                         kbScope: seq<string>, dataSources: seq<string>, taskTypes: seq<string>)

  /** `getLifecycleState` of an existing row: the column, or what the legacy status stands for. */
  function StateOf(a: Agent): State {
    match a.state
    case Some(s) => s
    case None =>
      var legacy := a.status.GetOr("active");
      if legacy == "pending" then Candidate
      else if legacy == "retired" || legacy == "disabled" then Archived
      else Standby
  }

  /** The state a row stands for if only its legacy status is set: what the status cannot tell apart is read
      as candidate, archived or standby. */
  lemma ReadBack(s: State, a: Agent)
    requires a.state == None
    ensures a.status == None ==> StateOf(a) == Standby
    ensures a.status == Some("disabled") ==> StateOf(a) == Archived
    ensures a.status == Some(LegacyStatus(s)) ==>
              StateOf(a) == if s in {Candidate, Proposed, Approved} then Candidate else if s == Archived then Archived else Standby
    ensures LegacyStatus(s) == "active" <==> s in LIVE_STATES && s != Blocked
    ensures LegacyStatus(s) == "paused" <==> s == Blocked
  {
  }

  /** Columns a transition may set along the way; `None` leaves a column alone. */
  datatype Patch = Patch(lastReason: Option<Option<string>>, confidence: Option<Option<real>>,
                         currentTask: Option<Option<string>>, cooldownUntil: Option<Option<int>>)

  const NO_PATCH := Patch(None, None, None, None)

  function WithState(a: Agent, to: State, p: Patch): Agent {
    a.(state := Some(to), status := Some(LegacyStatus(to)),
       lastReason := p.lastReason.GetOr(a.lastReason), confidence := p.confidence.GetOr(a.confidence),
       currentTask := p.currentTask.GetOr(a.currentTask), cooldownUntil := p.cooldownUntil.GetOr(a.cooldownUntil))
  }

  /** Both columns say the new state, the four patchable ones what the patch names for them, and all others
      what they said before. */
  lemma WithStateIs(a: Agent, to: State, p: Patch)
    ensures var b := WithState(a, to, p);
      && b.state == Some(to) && b.status == Some(LegacyStatus(to))
      && b.lastReason == (if p.lastReason.Some? then p.lastReason.value else a.lastReason)
      && b.confidence == (if p.confidence.Some? then p.confidence.value else a.confidence)
      && b.currentTask == (if p.currentTask.Some? then p.currentTask.value else a.currentTask)
      && b.cooldownUntil == (if p.cooldownUntil.Some? then p.cooldownUntil.value else a.cooldownUntil)
      && b == a.(state := b.state, status := b.status, lastReason := b.lastReason, confidence := b.confidence,
                 currentTask := b.currentTask, cooldownUntil := b.cooldownUntil)
  {
  }

  function InCooldown(a: Agent, now: int): bool {
    a.cooldownUntil.Some? && a.cooldownUntil.value > now
  }

  function Increment(counter: Option<int>): Option<int> {
    match counter
    case None => None
    case Some(n) => Some(n + 1)
  }

  /** `blockAgent` on an existing row. */
  function Blocking(a: Agent, now: int, reason: string): Agent {
    var until := Some(Some(now + CooldownMs(a.failures.GetOr(0) + 1)));
    var counted := a.(failures := Increment(a.failures));
    var from := StateOf(a);
    if !CanTransition(from, Blocked) && from != Blocked then WithState(counted, from, Patch(None, None, None, until))
    else WithState(counted, Blocked, Patch(Some(Some(reason)), None, None, until))
  }

  /** What blocking sets: one more failure where failures are counted at all, a cooldown that starts now for one
      more failure than before, and blocked with the reason wherever that is legal; elsewhere the agent stays
      in its state and keeps its reason. */
  lemma BlockingIs(a: Agent, now: int, reason: string)
    ensures var b, s := Blocking(a, now, reason), StateOf(a);
      && (a.failures.None? ==> b.failures.None? && b.cooldownUntil == Some(now + CooldownMs(1)))
      && (a.failures.Some? ==> b.failures == Some(a.failures.value + 1) && b.cooldownUntil == Some(now + CooldownMs(a.failures.value + 1)))
      && (s in {Assigned, Working, AwaitingApproval, Blocked} ==> b.state == Some(Blocked) && b.lastReason == Some(reason))
      && (s !in {Assigned, Working, AwaitingApproval, Blocked} ==> b.state == Some(s) && b.lastReason == a.lastReason)
      && b == a.(state := b.state, status := Some(LegacyStatus(b.state.value)), lastReason := b.lastReason,
                 failures := b.failures, cooldownUntil := b.cooldownUntil)
  {
  }

  /** The row's legacy status says what its lifecycle column says. */
  predicate InSync(a: Agent) {
    a.state.Some? && a.status == Some(LegacyStatus(a.state.value))
  }

  datatype TransitionResult = Moved(from: State) | NotFound | Illegal(from: State)

  /** One row of `agent_lifecycle_events`. */
  datatype Event = Event(agent: string, from: Option<State>, to: State)

  /** The tables, with the clock they are used under. */
  class AgentStore {
    var agents: map<string, Agent>
    /** The order in which a query lists the rows. */
    var order: seq<string>
    var events: seq<Event>
    var now: int

    ghost predicate Valid()
      reads this
    {
      NoDuplicates(order) && forall id :: id in order <==> id in agents
    }

    constructor (agents: map<string, Agent>, order: seq<string>, now: int)
      requires NoDuplicates(order) && forall id :: id in order <==> id in agents
      ensures Valid() && this.agents == agents && this.order == order && this.now == now && events == []
    {
      this.agents, this.order, this.now, events := agents, order, now, [];
    }

    function LifecycleState(id: string): Option<State>
      reads this
    {
      if id in agents then Some(StateOf(agents[id])) else None
    }

    method SetLifecycleState(id: string, to: State, patch: Patch)
      requires Valid()
      modifies this
      ensures Valid() && order == old(order) && now == old(now)
      ensures agents == if id in old(agents) then old(agents)[id := WithState(old(agents)[id], to, patch)] else old(agents)
      ensures events == old(events) + [Event(id, old(LifecycleState(id)), to)]
    {
      var from := LifecycleState(id);
      if id in agents {
        agents := agents[id := WithState(agents[id], to, patch)];
      }
      events := events + [Event(id, from, to)];
    }

    /** An illegal transition changes nothing; staying in a state refreshes the row. */
    method TransitionAgent(id: string, to: State, patch: Patch) returns (r: TransitionResult)
      requires Valid()
      modifies this
      ensures Valid() && order == old(order) && now == old(now)
      ensures match old(LifecycleState(id))
              case None => r == NotFound && agents == old(agents) && events == old(events)
              case Some(from) =>
                if from == to || CanTransition(from, to) then
                  && r == Moved(from)
                  && agents == old(agents)[id := WithState(old(agents)[id], to, patch)]
                  && events == old(events) + [Event(id, Some(from), to)]
                else r == Illegal(from) && agents == old(agents) && events == old(events)
    {
      var from := LifecycleState(id);
      if from == None {
        return NotFound;
      }
      if from.value != to && !CanTransition(from.value, to) {
        return Illegal(from.value);
      }
      SetLifecycleState(id, to, patch);
      return Moved(from.value);
    }

    method BlockAgent(id: string, reason: string)
      requires Valid()
      modifies this
      ensures Valid() && order == old(order) && now == old(now)
      ensures agents == if id in old(agents) then old(agents)[id := Blocking(old(agents)[id], now, reason)] else old(agents)
      ensures id in old(agents) ==>
        var from := StateOf(old(agents)[id]);
        events == old(events) + [Event(id, Some(from), if CanTransition(from, Blocked) then Blocked else from)]
      ensures id !in old(agents) ==> events == old(events)
    {
      var failures := if id in agents then agents[id].failures.GetOr(0) + 1 else 1;
      var until := now + CooldownMs(failures);
      if id in agents {
        agents := agents[id := agents[id].(failures := Increment(agents[id].failures))];
      }
      var from := LifecycleState(id);
      if from.Some? && !CanTransition(from.value, Blocked) && from.value != Blocked {
        SetLifecycleState(id, from.value, Patch(None, None, None, Some(Some(until))));
        return;
      }
      var r := TransitionAgent(id, Blocked, Patch(Some(Some(reason)), None, None, Some(Some(until))));
    }

    method RecordAgentSuccess(id: string)
      requires Valid()
      modifies this`agents
      ensures Valid()
      ensures agents == if id in old(agents) then
                          old(agents)[id := old(agents)[id].(successes := Increment(old(agents)[id].successes), cooldownUntil := None)]
                        else old(agents)
    {
      if id in agents {
        agents := agents[id := agents[id].(successes := Increment(agents[id].successes), cooldownUntil := None)];
      }
    }
  }

  // ----- whole traces -----

  /** A request to transition, and what it makes of a row: nothing, if it is illegal. */
  function Requested(a: Agent, to: State, patch: Patch): Agent {
    if IsAccepted(a, to) then WithState(a, to, patch) else a
  }

  /** The states a row shows before and after each of a list of requests. */
  function Trace(a: Agent, requests: seq<(State, Patch)>): (trace: seq<State>)
    ensures |trace| == |requests| + 1 && trace[0] == StateOf(a)
    decreases |requests|
  {
    if requests == [] then [StateOf(a)]
    else [StateOf(a)] + Trace(Requested(a, requests[0].0, requests[0].1), requests[1..])
  }

  ghost predicate LegalTrace(trace: seq<State>) {
    forall i :: 0 <= i < |trace| - 1 ==> trace[i] == trace[i + 1] || CanTransition(trace[i], trace[i + 1])
  }

  /** Whatever is requested, only legal moves happen - and every legal one that is requested does. */
  lemma {:induction false} TracesAreLegal(a: Agent, requests: seq<(State, Patch)>)
    ensures LegalTrace(Trace(a, requests))
    ensures forall i :: 0 <= i < |requests| ==>
              Trace(a, requests)[i + 1] == if CanTransition(Trace(a, requests)[i], requests[i].0) then requests[i].0 else Trace(a, requests)[i]
    decreases |requests|
  {
    if requests != [] {
      var b := Requested(a, requests[0].0, requests[0].1);
      TracesAreLegal(b, requests[1..]);
      var rest := Trace(b, requests[1..]);
      forall i | 0 <= i < |rest|
        ensures var t := Trace(a, requests); t[i] == t[i + 1] || CanTransition(t[i], t[i + 1])
        ensures var t := Trace(a, requests); t[i + 1] == if CanTransition(t[i], requests[i].0) then requests[i].0 else t[i]
      {
        if i > 0 {
          assert rest[i - 1] == rest[i] || CanTransition(rest[i - 1], rest[i]);
          assert requests[1..][i - 1] == requests[i];
        }
      }
    }
  }

  /** Once archived, always archived. */
  lemma {:induction false} ArchivedIsAbsorbing(trace: seq<State>, i: nat, j: nat)
    requires LegalTrace(trace) && i <= j < |trace| && trace[i] == Archived
    ensures trace[j] == Archived
  {
    if i < j {
      ArchivedIsAbsorbing(trace, i, j - 1);
      assert trace[j - 1] == trace[j] || CanTransition(trace[j - 1], trace[j]);
    }
  }

  /** The last moment before `j` at which the trace was not yet in `trace[j]`'s state. */
  lemma {:induction false} Entered(trace: seq<State>, i: nat, j: nat) returns (k: nat)
    requires LegalTrace(trace) && i <= j < |trace| && trace[i] != trace[j]
    ensures i <= k < j && trace[k] != trace[j] && trace[k + 1] == trace[j] && CanTransition(trace[k], trace[j])
  {
    if trace[j - 1] == trace[j] {
      k := Entered(trace, i, j - 1);
    } else {
      k := j - 1;
      assert trace[k] == trace[k + 1] || CanTransition(trace[k], trace[k + 1]);
    }
  }

  predicate PreHire(s: State) {
    s == Candidate || s == Proposed || s == Approved
  }

  /** The first live state after a candidate is `Hired`, entered from `Approved`. */
  lemma {:induction false} LiveMeansHired(trace: seq<State>, i: nat, j: nat) returns (k: nat)
    requires LegalTrace(trace) && i <= j < |trace| && PreHire(trace[i]) && trace[j] in LIVE_STATES
    ensures i < k <= j && trace[k] == Hired
  {
    assert trace[j - 1] == trace[j] || CanTransition(trace[j - 1], trace[j]);
    if PreHire(trace[j - 1]) {
      k := j;
    } else {
      k := LiveMeansHired(trace, i, j - 1);
    }
  }

  /** No agent reaches the working roster without being proposed, approved and hired, in that order. */
  lemma HiringIsNeverSkipped(trace: seq<State>, i: nat, j: nat) returns (proposed: nat, approved: nat, hired: nat)
    requires LegalTrace(trace) && i <= j < |trace| && trace[i] == Candidate && trace[j] in LIVE_STATES
    ensures i < proposed < approved < hired <= j
    ensures trace[proposed] == Proposed && trace[approved] == Approved && trace[hired] == Hired
  {
    hired := LiveMeansHired(trace, i, j);
    approved := Entered(trace, i, hired);
    proposed := Entered(trace, i, approved);
  }

  /** A resting or blocked agent starts working only by being triggered and then assigned; a blocked
      one returns to standby first. */
  lemma WorkNeedsActivation(trace: seq<State>, i: nat, j: nat) returns (standby: nat, triggered: nat, bound: nat)
    requires LegalTrace(trace) && i <= j < |trace| && trace[j] == Working
    requires trace[i] == Standby || trace[i] == Blocked
    ensures i <= standby < triggered < bound < j
    ensures trace[standby] == Standby && trace[triggered] == Triggered && trace[bound] == Assigned
  {
    bound := AssignedBefore(trace, i, j);
    triggered := Entered(trace, i, bound);
    standby := Entered(trace, i, triggered);
  }

  /** Work that waited for approval was work before. */
  lemma {:induction false} AssignedBefore(trace: seq<State>, i: nat, j: nat) returns (k: nat)
    requires LegalTrace(trace) && i <= j < |trace| && (trace[j] == Working || trace[j] == AwaitingApproval)
    requires trace[i] == Standby || trace[i] == Blocked
    ensures i < k < j && trace[k] == Assigned
    decreases j
  {
    k := Entered(trace, i, j);
    if trace[k] != Assigned {
      k := AssignedBefore(trace, i, k);
    }
  }

  predicate IsAccepted(a: Agent, to: State) {
    StateOf(a) == to || CanTransition(StateOf(a), to)
  }

  function RowAfter(a: Agent, requests: seq<(State, Patch)>): Agent
    decreases |requests|
  {
    if requests == [] then a else RowAfter(Requested(a, requests[0].0, requests[0].1), requests[1..])
  }

  predicate SomeAccepted(a: Agent, requests: seq<(State, Patch)>)
    decreases |requests|
  {
    requests != []
    && (IsAccepted(a, requests[0].0) || SomeAccepted(Requested(a, requests[0].0, requests[0].1), requests[1..]))
  }

  /** The legacy column: an accepted transition sets it right, and a wrong one stays exactly until the first
      that is accepted. */
  lemma {:induction false} LegacyStatusFollows(a: Agent, requests: seq<(State, Patch)>)
    ensures InSync(RowAfter(a, requests)) <==> InSync(a) || SomeAccepted(a, requests)
    decreases |requests|
  {
    if requests != [] {
      LegacyStatusFollows(Requested(a, requests[0].0, requests[0].1), requests[1..]);
    }
  }

  /** The trace ends in the state of that row. */
  lemma {:induction false} TraceEnds(a: Agent, requests: seq<(State, Patch)>)
    ensures Trace(a, requests)[|requests|] == StateOf(RowAfter(a, requests))
    decreases |requests|
  {
    if requests != [] {
      TraceEnds(Requested(a, requests[0].0, requests[0].1), requests[1..]);
    }
  }
}
