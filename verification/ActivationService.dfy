/** The bracket around one agent run: it drives the stored lifecycle before the run, settles it
    afterwards, and blocks the agent when the run throws.
    Source: server/agents/agentActivationService.ts. */
module ActivationService {
  import opened Collections
  import opened AgentLifecycle

  datatype Input = Input(agent: string, triggerRef: Option<string>, reason: string, confidence: Option<real>,
                         evidence: nat, failure: string)

  /** What happens around the injected runner, which does not touch the lifecycle. Recording the activation
      can itself throw, before the runner is called: evidence is of any type, and printing it may throw
      something without a message to log. The runner may reject with an error, or with something whose
      message cannot be read, such as null. What it returns may be unusable, which its type allows: nothing
      at all, or a run id that cannot be written to the activation. */
  datatype Outcome = NotRecorded
                   | Threw
                   | ThrewUnreadably
                   | Unusable
                   | Returned(skipped: bool, tasksProposed: int, signalsDetected: int)

  /** The caller of the bracket sees an exception. */
  predicate Rejects(o: Outcome) {
    o.NotRecorded? || o.Threw? || o.ThrewUnreadably?
  }

  /** The bracket ends before it settles or blocks the agent. */
  predicate CutShort(o: Outcome) {
    o.NotRecorded? || o.ThrewUnreadably? || o.Unusable?
  }

  /** The time the bracket takes: that of the runner, if it is called. */
  function Elapsed(o: Outcome, elapsed: nat): nat {
    if o.NotRecorded? then 0 else elapsed
  }

  function HasEvidence(input: Input, o: Outcome): bool
    requires o.Returned?
  {
    input.evidence > 0 || o.tasksProposed > 0 || o.signalsDetected > 0
  }

  // ----- the contract, as a table over start states and outcomes -----

  /** Start states in which the bracket takes the agent through a run. */
  predicate Runs(s: State) {
    s == Standby || s in BUSY_STATES
  }

  /** The states before the runner is called; only the first is reached if the activation is not recorded. */
  function Opening(s: State, recorded: bool): seq<State> {
    match s
    case Standby => if recorded then [Triggered, Assigned, Working] else [Triggered]
    case Triggered => if recorded then [Assigned, Working] else []
    case Assigned => if recorded then [Working] else []
    case _ => []
  }

  function Closing(s: State, input: Input, o: Outcome): seq<State> {
    match o
    case Threw => if Runs(s) || s == Blocked then [Blocked] else [s]
    case NotRecorded | ThrewUnreadably | Unusable => []
    case Returned(skipped, _, _) =>
      if !Runs(s) then []
      else if !skipped && HasEvidence(input, o) then [Completed, Verified, Standby]
      else [Standby]
  }

  /** The audit trail of an agent that goes through the given states. */
  function Along(agent: string, from: State, states: seq<State>): seq<Event>
    decreases |states|
  {
    if states == [] then [] else [Event(agent, Some(from), states[0])] + Along(agent, states[0], states[1..])
  }

  /** The state a run of the bracket ends in. */
  function FinalState(s: State, o: Outcome): State {
    match o
    case NotRecorded => if s == Standby then Triggered else s
    case Threw => if Runs(s) then Blocked else s
    case ThrewUnreadably | Unusable => if Runs(s) && s != AwaitingApproval then Working else s
    case Returned(_, _, _) => if Runs(s) then Standby else s
  }

  /** Every column of the row afterwards, when the runner returns or throws at time `end`. */
  function FinalRow(a: Agent, input: Input, o: Outcome, end: int): Agent {
    var s := StateOf(a);
    var picked := !o.NotRecorded? && (s == Standby || s == Triggered);
    var cleared := o.Returned? && (o.skipped || !HasEvidence(input, o));
    if (!Runs(s) && !o.Threw?) || (CutShort(o) && Opening(s, !o.NotRecorded?) == []) then a
    else
      Agent(
        state := Some(FinalState(s, o)),
        status := Some(LegacyStatus(FinalState(s, o))),
        currentTask := if cleared then None else if picked then input.triggerRef else a.currentTask,
        lastReason := if o.Threw? && FinalState(s, o) == Blocked then Some(input.failure)
                      else if s == Standby then Some(input.reason) else a.lastReason,
        confidence := if s == Standby then input.confidence else a.confidence,
        failures := if o.Threw? then Increment(a.failures) else a.failures,
        successes := if o.Returned? && !o.skipped then Increment(a.successes) else a.successes,
        cooldownUntil := if o.Threw? then Some(end + CooldownMs(a.failures.GetOr(0) + 1))
                         else if o.Returned? && !o.skipped then None else a.cooldownUntil,
        kbScope := a.kbScope, dataSources := a.dataSources, taskTypes := a.taskTypes)
  }

  /** Never busy afterwards - unless the bracket is cut short: the activation cannot be recorded, the
      runner's rejection cannot be read, or its result cannot be used. Then exactly the agents the bracket
      takes through a run stay busy. */
  lemma BusyAfterwardsIff(s: State, o: Outcome)
    ensures FinalState(s, o) in BUSY_STATES
            <==> s in {Standby, Triggered, Assigned, Working, AwaitingApproval} && (o.NotRecorded? || o.ThrewUnreadably? || o.Unusable?)
  {
  }

  /** A run is verified on its way back exactly if it returned, was not skipped, and brought evidence along,
      proposed a task or detected a signal. Every run that returned and was not skipped counts as a success. */
  lemma VerifiedIff(a: Agent, input: Input, o: Outcome, end: int)
    requires StateOf(a) in {Standby, Triggered, Assigned, Working, AwaitingApproval}
    ensures Verified in Closing(StateOf(a), input, o) <==>
              o.Returned? && !o.skipped && (input.evidence > 0 || o.tasksProposed > 0 || o.signalsDetected > 0)
    ensures FinalRow(a, input, o, end).successes
         == if o.Returned? && !o.skipped && a.successes.Some? then Some(a.successes.value + 1) else a.successes
  {
  }

  /** A run that started from standby or a busy state ends in standby when it returns something usable, and
      blocked, with a cooldown of 15 minutes to 6 hours ahead, when it throws something readable. Cut short,
      it counts no failure and sets no cooldown. */
  lemma RunsEndAtRest(a: Agent, input: Input, o: Outcome, end: int)
    requires StateOf(a) in {Standby, Triggered, Assigned, Working, AwaitingApproval}
    ensures o.Returned? ==> FinalRow(a, input, o, end).state == Some(Standby)
    ensures o.Threw? ==> FinalRow(a, input, o, end).state == Some(Blocked)
    ensures o.Threw? ==>
      var until := FinalRow(a, input, o, end).cooldownUntil;
      until.Some? && end + MIN_COOLDOWN_MS <= until.value <= end + MAX_COOLDOWN_MS
    ensures CutShort(o) ==>
      var after := FinalRow(a, input, o, end);
      after.failures == a.failures && after.cooldownUntil == a.cooldownUntil
  {
    CooldownShape(a.failures.GetOr(0) + 1, a.failures.GetOr(0) + 1);
  }

  /** The trail a run leaves is a legal path through the lifecycle, from the start state to the final one. */
  lemma TrailIsLegal(s: State, input: Input, o: Outcome)
    ensures LegalTrace([s] + Opening(s, !o.NotRecorded?) + Closing(s, input, o))
    ensures ([s] + Opening(s, !o.NotRecorded?) + Closing(s, input, o))[|Opening(s, !o.NotRecorded?) + Closing(s, input, o)|] == FinalState(s, o)
  {
  }

  // ----- the method -----

  lemma SameRow(m: map<string, Agent>, id: string)
    requires id in m
    ensures m[id := m[id]] == m
  {
  }

  lemma TrailOfOne(agent: string, s: State, a: State)
    ensures Along(agent, s, [a]) == [Event(agent, Some(s), a)]
  {
    assert [a][1..] == [];
  }

  lemma TrailOfTwo(agent: string, s: State, a: State, b: State)
    ensures Along(agent, s, [a, b]) == [Event(agent, Some(s), a), Event(agent, Some(a), b)]
  {
    assert [a, b][1..] == [b];
    TrailOfOne(agent, a, b);
  }

  lemma TrailOfThree(agent: string, s: State, a: State, b: State, c: State)
    ensures Along(agent, s, [a, b, c]) == [Event(agent, Some(s), a), Event(agent, Some(a), b), Event(agent, Some(b), c)]
  {
    assert [a, b, c][1..] == [b, c];
    TrailOfTwo(agent, a, b, c);
  }

  /** Steps 1 and 4: walk the agent towards working, as far as its state allows. In between the activation
      is recorded, or an exception ends the walk. */
  method Open(st: AgentStore, input: Input, recorded: bool)
    requires st.Valid()
    modifies st
    ensures st.Valid() && st.order == old(st.order) && st.now == old(st.now)
    ensures input.agent !in old(st.agents) ==> st.agents == old(st.agents) && st.events == old(st.events)
    ensures input.agent in old(st.agents) ==>
      var a := old(st.agents)[input.agent];
      && st.agents == old(st.agents)[input.agent := Opened(a, input, recorded)]
      && st.events == old(st.events) + Along(input.agent, StateOf(a), Opening(StateOf(a), recorded))
  {
    MoveOn(st, input.agent, Standby, Triggered, WakePatch(input));
    if !recorded {
      TrailOfOne(input.agent, Standby, Triggered);
      return;
    }
    Begin(st, input);
    if input.agent in old(st.agents) {
      ghost var a := old(st.agents)[input.agent];
      SameKeyTwice(old(st.agents), input.agent, Moved(a, Standby, Triggered, WakePatch(input)), Opened(a, input, true));
      OpeningIs(a, input);
    }
  }

  /** Step 4: from triggered to working. */
  method Begin(st: AgentStore, input: Input)
    requires st.Valid()
    modifies st
    ensures st.Valid() && st.order == old(st.order) && st.now == old(st.now)
    ensures input.agent !in old(st.agents) ==> st.agents == old(st.agents) && st.events == old(st.events)
    ensures input.agent in old(st.agents) ==>
      var b := old(st.agents)[input.agent];
      && st.agents == old(st.agents)[input.agent := Begun(b, input)]
      && st.events == old(st.events) + BegunTrail(b, input)
  {
    var id := input.agent;
    MoveOn(st, id, Triggered, Assigned, AssignPatch(input));
    MoveOn(st, id, Assigned, Working, NO_PATCH);
    if id in old(st.agents) {
      SameKeyTwice(old(st.agents), id, Moved(old(st.agents)[id], Triggered, Assigned, AssignPatch(input)),
        Begun(old(st.agents)[id], input));
    }
  }

  function AssignPatch(input: Input): Patch {
    Patch(None, None, Some(input.triggerRef), None)
  }

  function Begun(b: Agent, input: Input): Agent {
    Moved(Moved(b, Triggered, Assigned, AssignPatch(input)), Assigned, Working, NO_PATCH)
  }

  function BegunTrail(b: Agent, input: Input): seq<Event> {
    MovedTrail(input.agent, b, Triggered, Assigned)
    + MovedTrail(input.agent, Moved(b, Triggered, Assigned, AssignPatch(input)), Assigned, Working)
  }

  function WakePatch(input: Input): Patch {
    Patch(Some(Some(input.reason)), Some(input.confidence), None, None)
  }

  /** One step of the walk: taken if the agent is where the step starts. */
  function Moved(a: Agent, from: State, to: State, patch: Patch): Agent {
    if StateOf(a) == from then WithState(a, to, patch) else a
  }

  function MovedTrail(id: string, a: Agent, from: State, to: State): seq<Event> {
    if StateOf(a) == from then [Event(id, Some(from), to)] else []
  }

  method MoveOn(st: AgentStore, id: string, from: State, to: State, patch: Patch)
    requires st.Valid() && CanTransition(from, to)
    modifies st
    ensures st.Valid() && st.order == old(st.order) && st.now == old(st.now)
    ensures id !in old(st.agents) ==> st.agents == old(st.agents) && st.events == old(st.events)
    ensures id in old(st.agents) ==>
      var a := old(st.agents)[id];
      && st.agents == old(st.agents)[id := Moved(a, from, to, patch)]
      && st.events == old(st.events) + MovedTrail(id, a, from, to)
  {
    if st.LifecycleState(id) == Some(from) {
      var _ := st.TransitionAgent(id, to, patch);
    } else if id in st.agents {
      SameRow(st.agents, id);
    }
  }

  lemma OpeningIs(a: Agent, input: Input)
    ensures var b := Moved(a, Standby, Triggered, WakePatch(input));
            && Begun(b, input) == Opened(a, input, true)
            && MovedTrail(input.agent, a, Standby, Triggered) + BegunTrail(b, input)
               == Along(input.agent, StateOf(a), Opening(StateOf(a), true))
  {
    TrailOfThree(input.agent, Standby, Triggered, Assigned, Working);
    TrailOfTwo(input.agent, Triggered, Assigned, Working);
    TrailOfOne(input.agent, Assigned, Working);
  }

  function Opened(a: Agent, input: Input, recorded: bool): Agent {
    var s := StateOf(a);
    if !recorded then Moved(a, Standby, Triggered, WakePatch(input))
    else if !(s == Standby || s == Triggered || s == Assigned) then a
    else
      a.(state := Some(Working), status := Some("active"),
         lastReason := if s == Standby then Some(input.reason) else a.lastReason,
         confidence := if s == Standby then input.confidence else a.confidence,
         currentTask := if s == Assigned then a.currentTask else input.triggerRef)
  }

  /** Step 6 for an agent that ran: back to standby, through verification if there is evidence. */
  method Settle(st: AgentStore, input: Input, o: Outcome)
    requires st.Valid() && o.Returned?
    requires input.agent in st.agents ==>
      StateOf(st.agents[input.agent]) != Triggered && StateOf(st.agents[input.agent]) != Assigned
    modifies st
    ensures st.Valid() && st.order == old(st.order) && st.now == old(st.now)
    ensures input.agent !in old(st.agents) ==> st.agents == old(st.agents) && st.events == old(st.events)
    ensures input.agent in old(st.agents) ==>
      var a := old(st.agents)[input.agent];
      var s := StateOf(a);
      if s == Working || s == AwaitingApproval then
        && st.agents == old(st.agents)[input.agent := SettledRow(a, input, o)]
        && st.events == old(st.events) + Along(input.agent, s, Closing(s, input, o))
      else st.agents == old(st.agents) && st.events == old(st.events)
  {
    var s := st.LifecycleState(input.agent);
    if s.None? || s.value !in BUSY_STATES {
      return;
    }
    if o.skipped {
      var _ := st.TransitionAgent(input.agent, Standby, Patch(None, None, Some(None), None));
      TrailOfOne(input.agent, s.value, Standby);
    } else if HasEvidence(input, o) {
      SettleVerified(st, input);
    } else {
      var _ := st.TransitionAgent(input.agent, Standby, Patch(None, None, Some(None), None));
      st.RecordAgentSuccess(input.agent);
      TrailOfOne(input.agent, s.value, Standby);
    }
  }

  /** A run with evidence: back to standby through verification, and counted as a success. */
  method SettleVerified(st: AgentStore, input: Input)
    requires st.Valid() && input.agent in st.agents && CanTransition(StateOf(st.agents[input.agent]), Completed)
    modifies st
    ensures st.Valid() && st.order == old(st.order) && st.now == old(st.now)
    ensures
      var a := old(st.agents)[input.agent];
      && st.agents == old(st.agents)[input.agent :=
           a.(state := Some(Standby), status := Some("active"), successes := Increment(a.successes), cooldownUntil := None)]
      && st.events == old(st.events) + Along(input.agent, StateOf(a), [Completed, Verified, Standby])
  {
    var id := input.agent;
    ghost var agents, a := st.agents, st.agents[id];
    Verify(st, id);
    st.RecordAgentSuccess(id);
    SameKeyTwice(agents, id, WithState(a, Standby, NO_PATCH),
      WithState(a, Standby, NO_PATCH).(successes := Increment(a.successes), cooldownUntil := None));
  }

  /** working -> completed -> verified -> standby, stopping at the first illegal step. */
  method Verify(st: AgentStore, id: string)
    requires st.Valid() && id in st.agents && CanTransition(StateOf(st.agents[id]), Completed)
    modifies st
    ensures st.Valid() && st.order == old(st.order) && st.now == old(st.now)
    ensures
      var a := old(st.agents)[id];
      && st.agents == old(st.agents)[id := WithState(a, Standby, NO_PATCH)]
      && st.events == old(st.events) + Along(id, StateOf(a), [Completed, Verified, Standby])
  {
    ghost var agents, a := st.agents, st.agents[id];
    TrailOfThree(id, StateOf(a), Completed, Verified, Standby);
    SameKeyTwice(agents, id, WithState(a, Completed, NO_PATCH), WithState(a, Verified, NO_PATCH));
    SameKeyTwice(agents, id, WithState(a, Verified, NO_PATCH), WithState(a, Standby, NO_PATCH));
    var r := st.TransitionAgent(id, Completed, NO_PATCH);
    if !r.Illegal? {
      r := st.TransitionAgent(id, Verified, NO_PATCH);
      if !r.Illegal? {
        r := st.TransitionAgent(id, Standby, NO_PATCH);
      }
    }
  }

  function SettledRow(a: Agent, input: Input, o: Outcome): Agent
    requires o.Returned?
  {
    a.(state := Some(Standby), status := Some("active"),
       currentTask := if o.skipped || !HasEvidence(input, o) then None else a.currentTask,
       successes := if o.skipped then a.successes else Increment(a.successes),
       cooldownUntil := if o.skipped then a.cooldownUntil else None)
  }

  /** `elapsed` is how long the runner takes; an exception outside the two swallowing blocks is passed on. */
  method RunWithActivation(st: AgentStore, input: Input, o: Outcome, elapsed: nat) returns (threw: bool)
    requires st.Valid()
    modifies st
    ensures st.Valid() && st.order == old(st.order) && st.now == old(st.now) + (if o.NotRecorded? then 0 else elapsed)
    ensures threw <==> o.NotRecorded? || o.Threw? || o.ThrewUnreadably?
    ensures input.agent !in old(st.agents) ==> st.agents == old(st.agents) && st.events == old(st.events)
    ensures input.agent in old(st.agents) ==>
      var a := old(st.agents)[input.agent];
      var s := StateOf(a);
      && st.agents == old(st.agents)[input.agent := FinalRow(a, input, o, st.now)]
      && st.events == old(st.events) + Along(input.agent, s, Opening(s, !o.NotRecorded?))
                                     + Along(input.agent, WorkState(s), Closing(s, input, o))
  {
    Open(st, input, !o.NotRecorded?);
    threw := Rejects(o);
    st.now := st.now + Elapsed(o, elapsed);
    Conclude(st, input, o);
    if input.agent in old(st.agents) {
      ghost var a := old(st.agents)[input.agent];
      ConcludedIs(a, input, o, st.now);
      SameKeyTwice(old(st.agents), input.agent, Opened(a, input, !o.NotRecorded?), FinalRow(a, input, o, st.now));
    }
  }

  /** Steps 5 and 6, from what the runner did on. A rejection without a readable message throws before the
      agent is blocked, and an unusable result before it is settled; the second exception is swallowed. */
  method Conclude(st: AgentStore, input: Input, o: Outcome)
    requires st.Valid()
    requires o.Returned? && input.agent in st.agents ==>
      StateOf(st.agents[input.agent]) != Triggered && StateOf(st.agents[input.agent]) != Assigned
    modifies st
    ensures st.Valid() && st.order == old(st.order) && st.now == old(st.now)
    ensures input.agent !in old(st.agents) ==> st.agents == old(st.agents) && st.events == old(st.events)
    ensures input.agent in old(st.agents) ==>
      var b := old(st.agents)[input.agent];
      && st.agents == old(st.agents)[input.agent := Concluded(b, input, o, st.now)]
      && st.events == old(st.events) + ConcludedTrail(b, input, o)
  {
    if o.Threw? {
      st.BlockAgent(input.agent, input.failure);
    } else if o.Returned? {
      Settle(st, input, o);
    }
    if input.agent in st.agents {
      SameRow(st.agents, input.agent);
    }
  }

  function Concluded(b: Agent, input: Input, o: Outcome, end: int): Agent {
    match o
    case Threw => Blocking(b, end, input.failure)
    case Returned(_, _, _) => if StateOf(b) == Working || StateOf(b) == AwaitingApproval then SettledRow(b, input, o) else b
    case _ => b
  }

  function ConcludedTrail(b: Agent, input: Input, o: Outcome): seq<Event> {
    var s := StateOf(b);
    match o
    case Threw => [Event(input.agent, Some(s), if CanTransition(s, Blocked) then Blocked else s)]
    case Returned(_, _, _) => if s == Working || s == AwaitingApproval then Along(input.agent, s, Closing(s, input, o)) else []
    case _ => []
  }

  lemma ConcludedIs(a: Agent, input: Input, o: Outcome, end: int)
    ensures var b := Opened(a, input, !o.NotRecorded?);
            && Concluded(b, input, o, end) == FinalRow(a, input, o, end)
            && ConcludedTrail(b, input, o) == Along(input.agent, WorkState(StateOf(a)), Closing(StateOf(a), input, o))
  {
    var s := WorkState(StateOf(a));
    FinalRowIs(a, input, o, end);
    TrailOfOne(input.agent, s, Blocked);
    TrailOfOne(input.agent, s, s);
  }

  /** What opening and then blocking or settling makes of a row is what the table says. */
  lemma FinalRowIs(a: Agent, input: Input, o: Outcome, end: int)
    ensures StateOf(Opened(a, input, true)) == WorkState(StateOf(a))
    ensures o.Threw? ==> FinalRow(a, input, o, end) == Blocking(Opened(a, input, true), end, input.failure)
    ensures o.Returned? ==>
      FinalRow(a, input, o, end)
        == if Runs(StateOf(a)) then SettledRow(Opened(a, input, true), input, o) else Opened(a, input, true)
    ensures CutShort(o) ==> FinalRow(a, input, o, end) == Opened(a, input, !o.NotRecorded?)
  {
    if o.Threw? {
      BlockedRowIs(a, input, end);
    } else if o.Returned? {
      SettledRowIs(a, input, o, end);
    } else {
      CutShortRowIs(a, input, o, end);
    }
  }

  lemma BlockedRowIs(a: Agent, input: Input, end: int)
    ensures FinalRow(a, input, Threw, end) == Blocking(Opened(a, input, true), end, input.failure)
  {
  }

  lemma SettledRowIs(a: Agent, input: Input, o: Outcome, end: int)
    requires o.Returned?
    ensures FinalRow(a, input, o, end)
         == if Runs(StateOf(a)) then SettledRow(Opened(a, input, true), input, o) else Opened(a, input, true)
  {
  }

  lemma CutShortRowIs(a: Agent, input: Input, o: Outcome, end: int)
    requires CutShort(o)
    ensures FinalRow(a, input, o, end) == Opened(a, input, !o.NotRecorded?)
  {
  }

  /** The state in which the runner is called. */
  function WorkState(s: State): State {
    if s == Standby || s == Triggered || s == Assigned then Working else s
  }
}
