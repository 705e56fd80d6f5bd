/** The bounded diagnosis loop, run against an arbitrary model, parser and tool set.
    Source: server/agents/tool-loop.ts. */
module ToolLoop {
  import opened Collections

  datatype Role = User | Assistant

  datatype Message = Message(role: Role, content: string)

  /** What the JSON extractor makes of a reply. `tool` is the trimmed, non-blank `tool` string, if there
      is one; `args` and `own` are the printed forms of `args` (an object, or `{}`) and of the reply. */
  datatype Parsed = Unparseable | Parsed(tool: Option<string>, done: bool, args: string,
                                         findings: Option<string>, own: string)

  datatype Reply = Threw | Reply(content: string, costUsd: real, parsed: Parsed)

  datatype ToolResult = Ok(observation: string) | NotOk(error: string) | ToolThrew(message: string)

  datatype StoppedReason = Done | MaxIterations | CostCeiling | RepeatedCalls | ParseFailure | Error

  datatype Result = Result(findings: Option<string>, iterations: nat, toolCalls: nat, costUsd: real,
                           stoppedReason: StoppedReason)

  /** The loop's fixed sentences, and the printed forms `JSON.stringify({ tool, args })` and `tool:<name>`;
      only which of them is sent matters here. */
  datatype Texts = Texts(rePrompt: string, summarise: string, unknown: string -> string, forbidden: string -> string,
                         action: (string, string) -> string, source: string -> string)

  /** Everything the loop cannot control: the model answers the `n`-th call however it likes, given all it
      has been shown; so do the tools. `readOnly` is the registry, with a flag for every name it resolves
      (inherited ones included), and `wrap` sanitises an observation. */
  datatype World = World(llm: (nat, seq<Message>) -> Reply, run: (nat, string, string) -> ToolResult,
                         readOnly: map<string, bool>, wrap: (string, string) -> string, texts: Texts)

  datatype Options = Options(objective: string, maxIterations: int, costCeilingUsd: real, maxObservationChars: int)

  // ----- what one finished iteration leaves behind -----

  /** A reply that was re-prompted, or a tool request with what was observed. */
  datatype Turn = Reprompted(content: string)
                | Requested(tool: string, args: string, executed: bool, observation: string)

  function AssistantText(w: World, t: Turn): string {
    match t
    case Reprompted(content) => content
    case Requested(tool, args, _, _) => w.texts.action(tool, args)
  }

  function UserText(w: World, o: Options, t: Turn): string {
    match t
    case Reprompted(_) => w.texts.rePrompt
    case Requested(tool, _, _, observation) =>
      w.wrap(SlicePrefix(observation, o.maxObservationChars), w.texts.source(tool))
  }

  /** The whole conversation, told by its turns. */
  function Transcript(w: World, o: Options, turns: seq<Turn>): seq<Message> {
    if turns == [] then [Message(User, o.objective)]
    else
      var n := |turns| - 1;
      Transcript(w, o, turns[..n])
      + [Message(Assistant, AssistantText(w, turns[n])), Message(User, UserText(w, o, turns[n]))]
  }

  function Executed(turns: seq<Turn>): nat {
    if turns == [] then 0
    else
      var n := |turns| - 1;
      Executed(turns[..n]) + (if turns[n].Requested? && turns[n].executed then 1 else 0)
  }

  /** The tool requests among the turns, parse failures in between left out. */
  function Requests(turns: seq<Turn>): seq<(string, string)> {
    if turns == [] then []
    else
      var n := |turns| - 1;
      Requests(turns[..n]) + (if turns[n].Requested? then [(turns[n].tool, turns[n].args)] else [])
  }

  function Sum(costs: seq<real>): real {
    if costs == [] then 0.0 else Sum(costs[..|costs| - 1]) + costs[|costs| - 1]
  }

  function CallHash(tool: string, args: string): string {
    tool + ":" + args
  }

  // ----- one iteration -----

  function Refusal(w: World, tool: string): string {
    if tool !in w.readOnly then w.texts.unknown(tool) else w.texts.forbidden(tool)
  }

  function Observed(tool: string, r: ToolResult): string {
    match r
    case Ok(observation) => observation
    case NotOk(error) => "ERROR: " + error
    case ToolThrew(message) => "ERROR: tool \"" + tool + "\" threw: " + message
  }

  function FindingsOf(p: Parsed): Option<string>
    requires p.Parsed?
  {
    if p.findings.Some? then p.findings else Some(p.own)
  }

  function CostOf(reply: Reply): real {
    if reply.Reply? then reply.costUsd else 0.0
  }

  /** What the model calls behind the turns cost, one entry per call. */
  function CostsOf(w: World, o: Options, turns: seq<Turn>): seq<real> {
    if turns == [] then []
    else
      var n := |turns| - 1;
      CostsOf(w, o, turns[..n]) + [CostOf(w.llm(n, Transcript(w, o, turns[..n])))]
  }

  ghost predicate BelowCeiling(w: World, o: Options, turns: seq<Turn>) {
    o.costCeilingUsd > 0.0 ==> Sum(CostsOf(w, o, turns)) < o.costCeilingUsd
  }

  /** `hash` would be the third identical request in a row. */
  ghost predicate RepeatsLastTwo(requests: seq<(string, string)>, hash: string) {
    var n := |requests|;
    n >= 2 && CallHash(requests[n - 1].0, requests[n - 1].1) == hash == CallHash(requests[n - 2].0, requests[n - 2].1)
  }

  /** `t` is the turn the loop takes after `before`: the model is called, below the ceiling, with the
      whole conversation; what it asks for is re-prompted, or dispatched unless it repeats itself; only
      registered read-only tools run, everything else is refused. */
  ghost predicate Next(w: World, o: Options, before: seq<Turn>, t: Turn) {
    var reply := w.llm(|before|, Transcript(w, o, before));
    && BelowCeiling(w, o, before)
    && reply.Reply?
    && match t
       case Reprompted(content) =>
         && (reply.parsed.Unparseable? || (reply.parsed.tool.Some? && reply.parsed.done))
         && content == SlicePrefix(reply.content, 500)
       case Requested(tool, args, executed, observation) =>
         && reply.parsed.Parsed? && reply.parsed.tool == Some(tool) && !reply.parsed.done && reply.parsed.args == args
         && !RepeatsLastTwo(Requests(before), CallHash(tool, args))
         && (executed <==> tool in w.readOnly && w.readOnly[tool])
         && observation == (if executed then Observed(tool, w.run(Executed(before), tool, args)) else Refusal(w, tool))
  }

  /** A possible sequence of completed iterations. */
  ghost predicate Running(w: World, o: Options, turns: seq<Turn>)
    decreases |turns|
  {
    turns == []
    || (var n := |turns| - 1; Running(w, o, turns[..n]) && Next(w, o, turns[..n], turns[n]))
  }

  /** The repeat guard's two variables, as the requests so far leave them. */
  function Watch(turns: seq<Turn>): (Option<string>, nat) {
    if turns == [] then (None, 0)
    else
      var n := |turns| - 1;
      var before := Watch(turns[..n]);
      match turns[n]
      case Reprompted(_) => before
      case Requested(tool, args, _, _) =>
        if before.0 == Some(CallHash(tool, args)) then (before.0, before.1 + 1) else (Some(CallHash(tool, args)), 0)
  }

  /** The two variables recognise a third identical request, parse failures in between or not. */
  lemma {:induction false} WatchMeans(turns: seq<Turn>, hash: string)
    ensures RepeatsLastTwo(Requests(turns), hash) <==> Watch(turns).0 == Some(hash) && Watch(turns).1 >= 1
    ensures Watch(turns).0 == Some(hash) <==>
              (var q := Requests(turns); q != [] && CallHash(q[|q| - 1].0, q[|q| - 1].1) == hash)
  {
    if turns != [] {
      var n := |turns| - 1;
      WatchMeans(turns[..n], hash);
      if turns[n].Requested? {
        WatchMeans(turns[..n], CallHash(turns[n].tool, turns[n].args));
      }
    }
  }

  lemma AddTurn(w: World, o: Options, turns: seq<Turn>, t: Turn)
    requires Running(w, o, turns) && Next(w, o, turns, t)
    ensures Running(w, o, turns + [t])
    ensures Transcript(w, o, turns + [t])
         == Transcript(w, o, turns) + [Message(Assistant, AssistantText(w, t)), Message(User, UserText(w, o, t))]
    ensures Sum(CostsOf(w, o, turns + [t]))
         == Sum(CostsOf(w, o, turns)) + CostOf(w.llm(|turns|, Transcript(w, o, turns)))
    ensures Executed(turns + [t]) == Executed(turns) + (if t.Requested? && t.executed then 1 else 0)
    ensures Watch(turns + [t]) ==
      match t
      case Reprompted(_) => Watch(turns)
      case Requested(tool, args, _, _) =>
        if Watch(turns).0 == Some(CallHash(tool, args)) then (Watch(turns).0, Watch(turns).1 + 1)
        else (Some(CallHash(tool, args)), 0)
  {
    AddTurnRuns(w, o, turns, t);
    AddTurnTells(w, o, turns, t);
    AddTurnCosts(w, o, turns, t);
    AddTurnCounts(turns, t);
  }

  lemma AddTurnRuns(w: World, o: Options, turns: seq<Turn>, t: Turn)
    requires Running(w, o, turns) && Next(w, o, turns, t)
    ensures Running(w, o, turns + [t])
  {
    var all := turns + [t];
    assert all[..|turns|] == turns && all[|turns|] == t;
  }

  lemma AddTurnTells(w: World, o: Options, turns: seq<Turn>, t: Turn)
    ensures Transcript(w, o, turns + [t])
         == Transcript(w, o, turns) + [Message(Assistant, AssistantText(w, t)), Message(User, UserText(w, o, t))]
  {
    var all := turns + [t];
    assert all[..|turns|] == turns && all[|turns|] == t;
  }

  lemma AddTurnCosts(w: World, o: Options, turns: seq<Turn>, t: Turn)
    ensures Sum(CostsOf(w, o, turns + [t]))
         == Sum(CostsOf(w, o, turns)) + CostOf(w.llm(|turns|, Transcript(w, o, turns)))
  {
    var all := turns + [t];
    assert all[..|turns|] == turns;
    AddCost(CostsOf(w, o, turns), CostOf(w.llm(|turns|, Transcript(w, o, turns))));
  }

  lemma AddTurnCounts(turns: seq<Turn>, t: Turn)
    ensures Executed(turns + [t]) == Executed(turns) + (if t.Requested? && t.executed then 1 else 0)
    ensures Watch(turns + [t]) ==
      match t
      case Reprompted(_) => Watch(turns)
      case Requested(tool, args, _, _) =>
        if Watch(turns).0 == Some(CallHash(tool, args)) then (Watch(turns).0, Watch(turns).1 + 1)
        else (Some(CallHash(tool, args)), 0)
  {
    var all := turns + [t];
    assert all[..|turns|] == turns && all[|turns|] == t;
  }

  // ----- how a run ends -----

  /** The loop as it stands when it is left: its completed turns, the iterations it counted, and why. */
  ghost predicate Ended(w: World, o: Options, turns: seq<Turn>, iterations: nat, reason: StoppedReason) {
    var n := |turns|;
    var reply := w.llm(n, Transcript(w, o, turns));
    match reason
    case MaxIterations => iterations == n >= o.maxIterations
    case CostCeiling =>
      iterations == n + 1 && o.costCeilingUsd > 0.0 && Sum(CostsOf(w, o, turns)) >= o.costCeilingUsd
    case Done => iterations == n + 1 && reply.Reply? && reply.parsed.Parsed? && reply.parsed.tool.None?
    case RepeatedCalls =>
      && iterations == n + 1 && reply.Reply? && reply.parsed.Parsed? && reply.parsed.tool.Some? && !reply.parsed.done
      && RepeatsLastTwo(Requests(turns), CallHash(reply.parsed.tool.value, reply.parsed.args))
    case Error => iterations == n + 1 && reply.Threw?
    case ParseFailure => false
  }

  /** Whether the last, unfinished iteration called the model. */
  predicate LastIterationCalled(reason: StoppedReason) {
    reason == Done || reason == RepeatedCalls || reason == Error
  }

  function Limit(o: Options): nat {
    if o.maxIterations > 0 then o.maxIterations else 0
  }

  /** The loop's variables at the top of an iteration. */
  datatype State = State(turns: seq<Turn>, messages: seq<Message>, toolCalls: nat, costUsd: real,
                         lastHash: Option<string>, repeats: nat)

  ghost predicate Good(w: World, o: Options, s: State) {
    && Running(w, o, s.turns) && s.messages == Transcript(w, o, s.turns)
    && s.toolCalls == Executed(s.turns) && s.costUsd == Sum(CostsOf(w, o, s.turns))
    && (s.lastHash, s.repeats) == Watch(s.turns)
  }

  /** The while loop. */
  method Loop(w: World, o: Options)
    returns (s: State, iterations: nat, findings: Option<string>, stopped: StoppedReason, costUsd: real)
    ensures Good(w, o, s) && |s.turns| <= iterations <= Limit(o)
    ensures Ended(w, o, s.turns, iterations, stopped)
    ensures LastIterationCalled(stopped) ==> BelowCeiling(w, o, s.turns)
    ensures costUsd == s.costUsd + (if LastIterationCalled(stopped) then CostOf(w.llm(|s.turns|, s.messages)) else 0.0)
    ensures findings == if stopped == Done then FindingsOf(w.llm(|s.turns|, s.messages).parsed) else None
  {
    s := State([], [Message(User, o.objective)], 0, 0.0, None, 0);
    iterations, findings, stopped, costUsd := 0, None, MaxIterations, 0.0;
    while iterations < o.maxIterations
      invariant iterations == |s.turns| <= Limit(o)
      invariant Good(w, o, s) && costUsd == s.costUsd
      invariant findings == None && stopped == MaxIterations
    {
      iterations := iterations + 1;
      var exit;
      exit, s, findings, costUsd := Iterate(w, o, s, iterations);
      if exit.Some? {
        stopped := exit.value;
        break;
      }
    }
  }

  /** The body of the loop: one completed turn, or the reason to leave. */
  method Iterate(w: World, o: Options, s: State, ghost iterations: nat)
    returns (exit: Option<StoppedReason>, s': State, findings: Option<string>, costUsd: real)
    requires Good(w, o, s) && iterations == |s.turns| + 1
    ensures exit == None ==> Good(w, o, s') && |s'.turns| == iterations && costUsd == s'.costUsd && findings == None
    ensures exit.Some? ==>
      && s' == s && exit != Some(MaxIterations)
      && Ended(w, o, s.turns, iterations, exit.value)
      && (LastIterationCalled(exit.value) ==> BelowCeiling(w, o, s.turns))
      && costUsd == s.costUsd + (if LastIterationCalled(exit.value) then CostOf(w.llm(|s.turns|, s.messages)) else 0.0)
      && findings == if exit.value == Done then FindingsOf(w.llm(|s.turns|, s.messages).parsed) else None
  {
    s', findings, costUsd := s, None, s.costUsd;
    if o.costCeilingUsd > 0.0 && costUsd >= o.costCeilingUsd {
      return Some(CostCeiling), s, None, costUsd;
    }
    var res := w.llm(|s.turns|, s.messages);
    if res.Threw? {
      return Some(Error), s, None, costUsd;
    }
    costUsd := costUsd + res.costUsd;
    if res.parsed.Unparseable? || (res.parsed.tool.Some? && res.parsed.done) {
      s' := Reprompt(w, o, s, res);
      return None, s', None, costUsd;
    }
    if res.parsed.tool.None? {
      return Some(Done), s, FindingsOf(res.parsed), costUsd;
    }
    var stop;
    stop, s' := Request(w, o, s, res);
    exit := if stop then Some(RepeatedCalls) else None;
  }

  /** A parse failure, or a reply that both asks and answers: one more exchange, nothing else. */
  method Reprompt(w: World, o: Options, s: State, res: Reply) returns (s': State)
    requires Good(w, o, s) && res == w.llm(|s.turns|, s.messages) && res.Reply?
    requires res.parsed.Unparseable? || (res.parsed.tool.Some? && res.parsed.done)
    requires BelowCeiling(w, o, s.turns)
    ensures Good(w, o, s') && |s'.turns| == |s.turns| + 1 && s'.costUsd == s.costUsd + res.costUsd
  {
    var turn := Reprompted(SlicePrefix(res.content, 500));
    AddTurn(w, o, s.turns, turn);
    s' := s.(turns := s.turns + [turn], costUsd := s.costUsd + res.costUsd,
             messages := s.messages + [Message(Assistant, turn.content), Message(User, w.texts.rePrompt)]);
  }

  /** A tool request: refused as a repetition, or dispatched and answered. */
  method Request(w: World, o: Options, s: State, res: Reply) returns (stop: bool, s': State)
    requires Good(w, o, s) && res == w.llm(|s.turns|, s.messages)
    requires res.Reply? && res.parsed.Parsed? && res.parsed.tool.Some? && !res.parsed.done
    requires BelowCeiling(w, o, s.turns)
    ensures stop <==> RepeatsLastTwo(Requests(s.turns), CallHash(res.parsed.tool.value, res.parsed.args))
    ensures stop ==> s' == s
    ensures !stop ==> Good(w, o, s') && |s'.turns| == |s.turns| + 1 && s'.costUsd == s.costUsd + res.costUsd
  {
    var tool, args := res.parsed.tool.value, res.parsed.args;
    var lastHash, repeats;
    stop, lastHash, repeats := RepeatGuard(s.turns, s.lastHash, s.repeats, CallHash(tool, args));
    if stop {
      return true, s;
    }
    var observation, executed := Dispatch(w, s.toolCalls, tool, args);
    var turn := Requested(tool, args, executed, observation);
    s' := State(s.turns + [turn],
                s.messages + [Message(Assistant, AssistantText(w, turn)), Message(User, UserText(w, o, turn))],
                s.toolCalls + (if executed then 1 else 0), s.costUsd + res.costUsd, lastHash, repeats);
    StaysGood(w, o, s, turn, res, s');
  }

  lemma StaysGood(w: World, o: Options, s: State, turn: Turn, res: Reply, s': State)
    requires Good(w, o, s) && Next(w, o, s.turns, turn) && res == w.llm(|s.turns|, s.messages) && res.Reply? && turn.Requested?
    requires s'.turns == s.turns + [turn] && s'.costUsd == s.costUsd + res.costUsd
    requires s'.messages == s.messages + [Message(Assistant, AssistantText(w, turn)), Message(User, UserText(w, o, turn))]
    requires s'.toolCalls == s.toolCalls + (if turn.executed then 1 else 0)
    requires var hash := CallHash(turn.tool, turn.args);
             s'.lastHash == Some(hash) && s'.repeats == if s.lastHash == Some(hash) then s.repeats + 1 else 0
    ensures Good(w, o, s')
  {
    AddTurn(w, o, s.turns, turn);
  }

  /** The repeated-identical-call guard: a third identical request in a row stops the loop. */
  method RepeatGuard(turns: seq<Turn>, lastHash0: Option<string>, repeats0: nat, hash: string)
    returns (stop: bool, lastHash: Option<string>, repeats: nat)
    requires (lastHash0, repeats0) == Watch(turns)
    ensures stop <==> RepeatsLastTwo(Requests(turns), hash)
    ensures !stop ==> lastHash == Some(hash) && repeats == if Watch(turns).0 == Some(hash) then Watch(turns).1 + 1 else 0
  {
    WatchMeans(turns, hash);
    stop, lastHash, repeats := false, lastHash0, repeats0;
    if Some(hash) == lastHash {
      repeats := repeats + 1;
      if repeats >= 2 {
        stop := true;
      }
    } else {
      repeats := 0;
      lastHash := Some(hash);
    }
  }

  lemma AddCost(costs: seq<real>, c: real)
    ensures Sum(costs + [c]) == Sum(costs) + c
  {
    assert (costs + [c])[..|costs|] == costs;
  }

  /** Registry-only dispatch with the read-only guard. */
  method Dispatch(w: World, toolCalls: nat, tool: string, args: string) returns (observation: string, executed: bool)
    ensures executed <==> tool in w.readOnly && w.readOnly[tool]
    ensures observation == if executed then Observed(tool, w.run(toolCalls, tool, args)) else Refusal(w, tool)
  {
    if tool !in w.readOnly {
      observation, executed := w.texts.unknown(tool), false;
    } else if !w.readOnly[tool] {
      observation, executed := w.texts.forbidden(tool), false;
    } else {
      executed := true;
      observation := Observed(tool, w.run(toolCalls, tool, args));
    }
  }

  /** The loop, and one forced summary unless the model finished by itself. `reason` is why the loop was
      left and `calls` counts every call of the model. */
  method RunToolLoop(w: World, o: Options)
    returns (r: Result, turns: seq<Turn>, messages: seq<Message>, reason: StoppedReason, calls: nat)
    ensures Running(w, o, turns) && messages == Transcript(w, o, turns)
    ensures |turns| <= r.iterations && Ended(w, o, turns, r.iterations, reason)
    ensures r.iterations <= (if o.maxIterations < 0 then 0 else o.maxIterations) && calls <= r.iterations + 1
    ensures r.toolCalls == Executed(turns) <= |turns|
    ensures r.stoppedReason != ParseFailure && (r.stoppedReason == Done <==> reason == Done)
    ensures reason == Done ==>
      var reply := w.llm(|turns|, messages);
      && reply.Reply? && reply.parsed.Parsed? && reply.parsed.tool.None?
      && r.findings == Some(if reply.parsed.findings.Some? then reply.parsed.findings.value else reply.parsed.own)
    // every call is counted and paid for: one a turn, the last one, and the summary unless the model finished
    ensures calls == |turns| + (if reason in {Done, RepeatedCalls, Error} then 1 else 0) + (if reason == Done then 0 else 1)
    ensures reason != Done ==>
      var summary := w.llm(calls - 1, messages + [Message(User, w.texts.summarise)]);
      && r.stoppedReason == (if summary.Threw? then Error else reason)
      && r.findings == if summary.Reply? && summary.parsed.Parsed? then FindingsOf(summary.parsed) else None
    ensures LastIterationCalled(reason) ==> BelowCeiling(w, o, turns)
    ensures
      var last, summary := w.llm(|turns|, messages), w.llm(calls - 1, messages + [Message(User, w.texts.summarise)]);
      r.costUsd == Sum(CostsOf(w, o, turns))
                   + (if reason in {Done, RepeatedCalls} && last.Reply? then last.costUsd else 0.0)
                   + (if reason != Done && summary.Reply? then summary.costUsd else 0.0)
  {
    var s, iterations, findings, stopped, costUsd := Loop(w, o);
    turns, messages := s.turns, s.messages;
    reason := stopped;
    ExecutedAtMostTurns(turns);
    calls := |turns| + (if LastIterationCalled(reason) then 1 else 0);
    if findings.None? {
      var summary := w.llm(calls, messages + [Message(User, w.texts.summarise)]);
      calls := calls + 1;
      findings, costUsd, stopped := ReadSummary(summary, costUsd, stopped);
    }
    r := Result(findings, iterations, s.toolCalls, costUsd, stopped);
  }

  /** What the forced summary adds; one that cannot be parsed keeps the reason of the loop. */
  method ReadSummary(summary: Reply, cost0: real, stopped0: StoppedReason)
    returns (findings: Option<string>, costUsd: real, stopped: StoppedReason)
    ensures costUsd == cost0 + CostOf(summary)
    ensures stopped == if summary.Threw? then Error else stopped0
    ensures findings == if summary.Reply? && summary.parsed.Parsed? then FindingsOf(summary.parsed) else None
  {
    findings, costUsd, stopped := None, cost0, stopped0;
    if summary.Reply? {
      costUsd := costUsd + summary.costUsd;
      if summary.parsed.Parsed? {
        findings := FindingsOf(summary.parsed);
      }
    } else {
      stopped := Error;
    }
  }

  // ----- what follows for every run -----

  /** The conversation strictly alternates, and its opening message is followed by two per completed
      iteration: what the assistant said, cut to 500 characters, and the fixed re-prompt; or the request it
      made and the observation, cut and wrapped under the tool's name. */
  lemma {:induction false} ConversationAlternates(w: World, o: Options, turns: seq<Turn>)
    ensures var ms := Transcript(w, o, turns);
            && |ms| == 1 + 2 * |turns|
            && ms[0] == Message(User, o.objective)
            && (forall i :: 0 <= i < |ms| ==> (ms[i].role == User <==> i % 2 == 0))
            && forall i :: 0 <= i < |turns| ==>
                 match turns[i]
                 case Reprompted(content) => ms[2 * i + 1].content == content && ms[2 * i + 2].content == w.texts.rePrompt
                 case Requested(tool, args, _, observation) =>
                   && ms[2 * i + 1].content == w.texts.action(tool, args)
                   && ms[2 * i + 2].content == w.wrap(SlicePrefix(observation, o.maxObservationChars), w.texts.source(tool))
  {
    RolesAlternate(w, o, turns);
    forall i | 0 <= i < |turns|
      ensures var ms := Transcript(w, o, turns);
              ms[2 * i + 1].content == AssistantText(w, turns[i]) && ms[2 * i + 2].content == UserText(w, o, turns[i])
    {
      TurnIsTold(w, o, turns, i);
    }
  }

  lemma {:induction false} RolesAlternate(w: World, o: Options, turns: seq<Turn>)
    ensures var ms := Transcript(w, o, turns);
            && |ms| == 1 + 2 * |turns|
            && ms[0] == Message(User, o.objective)
            && (forall i :: 0 <= i < |ms| ==> (ms[i].role == User <==> i % 2 == 0))
  {
    if turns != [] {
      RolesAlternate(w, o, turns[..|turns| - 1]);
    }
  }

  lemma {:induction false} TurnIsTold(w: World, o: Options, turns: seq<Turn>, i: nat)
    requires i < |turns|
    ensures var ms := Transcript(w, o, turns);
            && |ms| == 1 + 2 * |turns|
            && ms[2 * i + 1].content == AssistantText(w, turns[i]) && ms[2 * i + 2].content == UserText(w, o, turns[i])
  {
    var n := |turns| - 1;
    RolesAlternate(w, o, turns);
    RolesAlternate(w, o, turns[..n]);
    if i < n {
      TurnIsTold(w, o, turns[..n], i);
    }
  }

  /** In every run, a turn is a request exactly if the reply is parsed, names a tool and does not say it is
      done, and a re-prompt exactly if the reply cannot be parsed or says both; and it cost what the reply
      says. */
  lemma {:induction false} TurnsFollowReplies(w: World, o: Options, turns: seq<Turn>, i: nat)
    requires Running(w, o, turns) && i < |turns|
    ensures |CostsOf(w, o, turns)| == |turns|
    ensures var reply := w.llm(i, Transcript(w, o, turns[..i]));
      && reply.Reply? && CostsOf(w, o, turns)[i] == reply.costUsd
      && (turns[i].Requested? <==> reply.parsed.Parsed? && reply.parsed.tool.Some? && !reply.parsed.done)
      && (turns[i].Reprompted? <==> reply.parsed.Unparseable? || (reply.parsed.tool.Some? && reply.parsed.done))
      && (turns[i].Requested? ==> Some(turns[i].tool) == reply.parsed.tool && turns[i].args == reply.parsed.args)
      && (turns[i].Reprompted? ==> turns[i].content <= reply.content
                                   && |turns[i].content| == if |reply.content| < 500 then |reply.content| else 500)
  {
    CostPerTurn(w, o, turns);
    if i < |turns| - 1 {
      var before := turns[..|turns| - 1];
      CostPerTurn(w, o, before);
      TurnsFollowReplies(w, o, before, i);
      assert before[..i] == turns[..i];
    }
  }

  lemma {:induction false} CostPerTurn(w: World, o: Options, turns: seq<Turn>)
    ensures |CostsOf(w, o, turns)| == |turns|
  {
    if turns != [] {
      CostPerTurn(w, o, turns[..|turns| - 1]);
    }
  }

  lemma {:induction false} ExecutedAtMostTurns(turns: seq<Turn>)
    ensures Executed(turns) <= |turns|
  {
    if turns != [] {
      ExecutedAtMostTurns(turns[..|turns| - 1]);
    }
  }

  /** If no call costs more than `c`, the loop stays below the ceiling plus one call, and the whole run
      below the ceiling plus two. */
  lemma BillIsBounded(w: World, o: Options, turns: seq<Turn>, reason: StoppedReason, last: real, summary: real, c: real)
    requires Running(w, o, turns) && o.costCeilingUsd > 0.0 && c >= 0.0 && last <= c && summary <= c
    requires forall n, ms :: w.llm(n, ms).Reply? ==> w.llm(n, ms).costUsd <= c
    requires if LastIterationCalled(reason) then BelowCeiling(w, o, turns) else last == 0.0
    ensures Sum(CostsOf(w, o, turns)) + last < o.costCeilingUsd + c
    ensures Sum(CostsOf(w, o, turns)) + last + summary < o.costCeilingUsd + 2.0 * c
  {
    if !LastIterationCalled(reason) && turns != [] {
      var n := |turns| - 1;
      assert Next(w, o, turns[..n], turns[n]);
      AddCost(CostsOf(w, o, turns[..n]), CostOf(w.llm(n, Transcript(w, o, turns[..n]))));
    }
  }

  /** Turn `j` is a request, and none comes between it and turn `k`. */
  ghost predicate LastRequest(turns: seq<Turn>, j: int, k: int) {
    && 0 <= j < k <= |turns| && turns[j].Requested?
    && forall m :: j < m < k ==> turns[m].Reprompted?
  }

  lemma {:induction false} RequestsEnd(turns: seq<Turn>, j: int)
    requires LastRequest(turns, j, |turns|)
    ensures Requests(turns) == Requests(turns[..j]) + [(turns[j].tool, turns[j].args)]
  {
    var n := |turns| - 1;
    if j < n {
      RequestsEnd(turns[..n], j);
      assert turns[..n][..j] == turns[..j];
      assert Requests(turns[..n]) + [] == Requests(turns[..n]);
    }
  }

  /** In no run are three requests the same between which, parse failures aside, nothing else was asked. */
  lemma RequestsNeverThrice(w: World, o: Options, turns: seq<Turn>, i: int, j: int, k: int)
    requires Running(w, o, turns) && LastRequest(turns, i, j) && LastRequest(turns, j, k)
    requires k < |turns| && turns[k].Requested?
    ensures !(turns[i].tool == turns[j].tool == turns[k].tool && turns[i].args == turns[j].args == turns[k].args)
  {
    RunningPrefix(w, o, turns, k);
    RequestsEnd(turns[..k], j);
    assert turns[..k][..j] == turns[..j];
    RequestsEnd(turns[..j], i);
  }

  lemma {:induction false} RunningPrefix(w: World, o: Options, turns: seq<Turn>, k: nat)
    requires Running(w, o, turns) && k < |turns|
    ensures Next(w, o, turns[..k], turns[k])
  {
    if k < |turns| - 1 {
      RunningPrefix(w, o, turns[..|turns| - 1], k);
      assert turns[..|turns| - 1][..k] == turns[..k];
    }
  }

  lemma {:induction false} FindLastRequest(turns: seq<Turn>) returns (j: int)
    requires Requests(turns) != []
    ensures LastRequest(turns, j, |turns|)
  {
    var n := |turns| - 1;
    if turns[n].Requested? {
      j := n;
    } else {
      j := FindLastRequest(turns[..n]);
    }
  }

  /** The loop gives up on a repeated call only after two requests of the very tool and arguments it is asked
      for a third time, with nothing but parse failures in between and since. */
  lemma RepeatedMeansThrice(w: World, o: Options, turns: seq<Turn>, iterations: nat) returns (i: int, j: int)
    requires Ended(w, o, turns, iterations, RepeatedCalls)
    ensures LastRequest(turns, i, j) && LastRequest(turns, j, |turns|)
    ensures var p := w.llm(|turns|, Transcript(w, o, turns)).parsed;
            && p.Parsed? && p.tool.Some?
            && turns[i].tool + ":" + turns[i].args == p.tool.value + ":" + p.args
            && turns[j].tool + ":" + turns[j].args == p.tool.value + ":" + p.args
  {
    j := FindLastRequest(turns);
    RequestsEnd(turns, j);
    i := FindLastRequest(turns[..j]);
    RequestsEnd(turns[..j], i);
  }

  /** At every turn of every run: the tool ran if and only if it is registered and read-only, as the call
      after those that ran before, and what was observed is what it returned, its error, or the refusal. */
  lemma OnlyReadOnlyToolsRun(w: World, o: Options, turns: seq<Turn>, i: nat)
    requires Running(w, o, turns) && i < |turns| && turns[i].Requested?
    ensures turns[i].executed <==> turns[i].tool in w.readOnly && w.readOnly[turns[i].tool]
    ensures turns[i].tool !in w.readOnly ==> turns[i].observation == w.texts.unknown(turns[i].tool)
    ensures turns[i].tool in w.readOnly && !turns[i].executed ==> turns[i].observation == w.texts.forbidden(turns[i].tool)
    ensures turns[i].executed ==>
      var earlier := |set k | 0 <= k < i && turns[k].Requested? && turns[k].executed|;
      turns[i].observation ==
        match w.run(earlier, turns[i].tool, turns[i].args)
        case Ok(observation) => observation
        case NotOk(error) => "ERROR: " + error
        case ToolThrew(message) => "ERROR: tool \"" + turns[i].tool + "\" threw: " + message
  {
    RunningPrefix(w, o, turns, i);
    ExecutedAre(turns[..i]);
    assert (set k | 0 <= k < i && turns[k].Requested? && turns[k].executed)
        == (set k | 0 <= k < |turns[..i]| && turns[..i][k].Requested? && turns[..i][k].executed);
  }

  lemma {:induction false} ExecutedAre(turns: seq<Turn>)
    ensures Executed(turns) == |set k | 0 <= k < |turns| && turns[k].Requested? && turns[k].executed|
  {
    var all := set k | 0 <= k < |turns| && turns[k].Requested? && turns[k].executed;
    if turns == [] {
      assert all == {};
    } else {
      var n := |turns| - 1;
      ExecutedAre(turns[..n]);
      var before := set k | 0 <= k < n && turns[..n][k].Requested? && turns[..n][k].executed;
      assert all == before + if turns[n].Requested? && turns[n].executed then {n} else {};
    }
  }
}
