/** Raising one issue per losing streak of an agent, from a scan of its last ten runs.
    Source: server/agents/agent-runner.ts, server/system/system-issues.ts. */
module FailureStreak {
  import opened Collections

  const THRESHOLD: nat := 3
  const SCAN_LIMIT: nat := 10

  datatype Status = Complete | Failed | Skipped | BlockedRun | Cancelled

  /** Rows of `agent_runs` in the order in which they started. */
  datatype RunRow = RunRow(agent: string, status: Status)

  datatype IssueStatus = Open | Acknowledged | Resolved | Dismissed

  /** A `system_issues` row of type `agent_consecutive_failures`. */
  datatype Issue = Issue(agent: string, status: IssueStatus, failures: nat)

  datatype Tables = Tables(runs: seq<RunRow>, issues: seq<Issue>)

  /** `status != 'skipped'`, for one agent, newest first. */
  function Recent(runs: seq<RunRow>, agent: string): seq<Status> {
    if runs == [] then []
    else
      var n := |runs| - 1;
      if runs[n].agent == agent && runs[n].status != Skipped then [runs[n].status] + Recent(runs[..n], agent)
      else Recent(runs[..n], agent)
  }

  /** `ORDER BY started_at DESC LIMIT 10` */
  function Limited(recent: seq<Status>): seq<Status> {
    recent[..if |recent| < SCAN_LIMIT then |recent| else SCAN_LIMIT]
  }

  function LeadingFailures(recent: seq<Status>): nat {
    if recent == [] || recent[0] != Failed then 0 else 1 + LeadingFailures(recent[1..])
  }

  /** How many runs in a row, counting back from the newest one that was not skipped, have failed. */
  function TrueStreak(runs: seq<RunRow>, agent: string): nat {
    if runs == [] then 0
    else
      var n := |runs| - 1;
      if runs[n].agent != agent || runs[n].status == Skipped then TrueStreak(runs[..n], agent)
      else if runs[n].status == Failed then TrueStreak(runs[..n], agent) + 1
      else 0
  }

  /** Run `i` is one of the agent's that was not skipped. */
  predicate Counts(runs: seq<RunRow>, agent: string, i: int) {
    0 <= i < |runs| && runs[i].agent == agent && runs[i].status != Skipped
  }

  /** Run `i` failed, and so did every later run of the agent that was not skipped. */
  ghost predicate InStreak(runs: seq<RunRow>, agent: string, i: int) {
    Counts(runs, agent, i) && forall j :: i <= j < |runs| && Counts(runs, agent, j) ==> runs[j].status == Failed
  }

  /** The streak is the number of those runs. */
  lemma {:induction false} StreakIs(runs: seq<RunRow>, agent: string)
    ensures TrueStreak(runs, agent) == |set i | 0 <= i < |runs| && InStreak(runs, agent, i)|
  {
    var streak := set i | 0 <= i < |runs| && InStreak(runs, agent, i);
    if runs == [] {
      assert streak == {};
    } else {
      var n := |runs| - 1;
      var earlier := runs[..n];
      var before := set i | 0 <= i < n && InStreak(earlier, agent, i);
      StreakIs(earlier, agent);
      StreakOfOneMoreRun(runs, earlier, agent, streak, before);
    }
  }

  lemma StreakOfOneMoreRun(runs: seq<RunRow>, earlier: seq<RunRow>, agent: string, streak: set<int>, before: set<int>)
    requires runs != [] && earlier == runs[..|runs| - 1]
    requires streak == set i | 0 <= i < |runs| && InStreak(runs, agent, i)
    requires before == set i | 0 <= i < |earlier| && InStreak(earlier, agent, i)
    ensures var n := |runs| - 1;
            streak == if !Counts(runs, agent, n) then before else if runs[n].status == Failed then before + {n} else {}
  {
    var n := |runs| - 1;
    forall i | 0 <= i < n
      ensures i in streak <==> i in before && (Counts(runs, agent, n) ==> runs[n].status == Failed)
    {
      StreakGoesOn(runs, agent, i);
    }
  }

  lemma StreakGoesOn(runs: seq<RunRow>, agent: string, i: int)
    requires 0 <= i < |runs| - 1
    ensures var n := |runs| - 1;
            InStreak(runs, agent, i) <==> InStreak(runs[..n], agent, i) && (Counts(runs, agent, n) ==> runs[n].status == Failed)
  {
    var n := |runs| - 1;
    forall j | 0 <= j < n ensures Counts(runs[..n], agent, j) <==> Counts(runs, agent, j) {
    }
  }

  lemma {:induction false} StreakIsLeadingFailures(runs: seq<RunRow>, agent: string)
    ensures TrueStreak(runs, agent) == LeadingFailures(Recent(runs, agent))
  {
    if runs != [] {
      var n := |runs| - 1;
      StreakIsLeadingFailures(runs[..n], agent);
      if runs[n].agent == agent && runs[n].status != Skipped {
        assert ([runs[n].status] + Recent(runs[..n], agent))[1..] == Recent(runs[..n], agent);
      }
    }
  }

  lemma {:induction false} LimitCaps(recent: seq<Status>, limit: nat)
    requires limit <= |recent|
    ensures LeadingFailures(recent[..limit]) == if LeadingFailures(recent) < limit then LeadingFailures(recent) else limit
  {
    if limit > 0 && recent[0] == Failed {
      LimitCaps(recent[1..], limit - 1);
      assert recent[..limit][1..] == recent[1..][..limit - 1];
    }
  }

  lemma {:induction false} FailuresFit(recent: seq<Status>)
    ensures LeadingFailures(recent) <= |recent|
  {
    if recent != [] {
      FailuresFit(recent[1..]);
    }
  }

  /** The bounded scan is as good as the whole history: it finds the true streak, up to ten. */
  lemma ScanAgrees(runs: seq<RunRow>, agent: string)
    ensures LeadingFailures(Limited(Recent(runs, agent)))
         == if TrueStreak(runs, agent) < SCAN_LIMIT then TrueStreak(runs, agent) else SCAN_LIMIT
  {
    var recent := Recent(runs, agent);
    StreakIsLeadingFailures(runs, agent);
    FailuresFit(recent);
    LimitCaps(recent, if |recent| < SCAN_LIMIT then |recent| else SCAN_LIMIT);
  }

  // ----- the two hooks -----

  function OpenCount(issues: seq<Issue>, agent: string): nat {
    if issues == [] then 0
    else
      var n := |issues| - 1;
      OpenCount(issues[..n], agent) + (if issues[n].status.Open? && issues[n].agent == agent then 1 else 0)
  }

  /** The first open issue of an agent, as an index; the number of issues if there is none. */
  function FindOpen(issues: seq<Issue>, agent: string): (i: nat)
    ensures i <= |issues|
    ensures i < |issues| ==> issues[i].status.Open? && issues[i].agent == agent
    ensures forall j :: 0 <= j < i ==> !(issues[j].status.Open? && issues[j].agent == agent)
  {
    if issues == [] then 0
    else if issues[0].status.Open? && issues[0].agent == agent then 0
    else FindOpen(issues[1..], agent) + 1
  }

  lemma {:induction false} FindOpenFinds(issues: seq<Issue>, agent: string)
    ensures FindOpen(issues, agent) == |issues| <==> forall i :: 0 <= i < |issues| ==> !(issues[i].status.Open? && issues[i].agent == agent)
  {
    if issues != [] {
      FindOpenFinds(issues[1..], agent);
      assert forall i :: 1 <= i < |issues| ==> issues[i] == issues[1..][i - 1];
    }
  }

  function Min(a: nat, b: nat): nat {
    if a < b then a else b
  }

  /** What `checkAgentFailureStreak` leaves. */
  function Checked(t: Tables, agent: string): Tables {
    if TrueStreak(t.runs, agent) < THRESHOLD || FindOpen(t.issues, agent) < |t.issues| then t
    else t.(issues := t.issues + [Issue(agent, Open, Min(TrueStreak(t.runs, agent), SCAN_LIMIT))])
  }

  /** What `resolveAgentFailureStreak` leaves: it closes the one issue it finds. */
  function Recovered(t: Tables, agent: string): Tables {
    var i := FindOpen(t.issues, agent);
    if i < |t.issues| then t.(issues := WithStatus(t.issues, i, Resolved)) else t
  }

  /** The check writes an open issue with the streak, up to ten, if that is three or more and none of the agent's
      is open; otherwise nothing. */
  lemma CheckedIs(t: Tables, agent: string)
    ensures
      var streak := |set i | 0 <= i < |t.runs| && InStreak(t.runs, agent, i)|;
      var some := exists k :: 0 <= k < |t.issues| && t.issues[k].agent == agent && t.issues[k].status == Open;
      Checked(t, agent)
      == if streak >= 3 && !some then Tables(t.runs, t.issues + [Issue(agent, Open, if streak < 10 then streak else 10)]) else t
  {
    StreakIs(t.runs, agent);
    FindOpenFinds(t.issues, agent);
  }

  /** Recovery resolves the agent's first open issue and touches nothing else. */
  lemma RecoveredIs(t: Tables, agent: string)
    ensures Recovered(t, agent).runs == t.runs && |Recovered(t, agent).issues| == |t.issues|
    ensures forall k :: 0 <= k < |t.issues| ==>
              Recovered(t, agent).issues[k]
              == if t.issues[k].agent == agent && t.issues[k].status == Open
                    && (forall j :: 0 <= j < k ==> !(t.issues[j].agent == agent && t.issues[j].status == Open))
                 then Issue(agent, Resolved, t.issues[k].failures) else t.issues[k]
  {
    FindOpenFinds(t.issues, agent);
  }

  function WithStatus(issues: seq<Issue>, i: nat, status: IssueStatus): seq<Issue>
    requires i < |issues|
  {
    issues[i := issues[i].(status := status)]
  }

  /** A run ends; or a run that was already recorded as complete throws in a later step, such as updating
      the agent's memory, and turns to failed; or somebody sets an issue to any of the four statuses over
      the API, which refuses ids that do not exist. */
  datatype Step = RunEnds(agent: string, ending: Status)
                | ThrowsLater(run: nat)
                | SetStatus(index: nat, status: IssueStatus)

  function Apply(t: Tables, step: Step): Tables {
    match step
    case SetStatus(i, status) => if i < |t.issues| then t.(issues := WithStatus(t.issues, i, status)) else t
    case ThrowsLater(run) =>
      if run < |t.runs| && t.runs[run].status == Complete then Checked(t.(runs := TurnedFailed(t.runs, run)), t.runs[run].agent)
      else t
    case RunEnds(agent, ending) =>
      var logged := t.(runs := t.runs + [RunRow(agent, ending)]);
      match ending
      case Failed => Checked(logged, agent)
      case Complete => Recovered(logged, agent)
      case _ => logged
  }

  /** The steps: a run that ends is logged and, by its status, checked, recovered or left; a run recorded as
      complete turns to failed and is checked, any other stays; a status is set on one issue that exists. */
  lemma ApplyIs(t: Tables, step: Step)
    ensures match step
      case RunEnds(agent, ending) =>
        var logged := Tables(t.runs + [RunRow(agent, ending)], t.issues);
        Apply(t, step) == if ending == Failed then Checked(logged, agent) else if ending == Complete then Recovered(logged, agent) else logged
      case ThrowsLater(run) =>
        if run < |t.runs| && t.runs[run].status == Complete then
          Apply(t, step) == Checked(Tables(t.runs[run := RunRow(t.runs[run].agent, Failed)], t.issues), t.runs[run].agent)
        else Apply(t, step) == t
      case SetStatus(i, status) =>
        if i < |t.issues| then
          Apply(t, step) == Tables(t.runs, t.issues[i := Issue(t.issues[i].agent, status, t.issues[i].failures)])
        else Apply(t, step) == t
  {
  }

  function TurnedFailed(runs: seq<RunRow>, run: nat): seq<RunRow>
    requires run < |runs|
  {
    runs[run := runs[run].(status := Failed)]
  }

  function History(steps: seq<Step>): Tables {
    if steps == [] then Tables([], []) else Apply(History(steps[..|steps| - 1]), steps[|steps| - 1])
  }

  class IssueStore {
    var runs: seq<RunRow>
    var issues: seq<Issue>

    ghost function State(): Tables
      reads this
    {
      Tables(runs, issues)
    }

    constructor ()
      ensures State() == Tables([], [])
    {
      runs, issues := [], [];
    }

    method CheckAgentFailureStreak(agent: string)
      modifies this`issues
      ensures State() == Checked(old(State()), agent)
    {
      var recent := Limited(Recent(runs, agent));
      var failures := 0;
      while failures < |recent| && recent[failures] == Failed
        invariant 0 <= failures <= |recent|
        invariant LeadingFailures(recent) == failures + LeadingFailures(recent[failures..])
      {
        assert recent[failures..][1..] == recent[failures + 1..];
        failures := failures + 1;
      }
      ScanAgrees(runs, agent);
      if failures < THRESHOLD {
        return;
      }
      var i := FindOpen(issues, agent);
      if i < |issues| {
        return;
      }
      issues := issues + [Issue(agent, Open, failures)];
    }

    method ResolveAgentFailureStreak(agent: string)
      modifies this`issues
      ensures State() == Recovered(old(State()), agent)
    {
      var i := FindOpen(issues, agent);
      if i < |issues| {
        issues := WithStatus(issues, i, Resolved);
      }
    }

    /** `updateSystemIssueStatus`, behind the API's check that the issue exists. */
    method UpdateSystemIssueStatus(i: nat, status: IssueStatus) returns (found: bool)
      modifies this`issues
      ensures State() == Apply(old(State()), SetStatus(i, status))
      ensures found <==> i < |old(issues)|
    {
      found := i < |issues|;
      if found {
        issues := WithStatus(issues, i, status);
      }
    }

    /** The catch block of a run that is recorded as complete: the row turns to failed, the check fires. */
    method FailLater(run: nat)
      modifies this
      ensures State() == Apply(old(State()), ThrowsLater(run))
    {
      if run < |runs| && runs[run].status == Complete {
        runs := TurnedFailed(runs, run);
        CheckAgentFailureStreak(runs[run].agent);
      }
    }

    /** A run ends and the hook that belongs to its status fires. */
    method EndRun(agent: string, status: Status)
      modifies this
      ensures State() == Apply(old(State()), RunEnds(agent, status))
    {
      runs := runs + [RunRow(agent, status)];
      if status == Failed {
        CheckAgentFailureStreak(agent);
      } else if status == Complete {
        ResolveAgentFailureStreak(agent);
      }
    }
  }

  // ----- every history -----

  lemma {:induction false} NoneOpen(issues: seq<Issue>, agent: string)
    ensures OpenCount(issues, agent) == 0 <==> FindOpen(issues, agent) == |issues|
  {
    FindOpenFinds(issues, agent);
    if issues != [] {
      var n := |issues| - 1;
      NoneOpen(issues[..n], agent);
      FindOpenFinds(issues[..n], agent);
      assert forall i :: 0 <= i < n ==> issues[..n][i] == issues[i];
    }
  }

  /** The number of open issues of an agent. */
  lemma OpenCountIs(issues: seq<Issue>, agent: string)
    ensures OpenCount(issues, agent) == |set k | 0 <= k < |issues| && issues[k].agent == agent && issues[k].status == Open|
  {
    var open := (k: int) => 0 <= k < |issues| && issues[k].agent == agent && issues[k].status == Open;
    OpenCountUpTo(issues, agent, |issues|, open);
    assert issues[..|issues|] == issues;
    assert (set k | 0 <= k < |issues| && open(k)) == (set k | 0 <= k < |issues| && issues[k].agent == agent && issues[k].status == Open);
  }

  lemma {:induction false} OpenCountUpTo(issues: seq<Issue>, agent: string, n: nat, open: int -> bool)
    requires n <= |issues| && forall k :: 0 <= k < |issues| ==> (open(k) <==> issues[k].agent == agent && issues[k].status == Open)
    ensures OpenCount(issues[..n], agent) == |set k | 0 <= k < n && open(k)|
  {
    if n > 0 {
      OpenCountUpTo(issues, agent, n - 1, open);
      OneMoreHit(open, n - 1);
      assert issues[..n][..n - 1] == issues[..n - 1];
    } else {
      assert (set k | 0 <= k < n && open(k)) == {};
    }
  }

  function One(b: bool): nat {
    if b then 1 else 0
  }

  /** Setting a status moves its agent's count by what it opens or closes, and nobody else's. */
  lemma {:induction false} WithStatusCounts(issues: seq<Issue>, i: nat, status: IssueStatus, agent: string)
    requires i < |issues|
    ensures OpenCount(WithStatus(issues, i, status), agent)
         == OpenCount(issues, agent) + if issues[i].agent == agent then One(status.Open?) - One(issues[i].status.Open?) else 0
  {
    var n, after := |issues| - 1, WithStatus(issues, i, status);
    if i < n {
      WithStatusCounts(issues[..n], i, status, agent);
      assert after[..n] == WithStatus(issues[..n], i, status);
    } else {
      assert after[..n] == issues[..n];
    }
  }

  lemma OpenCountOfOneMore(issues: seq<Issue>, issue: Issue, agent: string)
    ensures OpenCount(issues + [issue], agent) == OpenCount(issues, agent) + One(issue.status.Open? && issue.agent == agent)
  {
    assert (issues + [issue])[..|issues|] == issues;
  }

  function CountChecked(before: nat, streak: nat): nat {
    if streak >= THRESHOLD && before == 0 then 1 else before
  }

  lemma CheckedCounts(t: Tables, a: string, agent: string)
    ensures OpenCount(Checked(t, a).issues, agent)
         == if a == agent then CountChecked(OpenCount(t.issues, agent), TrueStreak(t.runs, agent)) else OpenCount(t.issues, agent)
  {
    NoneOpen(t.issues, a);
    OpenCountOfOneMore(t.issues, Issue(a, Open, Min(TrueStreak(t.runs, a), SCAN_LIMIT)), agent);
  }

  lemma RecoveredCounts(t: Tables, a: string, agent: string)
    ensures var before := OpenCount(t.issues, agent);
            OpenCount(Recovered(t, a).issues, agent) == if a == agent && before > 0 then before - 1 else before
  {
    NoneOpen(t.issues, a);
    var i := FindOpen(t.issues, a);
    if i < |t.issues| {
      WithStatusCounts(t.issues, i, Resolved, agent);
    }
  }

  /** The number of open issues of an agent after one step, whatever the number before. */
  function CountAfter(t: Tables, step: Step, agent: string): int {
    var before := OpenCount(t.issues, agent);
    match step
    case RunEnds(a, ending) =>
      if a != agent then before
      else if ending == Complete then (if before > 0 then before - 1 else 0)
      else if ending == Failed then CountChecked(before, TrueStreak(t.runs + [RunRow(a, ending)], agent))
      else before
    case ThrowsLater(run) =>
      if run < |t.runs| && t.runs[run] == RunRow(agent, Complete) then
        CountChecked(before, TrueStreak(TurnedFailed(t.runs, run), agent))
      else before
    case SetStatus(i, status) =>
      if i < |t.issues| && t.issues[i].agent == agent then before + One(status.Open?) - One(t.issues[i].status.Open?)
      else before
  }

  /** Every step: a completed run closes one of its agent's open issues, a failure that makes the streak
      three or longer leaves at least one, and a run never touches another agent's issues. */
  lemma StepCounts(t: Tables, step: Step, agent: string)
    ensures OpenCount(Apply(t, step).issues, agent) == CountAfter(t, step, agent)
  {
    match step {
      case SetStatus(i, status) =>
        if i < |t.issues| {
          WithStatusCounts(t.issues, i, status, agent);
        }
      case ThrowsLater(run) =>
        if run < |t.runs| {
          CheckedCounts(t.(runs := TurnedFailed(t.runs, run)), t.runs[run].agent, agent);
        }
      case RunEnds(a, ending) =>
        var logged := t.(runs := t.runs + [RunRow(a, ending)]);
        CheckedCounts(logged, a, agent);
        RecoveredCounts(logged, a, agent);
    }
  }

  /** The step is a failure of the agent, of a run that ends or of one that was recorded as complete. */
  predicate IsFailure(t: Tables, step: Step, agent: string) {
    match step
    case RunEnds(a, ending) => a == agent && ending == Failed
    case ThrowsLater(run) => run < |t.runs| && t.runs[run] == RunRow(agent, Complete)
    case SetStatus(_, _) => false
  }

  /** A failure raises an issue exactly if the streak is three or longer and none of the agent's is open;
      one that was acknowledged does not count as open. */
  lemma RaisesIff(t: Tables, step: Step, agent: string)
    requires IsFailure(t, step, agent)
    ensures var after := Apply(t, step);
            |after.issues| > |t.issues| <==> TrueStreak(after.runs, agent) >= THRESHOLD && OpenCount(t.issues, agent) == 0
  {
    NoneOpen(t.issues, agent);
  }

  /** Somebody re-opens an issue of the agent while another of its issues is open. */
  predicate Reopens(t: Tables, step: Step, agent: string) {
    && step.SetStatus? && step.status.Open? && step.index < |t.issues|
    && t.issues[step.index].agent == agent && !t.issues[step.index].status.Open?
    && OpenCount(t.issues, agent) >= 1
  }

  predicate NeverReopens(steps: seq<Step>, agent: string) {
    steps == []
    || (NeverReopens(steps[..|steps| - 1], agent) && !Reopens(History(steps[..|steps| - 1]), steps[|steps| - 1], agent))
  }

  lemma StepKeepsOne(t: Tables, step: Step, agent: string)
    requires OpenCount(t.issues, agent) <= 1
    ensures OpenCount(Apply(t, step).issues, agent) <= 1 <==> !Reopens(t, step, agent)
  {
    StepCounts(t, step, agent);
  }

  /** After no step of the history has the agent two open issues. */
  predicate NeverTwoOpen(steps: seq<Step>, agent: string) {
    steps == [] || (NeverTwoOpen(steps[..|steps| - 1], agent) && OpenCount(History(steps).issues, agent) <= 1)
  }

  lemma {:induction false} OneOpenAt(steps: seq<Step>, agent: string, n: nat)
    requires n <= |steps| && NeverTwoOpen(steps, agent)
    ensures OpenCount(History(steps[..n]).issues, agent) <= 1
  {
    if n == |steps| {
      assert steps[..n] == steps;
    } else {
      OneOpenAt(steps[..|steps| - 1], agent, n);
      assert steps[..|steps| - 1][..n] == steps[..n];
    }
  }

  /** No agent ever has two open issues, over a whole history, exactly if none of its issues is re-opened
      while another is open. */
  lemma {:induction false} OneOpenIff(steps: seq<Step>, agent: string)
    ensures NeverTwoOpen(steps, agent) <==> NeverReopens(steps, agent)
  {
    if steps != [] {
      var k := |steps| - 1;
      OneOpenIff(steps[..k], agent);
      if NeverTwoOpen(steps[..k], agent) {
        OneOpenAt(steps[..k], agent, k);
        assert steps[..k][..k] == steps[..k];
        StepKeepsOne(History(steps[..k]), steps[k], agent);
      }
    }
  }

  /** Then exactly one issue is open right after a failure that makes the streak three or longer, and none
      right after a completed run. */
  lemma OneIssuePerStreak(steps: seq<Step>, agent: string)
    requires NeverReopens(steps, agent)
    ensures OpenCount(History(steps).issues, agent) <= 1
    ensures steps != [] && IsFailure(History(steps[..|steps| - 1]), steps[|steps| - 1], agent) ==>
              TrueStreak(History(steps).runs, agent) >= THRESHOLD ==> OpenCount(History(steps).issues, agent) == 1
    ensures steps != [] && steps[|steps| - 1] == RunEnds(agent, Complete) ==> OpenCount(History(steps).issues, agent) == 0
  {
    OneOpenIff(steps, agent);
    if steps != [] {
      var n := |steps| - 1;
      OneOpenAt(steps, agent, n);
      StepCounts(History(steps[..n]), steps[n], agent);
    }
  }

  // ----- two inputs -----

  lemma HistoryOfOneMore(steps: seq<Step>, step: Step)
    ensures History(steps + [step]) == Apply(History(steps), step)
  {
    assert (steps + [step])[..|steps|] == steps;
  }

  lemma StreakOfOneMore(runs: seq<RunRow>, agent: string)
    ensures TrueStreak(runs + [RunRow(agent, Failed)], agent) == TrueStreak(runs, agent) + 1
  {
    assert (runs + [RunRow(agent, Failed)])[..|runs|] == runs;
  }

  const FAILS := RunEnds("a", Failed)

  lemma OneMoreFailure(steps: seq<Step>)
    ensures var before, after := History(steps), History(steps + [FAILS]);
            && TrueStreak(after.runs, "a") == TrueStreak(before.runs, "a") + 1
            && after == Checked(before.(runs := before.runs + [RunRow("a", Failed)]), "a")
  {
    HistoryOfOneMore(steps, FAILS);
    StreakOfOneMore(History(steps).runs, "a");
  }

  lemma TwoFailures()
    ensures History([FAILS, FAILS]).issues == [] && TrueStreak(History([FAILS, FAILS]).runs, "a") == 2
  {
    OneMoreFailure([]);
    assert [] + [FAILS] == [FAILS];
    OneMoreFailure([FAILS]);
    assert [FAILS] + [FAILS] == [FAILS, FAILS];
  }

  lemma ThreeFailures()
    ensures History([FAILS, FAILS, FAILS]).issues == [Issue("a", Open, 3)]
    ensures TrueStreak(History([FAILS, FAILS, FAILS]).runs, "a") == 3
  {
    TwoFailures();
    OneMoreFailure([FAILS, FAILS]);
    assert [FAILS, FAILS] + [FAILS] == [FAILS, FAILS, FAILS];
  }

  /** After three failures, a new status for the issue, and a fourth failure. */
  lemma FourthFailure(status: IssueStatus)
    requires !status.Open?
    ensures History([FAILS, FAILS, FAILS, SetStatus(0, status), FAILS]).issues == [Issue("a", status, 3), Issue("a", Open, 4)]
  {
    var four := [FAILS, FAILS, FAILS, SetStatus(0, status)];
    ThenSet(status);
    OneMoreFailure(four);
    assert FindOpen([Issue("a", status, 3)], "a") == 1;
    assert four + [FAILS] == [FAILS, FAILS, FAILS, SetStatus(0, status), FAILS];
  }

  lemma ThenSet(status: IssueStatus)
    ensures var t := History([FAILS, FAILS, FAILS, SetStatus(0, status)]);
            t.issues == [Issue("a", status, 3)] && TrueStreak(t.runs, "a") == 3
  {
    var three := [FAILS, FAILS, FAILS];
    ThreeFailures();
    HistoryOfOneMore(three, SetStatus(0, status));
    assert three + [SetStatus(0, status)] == [FAILS, FAILS, FAILS, SetStatus(0, status)];
  }

  /** An issue that somebody acknowledges in the middle of a losing streak is raised a second time. */
  lemma AcknowledgingRaisesAgain()
    ensures History([FAILS, FAILS, FAILS, SetStatus(0, Acknowledged), FAILS]).issues
         == [Issue("a", Acknowledged, 3), Issue("a", Open, 4)]
  {
    FourthFailure(Acknowledged);
  }

  /** Dismissed, raised again and then re-opened: two are open, and a completed run closes one of them. */
  lemma ReopeningLeavesTwo()
    ensures var steps := [FAILS, FAILS, FAILS, SetStatus(0, Dismissed), FAILS, SetStatus(0, Open)];
            && OpenCount(History(steps).issues, "a") == 2
            && OpenCount(History(steps + [RunEnds("a", Complete)]).issues, "a") == 1
  {
    var five := [FAILS, FAILS, FAILS, SetStatus(0, Dismissed), FAILS];
    var six := [FAILS, FAILS, FAILS, SetStatus(0, Dismissed), FAILS, SetStatus(0, Open)];
    FourthFailure(Dismissed);
    HistoryOfOneMore(five, SetStatus(0, Open));
    assert five + [SetStatus(0, Open)] == six;
    OpenCountOfOneMore([Issue("a", Open, 3)], Issue("a", Open, 4), "a");
    OpenCountOfOneMore([], Issue("a", Open, 3), "a");
    assert [] + [Issue("a", Open, 3)] == [Issue("a", Open, 3)];
    assert [Issue("a", Open, 3)] + [Issue("a", Open, 4)] == History(six).issues;
    HistoryOfOneMore(six, RunEnds("a", Complete));
    StepCounts(History(six), RunEnds("a", Complete), "a");
  }
}
