/** What agent runs cost: the two budget gates and the three tables a finished run writes to.
    Source: server/agents/agent-runner.ts. */
module CostLedger {
  import opened Collections

  const DAY_MS := 24 * 60 * 60 * 1000

  /** The calendar: the local midnight before an instant, and the first day of a UTC day's month. */
  datatype Calendar = Calendar(midnight: int -> int, monthStart: int -> int)

  /** A day is where its midnight is; instants between a midnight and a later instant of that day
      belong to the same day. Likewise for months. */
  ghost predicate IsCalendar(c: Calendar) {
    && (forall t :: c.midnight(t) <= t)
    && (forall t, u :: c.midnight(t) <= u <= t ==> c.midnight(u) == c.midnight(t))
    && (forall d :: c.monthStart(d) <= d)
    && (forall d, e :: c.monthStart(d) <= e <= d ==> c.monthStart(e) == c.monthStart(d))
  }

  function UtcDay(t: int): int {
    t / DAY_MS
  }

  // ----- the tables -----

  datatype Status = Running | Complete | Failed

  /** A row of `agent_runs`; a cost that was never written is NULL. */
  datatype RunRow = RunRow(agent: string, startedAt: int, status: Status, cost: Option<real>)

  /** A row of `cost_daily`, with the columns of its unique key. */
  datatype DailyKey = DailyKey(date: int, agent: string, business: string, provider: string)

  datatype DailyRow = DailyRow(key: DailyKey, cost: real)

  datatype Ledger = Ledger(runs: seq<RunRow>, totals: map<string, real>, daily: seq<DailyRow>)

  function RunSum(runs: seq<RunRow>, p: RunRow -> bool): real {
    if runs == [] then 0.0
    else
      var n := |runs| - 1;
      RunSum(runs[..n], p) + (if p(runs[n]) then runs[n].cost.GetOr(0.0) else 0.0)
  }

  function DailySum(daily: seq<DailyRow>, p: DailyKey -> bool): real {
    if daily == [] then 0.0
    else (if p(daily[0].key) then daily[0].cost else 0.0) + DailySum(daily[1..], p)
  }

  /** `ON CONFLICT(date, agent_id, business_id, provider) DO UPDATE SET cost_usd = cost_usd + ...` */
  function AddDaily(daily: seq<DailyRow>, key: DailyKey, cost: real): seq<DailyRow> {
    if daily == [] then [DailyRow(key, cost)]
    else if daily[0].key == key then [DailyRow(key, daily[0].cost + cost)] + daily[1..]
    else [daily[0]] + AddDaily(daily[1..], key, cost)
  }

  // ----- one run -----

  /** A run that finished has its costs written; a later step, such as updating the agent's memory, can still
      throw, and then the row turns to failed and keeps its cost. */
  datatype Ending = Finished(cost: real, throwsLater: bool) | Threw

  function StatusOf(ending: Ending): Status {
    if ending.Finished? && !ending.throwsLater then Complete else Failed
  }

  /** When a run begins, when its gates are evaluated, when it is recorded, how it ends, and the budget and
      the cap it reads: the budget from the settings of the moment, the cap from the profile block of the
      run's own tier. Zero or less switches a gate off. */
  datatype Run = Run(agent: string, business: string, provider: string, startedAt: int, gateAt: int, endAt: int,
                     monthlyBudget: real, dailyCap: real, ending: Ending)

  datatype Verdict = Ran | MonthlyBudget | CostCap

  function MonthSpent(l: Ledger, c: Calendar, now: int): real {
    var first := c.monthStart(UtcDay(now));
    DailySum(l.daily, (k: DailyKey) => k.date >= first)
  }

  function TodayCost(l: Ledger, c: Calendar, agent: string, now: int): real {
    var start := c.midnight(now);
    RunSum(l.runs, (r: RunRow) => r.agent == agent && r.startedAt >= start && r.status != Running)
  }

  function Gate(l: Ledger, c: Calendar, run: Run): Verdict {
    if run.monthlyBudget > 0.0 && MonthSpent(l, c, run.gateAt) >= run.monthlyBudget then MonthlyBudget
    else if run.dailyCap > 0.0 && TodayCost(l, c, run.agent, run.gateAt) >= run.dailyCap then CostCap
    else Ran
  }

  function Total(l: Ledger, agent: string): real {
    if agent in l.totals then l.totals[agent] else 0.0
  }

  function Recorded(l: Ledger, run: Run): Ledger {
    match run.ending
    case Threw => l.(runs := l.runs + [RunRow(run.agent, run.startedAt, Failed, None)])
    case Finished(cost, throwsLater) =>
      Ledger(l.runs + [RunRow(run.agent, run.startedAt, StatusOf(run.ending), Some(cost))],
             l.totals[run.agent := Total(l, run.agent) + cost],
             AddDaily(l.daily, DailyKey(UtcDay(run.endAt), run.agent, run.business, run.provider), cost))
  }

  function After(l: Ledger, c: Calendar, run: Run): Ledger {
    if Gate(l, c, run) == Ran then Recorded(l, run) else l
  }

  /** The first row with the key gets the cost added; if there is none, a new row is written. */
  lemma {:induction false} AddDailyIs(daily: seq<DailyRow>, key: DailyKey, cost: real, i: nat)
    requires i <= |daily| && (forall j :: 0 <= j < i ==> daily[j].key != key) && (i < |daily| ==> daily[i].key == key)
    ensures AddDaily(daily, key, cost)
         == if i < |daily| then daily[i := DailyRow(key, daily[i].cost + cost)] else daily + [DailyRow(key, cost)]
  {
    if i > 0 {
      AddDailyIs(daily[1..], key, cost, i - 1);
      assert daily == [daily[0]] + daily[1..];
    }
  }

  /** A run that a gate turns away leaves no trace. Any other leaves a row, charged to its start; one that
      finished also leaves its cost in that row, in the agent's total and in the ledger, dated to the UTC day of
      its end. Only a run that finished and did not throw later is complete. */
  lemma AfterIs(l: Ledger, c: Calendar, run: Run)
    ensures var after := After(l, c, run);
      var finished := run.ending.Finished?;
      && (Gate(l, c, run) != Ran ==> after == l)
      && (Gate(l, c, run) == Ran ==>
            && after.runs == l.runs + [RunRow(run.agent, run.startedAt,
                                              if finished && !run.ending.throwsLater then Complete else Failed,
                                              if finished then Some(run.ending.cost) else None)]
            && (!finished ==> after.totals == l.totals && after.daily == l.daily)
            && (finished ==>
                  && after.totals == l.totals[run.agent := (if run.agent in l.totals then l.totals[run.agent] else 0.0) + run.ending.cost]
                  && after.daily
                     == AddDaily(l.daily, DailyKey(run.endAt / 86400000, run.agent, run.business, run.provider), run.ending.cost)))
  {
  }

  class CostStore {
    var runs: seq<RunRow>
    var totals: map<string, real>
    var daily: seq<DailyRow>

    ghost function State(): Ledger
      reads this
    {
      Ledger(runs, totals, daily)
    }

    constructor ()
      ensures State() == Ledger([], map[], [])
    {
      runs, totals, daily := [], map[], [];
    }

    method UpsertDaily(key: DailyKey, cost: real)
      modifies this`daily
      ensures daily == AddDaily(old(daily), key, cost)
    {
      var rows, i := daily, 0;
      assert rows[0..] == rows;
      while i < |rows| && rows[i].key != key
        invariant 0 <= i <= |rows|
        invariant AddDaily(rows, key, cost) == rows[..i] + AddDaily(rows[i..], key, cost)
      {
        AddDailyStep(rows, i, key, cost);
        i := i + 1;
      }
      AddDailyHere(rows, i, key, cost);
      if i < |rows| {
        daily := rows[..i] + ([DailyRow(key, rows[i].cost + cost)] + rows[i + 1..]);
      } else {
        daily := rows + [DailyRow(key, cost)];
      }
    }

    /** The gates, then the run row, then - when the run finishes - the three cost writes. */
    method RunAgent(c: Calendar, run: Run) returns (v: Verdict)
      modifies this
      ensures v == old(Gate(State(), c, run))
      ensures State() == After(old(State()), c, run)
    {
      if run.monthlyBudget > 0.0 {
        var spent := MonthSpent(Ledger(runs, totals, daily), c, run.gateAt);
        if spent >= run.monthlyBudget {
          return MonthlyBudget;
        }
      }
      var today := TodayCost(Ledger(runs, totals, daily), c, run.agent, run.gateAt);
      if run.dailyCap > 0.0 && today >= run.dailyCap {
        return CostCap;
      }
      var row := |runs|;
      runs := runs + [RunRow(run.agent, run.startedAt, Running, None)];
      match run.ending {
        case Threw =>
          runs := runs[row := runs[row].(status := Failed)];
        case Finished(cost, throwsLater) =>
          runs := runs[row := runs[row].(status := Complete, cost := Some(cost))];
          totals := totals[run.agent := (if run.agent in totals then totals[run.agent] else 0.0) + cost];
          UpsertDaily(DailyKey(UtcDay(run.endAt), run.agent, run.business, run.provider), cost);
          if throwsLater {
            runs := runs[row := runs[row].(status := Failed)];
          }
      }
      return Ran;
    }
  }

  lemma AddDailyHere(daily: seq<DailyRow>, i: nat, key: DailyKey, cost: real)
    requires i <= |daily| && (i < |daily| ==> daily[i].key == key)
    ensures daily[..i] + AddDaily(daily[i..], key, cost)
         == if i < |daily| then daily[..i] + ([DailyRow(key, daily[i].cost + cost)] + daily[i + 1..])
            else daily + [DailyRow(key, cost)]
  {
    if i < |daily| {
      assert daily[i..][0] == daily[i] && daily[i..][1..] == daily[i + 1..];
    } else {
      assert daily[i..] == [] && daily[..i] == daily;
    }
  }

  lemma AddDailyStep(daily: seq<DailyRow>, i: nat, key: DailyKey, cost: real)
    requires i < |daily| && daily[i].key != key
    ensures daily[..i] + AddDaily(daily[i..], key, cost) == daily[..i + 1] + AddDaily(daily[i + 1..], key, cost)
  {
    assert daily[i..][1..] == daily[i + 1..];
    assert daily[..i + 1] == daily[..i] + [daily[i]];
  }

  // ----- the three ledgers agree -----

  lemma {:induction false} AddDailySum(daily: seq<DailyRow>, key: DailyKey, cost: real, p: DailyKey -> bool)
    ensures DailySum(AddDaily(daily, key, cost), p) == DailySum(daily, p) + (if p(key) then cost else 0.0)
  {
    if daily != [] && daily[0].key != key {
      AddDailySum(daily[1..], key, cost, p);
    }
  }

  lemma AddRunSum(runs: seq<RunRow>, row: RunRow, p: RunRow -> bool)
    ensures RunSum(runs + [row], p) == RunSum(runs, p) + (if p(row) then row.cost.GetOr(0.0) else 0.0)
  {
    assert (runs + [row])[..|runs|] == runs;
  }

  function Series(c: Calendar, runs: seq<Run>): Ledger {
    if runs == [] then Ledger([], map[], [])
    else After(Series(c, runs[..|runs| - 1]), c, runs[|runs| - 1])
  }

  /** After any series of runs, whatever was skipped, failed or charged to which provider: an agent's
      run rows, its running total and its daily rows add up to the same amount. */
  lemma {:induction false} LedgersAgree(c: Calendar, runs: seq<Run>, agent: string)
    ensures var l := Series(c, runs);
            RunSum(l.runs, (r: RunRow) => r.agent == agent) == Total(l, agent)
            && DailySum(l.daily, (k: DailyKey) => k.agent == agent) == Total(l, agent)
  {
    if runs != [] {
      var n := |runs| - 1;
      var before, run := Series(c, runs[..n]), runs[n];
      LedgersAgree(c, runs[..n], agent);
      if Gate(before, c, run) == Ran {
        RecordedAgrees(before, run, agent);
      }
    }
  }

  lemma RecordedAgrees(l: Ledger, run: Run, agent: string)
    requires RunSum(l.runs, (r: RunRow) => r.agent == agent) == Total(l, agent)
    requires DailySum(l.daily, (k: DailyKey) => k.agent == agent) == Total(l, agent)
    ensures var after := Recorded(l, run);
            RunSum(after.runs, (r: RunRow) => r.agent == agent) == Total(after, agent)
            && DailySum(after.daily, (k: DailyKey) => k.agent == agent) == Total(after, agent)
  {
    var ofRun, ofDay := (r: RunRow) => r.agent == agent, (k: DailyKey) => k.agent == agent;
    match run.ending {
      case Threw =>
        AddRunSum(l.runs, RunRow(run.agent, run.startedAt, Failed, None), ofRun);
      case Finished(cost, throwsLater) =>
        AddRunSum(l.runs, RunRow(run.agent, run.startedAt, StatusOf(run.ending), Some(cost)), ofRun);
        AddDailySum(l.daily, DailyKey(UtcDay(run.endAt), run.agent, run.business, run.provider), cost, ofDay);
    }
  }

  // ----- overshoot -----

  /** One run after the other. */
  ghost predicate Sequential(runs: seq<Run>) {
    && (forall i :: 0 <= i < |runs| ==> runs[i].startedAt <= runs[i].gateAt <= runs[i].endAt)
    && (forall i, j :: 0 <= i < j < |runs| ==> runs[i].endAt <= runs[j].startedAt)
  }

  ghost predicate CostsAtMost(runs: seq<Run>, most: real) {
    most >= 0.0 && forall i :: 0 <= i < |runs| && runs[i].ending.Finished? ==> runs[i].ending.cost <= most
  }

  /** All that was charged to the month that begins on UTC day `first`. */
  function MonthSpend(l: Ledger, c: Calendar, first: int): real {
    DailySum(l.daily, (k: DailyKey) => c.monthStart(k.date) == first)
  }

  /** All that one agent's runs started on the local day beginning at `midnight` have cost. */
  function DaySpend(l: Ledger, c: Calendar, agent: string, midnight: int): real {
    RunSum(l.runs, (r: RunRow) => r.agent == agent && c.midnight(r.startedAt) == midnight)
  }

  ghost predicate DatedUpTo(daily: seq<DailyRow>, day: int) {
    forall i :: 0 <= i < |daily| ==> daily[i].key.date <= day
  }

  lemma {:induction false} AddDailyDated(daily: seq<DailyRow>, key: DailyKey, cost: real, day: int)
    requires DatedUpTo(daily, day) && key.date <= day
    ensures DatedUpTo(AddDaily(daily, key, cost), day)
  {
    if daily != [] && daily[0].key != key {
      AddDailyDated(daily[1..], key, cost, day);
    }
  }

  /** Two selections that agree on every row sum to the same. */
  lemma {:induction false} DailySumCongruent(daily: seq<DailyRow>, p: DailyKey -> bool, q: DailyKey -> bool)
    requires forall i :: 0 <= i < |daily| ==> p(daily[i].key) == q(daily[i].key)
    ensures DailySum(daily, p) == DailySum(daily, q)
  {
    if daily != [] {
      DailySumCongruent(daily[1..], p, q);
    }
  }

  lemma {:induction false} RunSumCongruent(runs: seq<RunRow>, p: RunRow -> bool, q: RunRow -> bool)
    requires forall i :: 0 <= i < |runs| ==> p(runs[i]) == q(runs[i])
    ensures RunSum(runs, p) == RunSum(runs, q)
  {
    if runs != [] {
      RunSumCongruent(runs[..|runs| - 1], p, q);
    }
  }

  lemma {:induction false} NothingSelected(daily: seq<DailyRow>, p: DailyKey -> bool)
    requires forall i :: 0 <= i < |daily| ==> !p(daily[i].key)
    ensures DailySum(daily, p) == 0.0
  {
    if daily != [] {
      NothingSelected(daily[1..], p);
    }
  }

  /** The gate's sum over "this month or later" is the month's own sum, as nothing is dated later. */
  lemma GateSeesTheMonth(l: Ledger, c: Calendar, now: int)
    requires IsCalendar(c) && DatedUpTo(l.daily, UtcDay(now))
    ensures MonthSpent(l, c, now) == MonthSpend(l, c, c.monthStart(UtcDay(now)))
  {
    var first := c.monthStart(UtcDay(now));
    var p, q := (k: DailyKey) => k.date >= first, (k: DailyKey) => c.monthStart(k.date) == first;
    DailySumCongruent(l.daily, p, q);
  }

  lemma DaysPass(t: int, u: int)
    requires t <= u
    ensures UtcDay(t) <= UtcDay(u)
  {
  }

  /** Recording one admitted run keeps every month below the largest budget plus that run. */
  lemma RecordKeepsMonth(l: Ledger, c: Calendar, run: Run, first: int, budget: real, most: real)
    requires IsCalendar(c) && 0.0 < run.monthlyBudget <= budget && most >= 0.0 && Gate(l, c, run) == Ran
    requires run.gateAt <= run.endAt && DatedUpTo(l.daily, UtcDay(run.gateAt))
    requires run.ending.Finished? ==> run.ending.cost <= most
    requires MonthSpend(l, c, first) < budget + most
    ensures MonthSpend(Recorded(l, run), c, first) < budget + most
  {
    if run.ending.Finished? {
      var key := DailyKey(UtcDay(run.endAt), run.agent, run.business, run.provider);
      var q := (k: DailyKey) => c.monthStart(k.date) == first;
      AddDailySum(l.daily, key, run.ending.cost, q);
      DaysPass(run.gateAt, run.endAt);
      if c.monthStart(key.date) == first {
        if c.monthStart(UtcDay(run.gateAt)) == first {
          GateSeesTheMonth(l, c, run.gateAt);
        } else {
          // the month began after the gate, so nothing had been charged to it
          assert first > UtcDay(run.gateAt);
          NothingSelected(l.daily, q);
        }
      }
    }
  }

  /** Over any sequential series of runs costing at most `most` each, whatever budgets up to `budget` they
      read, no month's bill ever reaches that budget plus one run. */
  lemma {:induction false} MonthOvershootIsBounded(c: Calendar, runs: seq<Run>, budget: real, most: real, first: int)
    requires IsCalendar(c) && budget > 0.0 && Sequential(runs) && CostsAtMost(runs, most)
    requires forall i :: 0 <= i < |runs| ==> 0.0 < runs[i].monthlyBudget <= budget
    ensures MonthSpend(Series(c, runs), c, first) < budget + most
    ensures runs != [] ==> DatedUpTo(Series(c, runs).daily, UtcDay(runs[|runs| - 1].endAt))
  {
    if runs != [] {
      var n := |runs| - 1;
      var l, run := Series(c, runs[..n]), runs[n];
      MonthOvershootIsBounded(c, runs[..n], budget, most, first);
      if n > 0 {
        DaysPass(runs[n - 1].endAt, run.gateAt);
      }
      DaysPass(run.gateAt, run.endAt);
      if Gate(l, c, run) == Ran {
        RecordKeepsMonth(l, c, run, first, budget, most);
        if run.ending.Finished? {
          AddDailyDated(l.daily, DailyKey(UtcDay(run.endAt), run.agent, run.business, run.provider),
                        run.ending.cost, UtcDay(run.endAt));
        }
      }
    }
  }

  ghost predicate StartedUpTo(runs: seq<RunRow>, t: int) {
    forall i :: 0 <= i < |runs| ==> runs[i].startedAt <= t && runs[i].status != Running
  }

  lemma GateSeesTheDay(l: Ledger, c: Calendar, agent: string, now: int)
    requires IsCalendar(c) && StartedUpTo(l.runs, now)
    ensures TodayCost(l, c, agent, now) == DaySpend(l, c, agent, c.midnight(now))
  {
    var start := c.midnight(now);
    var p := (r: RunRow) => r.agent == agent && r.startedAt >= start && r.status != Running;
    var q := (r: RunRow) => r.agent == agent && c.midnight(r.startedAt) == start;
    RunSumCongruent(l.runs, p, q);
  }

  /** The row is charged to the day the run started; the gate looked at the day it was evaluated. */
  predicate SameDay(c: Calendar, run: Run) {
    c.midnight(run.startedAt) == c.midnight(run.gateAt)
  }

  /** What recording one run does to a day. */
  lemma RecordDay(l: Ledger, c: Calendar, run: Run, agent: string, midnight: int)
    ensures DaySpend(Recorded(l, run), c, agent, midnight)
         == DaySpend(l, c, agent, midnight) + (if OnDay(c, run, agent, midnight) then CostOf(run) else 0.0)
  {
    var row := match run.ending
      case Threw => RunRow(run.agent, run.startedAt, Failed, None)
      case Finished(cost, _) => RunRow(run.agent, run.startedAt, StatusOf(run.ending), Some(cost));
    AddRunSum(l.runs, row, (r: RunRow) => r.agent == agent && c.midnight(r.startedAt) == midnight);
  }

  function CostOf(run: Run): real {
    match run.ending
    case Threw => 0.0
    case Finished(cost, _) => cost
  }

  /** The gate opens exactly if the day it is evaluated on is still below the cap. */
  lemma GateJudgesItsDay(l: Ledger, c: Calendar, run: Run)
    requires IsCalendar(c) && StartedUpTo(l.runs, run.gateAt) && run.dailyCap > 0.0
    ensures Gate(l, c, run) == Ran ==> DaySpend(l, c, run.agent, c.midnight(run.gateAt)) < run.dailyCap
    ensures run.monthlyBudget <= 0.0 && DaySpend(l, c, run.agent, c.midnight(run.gateAt)) < run.dailyCap ==>
              Gate(l, c, run) == Ran
  {
    GateSeesTheDay(l, c, run.agent, run.gateAt);
  }

  lemma {:induction false} SeriesDated(c: Calendar, runs: seq<Run>, t: int)
    requires forall i :: 0 <= i < |runs| ==> runs[i].endAt <= t
    ensures DatedUpTo(Series(c, runs).daily, UtcDay(t))
  {
    if runs != [] {
      var n := |runs| - 1;
      var l, run := Series(c, runs[..n]), runs[n];
      SeriesDated(c, runs[..n], t);
      DaysPass(run.endAt, t);
      if Gate(l, c, run) == Ran && run.ending.Finished? {
        AddDailyDated(l.daily, DailyKey(UtcDay(run.endAt), run.agent, run.business, run.provider), run.ending.cost, UtcDay(t));
      }
    }
  }

  /** What the gates of a run decide, at the end of any sequential series: whether the month and the day they are
      evaluated in have already been charged as much as the budget and the cap, where these are above zero. */
  lemma GateIff(c: Calendar, before: seq<Run>, run: Run)
    requires IsCalendar(c) && Sequential(before + [run])
    ensures
      var l := Series(c, before);
      var broke := run.monthlyBudget > 0.0 && MonthSpend(l, c, c.monthStart(UtcDay(run.gateAt))) >= run.monthlyBudget;
      var capped := run.dailyCap > 0.0 && DaySpend(l, c, run.agent, c.midnight(run.gateAt)) >= run.dailyCap;
      && (Gate(l, c, run) == MonthlyBudget <==> broke)
      && (Gate(l, c, run) == CostCap <==> !broke && capped)
      && (Gate(l, c, run) == Ran <==> !broke && !capped)
  {
    var all := before + [run];
    forall i | 0 <= i < |before| ensures before[i].endAt <= run.gateAt && before[i].startedAt <= run.gateAt {
      assert all[i] == before[i] && all[|before|] == run;
    }
    SeriesDated(c, before, run.gateAt);
    SeriesStarts(c, before, run.gateAt);
    GateSeesTheMonth(Series(c, before), c, run.gateAt);
    GateSeesTheDay(Series(c, before), c, run.agent, run.gateAt);
  }

  /** The charges behind these sums: a run that passes its gates adds its cost, if it has one, to the month its
      end belongs to and to the day of its agent it started on, and to no other. */
  lemma ChargedWhere(c: Calendar, before: seq<Run>, run: Run, first: int, agent: string, midnight: int)
    ensures
      var l, after := Series(c, before), Series(c, before + [run]);
      var charge := if Gate(l, c, run) == Ran && run.ending.Finished? then run.ending.cost else 0.0;
      && MonthSpend(after, c, first)
         == MonthSpend(l, c, first) + (if c.monthStart(run.endAt / 86400000) == first then charge else 0.0)
      && DaySpend(after, c, agent, midnight)
         == DaySpend(l, c, agent, midnight) + (if run.agent == agent && c.midnight(run.startedAt) == midnight then charge else 0.0)
  {
    var l := Series(c, before);
    assert (before + [run])[..|before|] == before;
    RecordDay(l, c, run, agent, midnight);
    if run.ending.Finished? {
      AddDailySum(l.daily, DailyKey(UtcDay(run.endAt), run.agent, run.business, run.provider), run.ending.cost,
                  (k: DailyKey) => c.monthStart(k.date) == first);
    }
  }

  lemma {:induction false} SeriesStarts(c: Calendar, runs: seq<Run>, t: int)
    requires forall i :: 0 <= i < |runs| ==> runs[i].startedAt <= t
    ensures StartedUpTo(Series(c, runs).runs, t)
  {
    if runs != [] {
      SeriesStarts(c, runs[..|runs| - 1], t);
    }
  }

  /** A run of this agent that started on this day. */
  predicate OnDay(c: Calendar, run: Run, agent: string, midnight: int) {
    run.agent == agent && c.midnight(run.startedAt) == midnight
  }

  /** Every cap read by the agent's runs of the day is a cap, and `cap` is at least the largest. */
  ghost predicate CapsWithin(c: Calendar, runs: seq<Run>, agent: string, midnight: int, cap: real) {
    cap > 0.0 && forall i :: 0 <= i < |runs| && OnDay(c, runs[i], agent, midnight) ==> 0.0 < runs[i].dailyCap <= cap
  }

  /** Run `j` and, behind it, a run that slips past midnight between its start and its gate; both are the
      agent's and of this day. */
  ghost predicate SlipsBehind(c: Calendar, runs: seq<Run>, agent: string, midnight: int, j: int, i: int)
    requires 0 <= j < i < |runs|
  {
    OnDay(c, runs[j], agent, midnight) && OnDay(c, runs[i], agent, midnight) && !SameDay(c, runs[i])
  }

  ghost predicate LateSecond(c: Calendar, runs: seq<Run>, agent: string, midnight: int) {
    exists j, i :: 0 <= j < i < |runs| && SlipsBehind(c, runs, agent, midnight, j, i)
  }

  lemma LateSecondStays(c: Calendar, runs: seq<Run>, n: nat, agent: string, midnight: int)
    requires n <= |runs| && LateSecond(c, runs[..n], agent, midnight)
    ensures LateSecond(c, runs, agent, midnight)
  {
    var j, i :| 0 <= j < i < n && SlipsBehind(c, runs[..n], agent, midnight, j, i);
    assert SlipsBehind(c, runs, agent, midnight, j, i);
  }

  lemma {:induction false} NoRunNoSpend(c: Calendar, runs: seq<Run>, agent: string, midnight: int)
    requires forall i :: 0 <= i < |runs| ==> !OnDay(c, runs[i], agent, midnight)
    ensures DaySpend(Series(c, runs), c, agent, midnight) == 0.0
  {
    if runs != [] {
      var n := |runs| - 1;
      NoRunNoSpend(c, runs[..n], agent, midnight);
      RecordDay(Series(c, runs[..n]), c, runs[n], agent, midnight);
    }
  }

  /** A run that slips is the last of its day, and every run before it was gated on that day. */
  lemma BeforeTheSlip(c: Calendar, runs: seq<Run>, agent: string, midnight: int)
    requires IsCalendar(c) && Sequential(runs) && runs != []
    requires OnDay(c, runs[|runs| - 1], agent, midnight)
    ensures !LateSecond(c, runs[..|runs| - 1], agent, midnight)
  {
    var n := |runs| - 1;
    forall i | 0 <= i < n && OnDay(c, runs[i], agent, midnight) ensures SameDay(c, runs[i]) {
      assert runs[i].startedAt <= runs[i].gateAt <= runs[i].endAt <= runs[n].startedAt;
    }
  }

  lemma SlipFindsEmptyDay(c: Calendar, runs: seq<Run>, agent: string, midnight: int)
    requires runs != [] && OnDay(c, runs[|runs| - 1], agent, midnight) && !SameDay(c, runs[|runs| - 1])
    requires !LateSecond(c, runs, agent, midnight)
    ensures DaySpend(Series(c, runs[..|runs| - 1]), c, agent, midnight) == 0.0
  {
    var n := |runs| - 1;
    forall i | 0 <= i < n ensures !OnDay(c, runs[..n][i], agent, midnight) {
      assert !SlipsBehind(c, runs, agent, midnight, i, n);
    }
    NoRunNoSpend(c, runs[..n], agent, midnight);
  }

  /** One more run of a series: what it can add to a day. */
  lemma OneMoreRun(c: Calendar, runs: seq<Run>, most: real, agent: string, midnight: int, cap: real)
    requires IsCalendar(c) && Sequential(runs) && CostsAtMost(runs, most) && runs != []
    requires CapsWithin(c, runs, agent, midnight, cap)
    ensures var n := |runs| - 1;
            var before, after := DaySpend(Series(c, runs[..n]), c, agent, midnight), DaySpend(Series(c, runs), c, agent, midnight);
            && after <= before + most
            && (!OnDay(c, runs[n], agent, midnight) ==> after == before)
            && (OnDay(c, runs[n], agent, midnight) && SameDay(c, runs[n]) ==> after == before || after < cap + most)
  {
    var n := |runs| - 1;
    var l, run := Series(c, runs[..n]), runs[n];
    SeriesStarts(c, runs[..n], run.startedAt);
    RecordDay(l, c, run, agent, midnight);
    if OnDay(c, run, agent, midnight) && SameDay(c, run) {
      GateJudgesItsDay(l, c, run);
    }
  }

  /** Over any sequential series of runs costing at most `most` each, no agent's day reaches its largest
      cap plus two runs, and it stays below that cap plus one run unless a second or later run of the day
      slips past midnight between its start and its gate. */
  lemma {:induction false} DayOvershootInGeneral(c: Calendar, runs: seq<Run>, most: real, agent: string, midnight: int, cap: real)
    requires IsCalendar(c) && Sequential(runs) && CostsAtMost(runs, most) && CapsWithin(c, runs, agent, midnight, cap)
    ensures var spend := DaySpend(Series(c, runs), c, agent, midnight);
            && spend < cap + 2.0 * most
            && (!LateSecond(c, runs, agent, midnight) ==> spend < cap + most)
  {
    if runs != [] {
      var n := |runs| - 1;
      DayOvershootInGeneral(c, runs[..n], most, agent, midnight, cap);
      OneMoreRun(c, runs, most, agent, midnight, cap);
      if LateSecond(c, runs[..n], agent, midnight) {
        LateSecondStays(c, runs, n, agent, midnight);
      }
      if OnDay(c, runs[n], agent, midnight) {
        BeforeTheSlip(c, runs, agent, midnight);
        if !SameDay(c, runs[n]) && !LateSecond(c, runs, agent, midnight) {
          SlipFindsEmptyDay(c, runs, agent, midnight);
        }
      }
    }
  }

  /** In particular: if every gate is evaluated on the day its run started, no agent's day reaches its
      largest cap plus one run. */
  lemma DayOvershootIsBounded(c: Calendar, runs: seq<Run>, most: real, agent: string, midnight: int, cap: real)
    requires IsCalendar(c) && Sequential(runs) && CostsAtMost(runs, most) && CapsWithin(c, runs, agent, midnight, cap)
    requires forall i :: 0 <= i < |runs| ==> SameDay(c, runs[i])
    ensures DaySpend(Series(c, runs), c, agent, midnight) < cap + most
  {
    DayOvershootInGeneral(c, runs, most, agent, midnight, cap);
  }

  // ----- the bound of cap plus one run, exactly -----

  /** The same runs at the same times; endings, budgets and caps may differ. */
  ghost predicate SameTimes(a: seq<Run>, b: seq<Run>) {
    |a| == |b| && forall i :: 0 <= i < |a| ==>
      b[i] == a[i].(monthlyBudget := b[i].monthlyBudget, dailyCap := b[i].dailyCap, ending := b[i].ending)
  }

  /** Whatever the runs cost, up to `most`, and whatever they are capped at, the day stays below the cap
      plus one run. */
  ghost predicate KeepsCap(c: Calendar, times: seq<Run>, agent: string, midnight: int, most: real) {
    forall runs, cap :: SameTimes(times, runs) && CostsAtMost(runs, most) && CapsWithin(c, runs, agent, midnight, cap) ==>
      DaySpend(Series(c, runs), c, agent, midnight) < cap + most
  }

  /** The times alone decide: the bound holds for all costs and caps exactly if no run of the agent's day
      slips past midnight behind an earlier one of that day. */
  lemma DayBoundIff(c: Calendar, times: seq<Run>, agent: string, midnight: int, most: real)
    requires IsCalendar(c) && Sequential(times) && most > 0.0
    ensures KeepsCap(c, times, agent, midnight, most) <==> !LateSecond(c, times, agent, midnight)
  {
    if LateSecond(c, times, agent, midnight) {
      LateSecondBreaksCap(c, times, agent, midnight, most);
    } else {
      OtherwiseCapIsKept(c, times, agent, midnight, most);
    }
  }

  lemma LateSecondBreaksCap(c: Calendar, times: seq<Run>, agent: string, midnight: int, most: real)
    requires IsCalendar(c) && Sequential(times) && most > 0.0 && LateSecond(c, times, agent, midnight)
    ensures !KeepsCap(c, times, agent, midnight, most)
  {
    var j, i :| 0 <= j < i < |times| && SlipsBehind(c, times, agent, midnight, j, i);
    var runs := Worst(times, j, i, most);
    WorstCase(c, times, agent, midnight, j, i, most);
    WorstIsAllowed(c, times, agent, midnight, j, i, most);
    assert !(DaySpend(Series(c, runs), c, agent, midnight) < most + most);
  }

  lemma WorstIsAllowed(c: Calendar, times: seq<Run>, agent: string, midnight: int, j: int, i: int, most: real)
    requires most > 0.0
    ensures var runs := Worst(times, j, i, most); SameTimes(times, runs) && CapsWithin(c, runs, agent, midnight, most)
  {
  }

  lemma OtherwiseCapIsKept(c: Calendar, times: seq<Run>, agent: string, midnight: int, most: real)
    requires IsCalendar(c) && Sequential(times) && !LateSecond(c, times, agent, midnight)
    ensures KeepsCap(c, times, agent, midnight, most)
  {
    forall runs, cap | SameTimes(times, runs) && CostsAtMost(runs, most) && CapsWithin(c, runs, agent, midnight, cap)
      ensures DaySpend(Series(c, runs), c, agent, midnight) < cap + most
    {
      SameTimesSlip(c, times, runs, agent, midnight);
      DayOvershootInGeneral(c, runs, most, agent, midnight, cap);
    }
  }

  lemma SameTimesSlip(c: Calendar, times: seq<Run>, runs: seq<Run>, agent: string, midnight: int)
    requires SameTimes(times, runs) && !LateSecond(c, times, agent, midnight)
    ensures !LateSecond(c, runs, agent, midnight)
  {
    forall j, i | 0 <= j < i < |runs| ensures !SlipsBehind(c, runs, agent, midnight, j, i) {
      assert !SlipsBehind(c, times, agent, midnight, j, i);
    }
  }

  /** Runs `j` and `i` cost all they may, the others throw, and the cap is the price of one run. */
  function Worst(times: seq<Run>, j: int, i: int, most: real): (runs: seq<Run>)
    ensures |runs| == |times|
  {
    seq(|times|, k requires 0 <= k < |times| =>
      times[k].(monthlyBudget := 0.0, dailyCap := most, ending := if k == j || k == i then Finished(most, false) else Threw))
  }

  /** The slipping run finds its gate's day empty, so the day of both is charged twice the cap. */
  lemma WorstCase(c: Calendar, times: seq<Run>, agent: string, midnight: int, j: int, i: int, most: real)
    requires IsCalendar(c) && Sequential(times) && most > 0.0
    requires 0 <= j < i < |times| && SlipsBehind(c, times, agent, midnight, j, i)
    ensures var runs := Worst(times, j, i, most);
            Sequential(runs) && CostsAtMost(runs, most) && DaySpend(Series(c, runs), c, agent, midnight) == 2.0 * most
  {
    var runs := Worst(times, j, i, most);
    WorstPrefix(c, times, agent, midnight, j, i, most, |times|, midnight);
    assert runs[..|times|] == runs;
  }

  /** After `n` runs of the worst case: what day `day` has been charged. */
  function Charged(day: int, midnight: int, n: int, j: int, i: int, most: real): real {
    if day != midnight || n <= j then 0.0 else if n <= i then most else 2.0 * most
  }

  lemma {:induction false} WorstPrefix(c: Calendar, times: seq<Run>, agent: string, midnight: int, j: int, i: int,
                                       most: real, n: nat, day: int)
    requires IsCalendar(c) && Sequential(times) && most > 0.0
    requires 0 <= j < i < |times| && SlipsBehind(c, times, agent, midnight, j, i) && n <= |times|
    ensures DaySpend(Series(c, Worst(times, j, i, most)[..n]), c, agent, day) == Charged(day, midnight, n, j, i, most)
  {
    if n > 0 {
      var k := n - 1;
      WorstPrefix(c, times, agent, midnight, j, i, most, k, day);
      if k == j || k == i {
        WorstPrefix(c, times, agent, midnight, j, i, most, k, c.midnight(times[k].gateAt));
      }
      WorstOne(c, times, agent, midnight, j, i, most, k, n, day);
    }
  }

  lemma WorstOne(c: Calendar, times: seq<Run>, agent: string, midnight: int, j: int, i: int, most: real, k: nat, n: nat, day: int)
    requires IsCalendar(c) && Sequential(times) && most > 0.0
    requires 0 <= j < i < |times| && SlipsBehind(c, times, agent, midnight, j, i) && n == k + 1 <= |times|
    requires var l := Series(c, Worst(times, j, i, most)[..k]);
             && DaySpend(l, c, agent, day) == Charged(day, midnight, k, j, i, most)
             && (k == j || k == i ==> var gateDay := c.midnight(times[k].gateAt);
                                      DaySpend(l, c, agent, gateDay) == Charged(gateDay, midnight, k, j, i, most))
    ensures DaySpend(Series(c, Worst(times, j, i, most)[..n]), c, agent, day) == Charged(day, midnight, n, j, i, most)
  {
    var all := Worst(times, j, i, most);
    var runs := all[..n];
    assert runs[..|runs| - 1] == all[..k] && runs[|runs| - 1] == all[k];
    if k == j || k == i {
      assert Charged(c.midnight(times[k].gateAt), midnight, k, j, i, most) == 0.0;
      FreeRun(c, runs, agent, day);
    } else {
      ThrownRun(c, runs, agent, day);
    }
  }

  lemma ThrownRun(c: Calendar, runs: seq<Run>, agent: string, day: int)
    requires runs != [] && runs[|runs| - 1].ending.Threw?
    ensures DaySpend(Series(c, runs), c, agent, day) == DaySpend(Series(c, runs[..|runs| - 1]), c, agent, day)
  {
    RecordDay(Series(c, runs[..|runs| - 1]), c, runs[|runs| - 1], agent, day);
  }

  /** A run whose gate finds an empty day is charged. */
  lemma FreeRun(c: Calendar, runs: seq<Run>, agent: string, day: int)
    requires IsCalendar(c) && runs != []
    requires var last := runs[|runs| - 1];
             && last.agent == agent && last.monthlyBudget <= 0.0 && last.dailyCap > 0.0
             && (forall m :: 0 <= m < |runs| - 1 ==> runs[m].startedAt <= last.gateAt)
             && DaySpend(Series(c, runs[..|runs| - 1]), c, agent, c.midnight(last.gateAt)) == 0.0
    ensures DaySpend(Series(c, runs), c, agent, day)
         == DaySpend(Series(c, runs[..|runs| - 1]), c, agent, day)
            + if OnDay(c, runs[|runs| - 1], agent, day) then CostOf(runs[|runs| - 1]) else 0.0
  {
    var before, last := runs[..|runs| - 1], runs[|runs| - 1];
    SeriesStarts(c, before, last.gateAt);
    GateJudgesItsDay(Series(c, before), c, last);
    RecordDay(Series(c, before), c, last, agent, day);
  }

  function SlipRun(startedAt: int, gateAt: int): Run {
    Run("a", "b", "p", startedAt, gateAt, gateAt, 0.0, 2.0, Finished(2.0, false))
  }

  /** Cap 2, every run costs 2: one run inside the day, then one that starts on it and is gated after
      midnight. The day is charged 4, which is not below the cap plus one run. */
  lemma MidnightSlipExceedsCapPlusOne(c: Calendar)
    requires IsCalendar(c) && c.midnight(0) == 0 && c.midnight(DAY_MS - 1) == 0 && c.midnight(DAY_MS) == DAY_MS
    ensures var runs := [SlipRun(0, 0), SlipRun(DAY_MS - 1, DAY_MS)];
            && Sequential(runs) && CostsAtMost(runs, 2.0)
            && DaySpend(Series(c, runs), c, "a", 0) == 4.0
  {
    var runs := [SlipRun(0, 0), SlipRun(DAY_MS - 1, DAY_MS)];
    WorstCase(c, runs, "a", 0, 0, 1, 2.0);
    assert Worst(runs, 0, 1, 2.0) == runs;
  }
}
