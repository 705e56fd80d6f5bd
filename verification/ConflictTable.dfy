/** The table of conflicts between goals, tasks, signals and measurement windows.
    Source: server/brain/conflict-engine.ts. */
module ConflictTable {
  import opened Collections

  datatype Ref = Ref(kind: string, id: string)

  datatype Status = Open | Resolved | Dismissed

  datatype Note = NoNote | Given(text: string) | TaskNoLongerPending | GoalNoLongerActive | WindowClosed

  datatype Row = Row(id: string, business: string, conflictType: string, category: string,
                     a: Ref, b: Ref, status: Status, note: Note)

  /** What a detector asks to have recorded. */
  datatype Request = Request(business: string, conflictType: string, category: Option<string>, a: Ref, b: Ref)

  /** The other tables the clean-up reads: statuses of tasks and goals, measured actions. */
  datatype World = World(tasks: map<string, string>, goals: map<string, string>, measured: set<string>)

  // ----- inserting -----

  /** The WHERE clause of the duplicate check. */
  predicate Matches(row: Row, q: Request) {
    && row.business == q.business && row.status.Open?
    && ((row.a == q.a && row.b == q.b) || (row.a == q.b && row.b == q.a))
  }

  /** An open conflict of this business about this unordered pair of entities. */
  ghost predicate IsAbout(row: Row, business: string, pair: set<Ref>) {
    row.status.Open? && row.business == business && {row.a, row.b} == pair
  }

  lemma MatchingIsUnordered(row: Row, q: Request)
    ensures Matches(row, q) <==> IsAbout(row, q.business, {q.a, q.b})
  {
    if IsAbout(row, q.business, {q.a, q.b}) {
      assert row.a in {q.a, q.b} && row.b in {q.a, q.b} && q.a in {row.a, row.b} && q.b in {row.a, row.b};
    }
  }

  /** Index of the first open conflict between the two entities; the number of rows if there is none. */
  function FindOpen(rows: seq<Row>, q: Request): (i: nat)
    ensures i <= |rows|
    ensures i < |rows| ==> Matches(rows[i], q)
    ensures forall j :: 0 <= j < i ==> !Matches(rows[j], q)
  {
    if rows == [] || Matches(rows[0], q) then 0 else FindOpen(rows[1..], q) + 1
  }

  predicate IdTaken(rows: seq<Row>, id: string) {
    exists i :: 0 <= i < |rows| && rows[i].id == id
  }

  function Category(q: Request): string {
    match q.category
    case Some(c) => c
    case None =>
      if q.conflictType == "task_vs_window" then "timing"
      else if q.conflictType == "goal_dependency" then "dependency"
      else "direct"
  }

  function NewRow(q: Request, id: string): Row {
    Row(id, q.business, q.conflictType, Category(q), q.a, q.b, Open, NoNote)
  }

  /** The table afterwards. A clash on the primary key throws and leaves it alone. */
  function Inserted(rows: seq<Row>, q: Request, id: string): seq<Row> {
    if FindOpen(rows, q) < |rows| || IdTaken(rows, id) then rows else rows + [NewRow(q, id)]
  }

  /** The id returned; nothing when the write throws. */
  function InsertReturns(rows: seq<Row>, q: Request, id: string): Option<string> {
    var i := FindOpen(rows, q);
    if i < |rows| then Some(rows[i].id) else if IdTaken(rows, id) then None else Some(id)
  }

  // ----- closing -----

  function Closed(rows: seq<Row>, id: string, status: Status, note: Note): (r: seq<Row>)
    ensures |r| == |rows|
  {
    seq(|rows|, i requires 0 <= i < |rows| =>
      if rows[i].id == id then rows[i].(status := status, note := note) else rows[i])
  }

  function NoteOf(text: Option<string>): Note {
    match text
    case Some(t) => Given(t)
    case None => NoNote
  }

  /** The four updates of the clean-up, in the order in which they are made. */
  datatype Pass = TaskFirst | TaskSecond | GoalEither | WindowMeasured

  predicate TaskIsOver(id: string, w: World) {
    id in w.tasks && w.tasks[id] in {"complete", "cancelled", "rejected"}
  }

  predicate GoalIsOver(id: string, w: World) {
    id in w.goals && w.goals[id] in {"achieved", "cancelled", "missed"}
  }

  predicate Hit(row: Row, pass: Pass, w: World) {
    match pass
    case TaskFirst => row.a.kind == "task" && TaskIsOver(row.a.id, w)
    case TaskSecond => row.b.kind == "task" && TaskIsOver(row.b.id, w)
    case GoalEither => (row.a.kind == "goal" && GoalIsOver(row.a.id, w)) || (row.b.kind == "goal" && GoalIsOver(row.b.id, w))
    case WindowMeasured => row.conflictType == "task_vs_window" && row.b.id in w.measured
  }

  function PassNote(pass: Pass): Note {
    match pass
    case TaskFirst => TaskNoLongerPending
    case TaskSecond => TaskNoLongerPending
    case GoalEither => GoalNoLongerActive
    case WindowMeasured => WindowClosed
  }

  function AfterPass(row: Row, pass: Pass, w: World): Row {
    if row.status.Open? && Hit(row, pass, w) then row.(status := Resolved, note := PassNote(pass)) else row
  }

  function Passed(rows: seq<Row>, pass: Pass, w: World): (r: seq<Row>)
    ensures |r| == |rows| && forall i :: 0 <= i < |rows| ==> r[i] == AfterPass(rows[i], pass, w)
  {
    seq(|rows|, i requires 0 <= i < |rows| => AfterPass(rows[i], pass, w))
  }

  /** How many rows one update changes. */
  function Changes(rows: seq<Row>, pass: Pass, w: World): nat {
    if rows == [] then 0
    else
      var n := |rows| - 1;
      Changes(rows[..n], pass, w) + (if rows[n].status.Open? && Hit(rows[n], pass, w) then 1 else 0)
  }

  function AfterTasks(rows: seq<Row>, w: World): seq<Row> {
    Passed(Passed(rows, TaskFirst, w), TaskSecond, w)
  }

  function AutoResolved(rows: seq<Row>, w: World): seq<Row> {
    Passed(Passed(AfterTasks(rows, w), GoalEither, w), WindowMeasured, w)
  }

  // ----- what the clean-up means, row by row -----

  predicate Stale(row: Row, w: World) {
    row.status.Open? && exists pass :: Hit(row, pass, w)
  }

  function Settled(row: Row, w: World): Row {
    if !row.status.Open? then row
    else if Hit(row, TaskFirst, w) || Hit(row, TaskSecond, w) then row.(status := Resolved, note := TaskNoLongerPending)
    else if Hit(row, GoalEither, w) then row.(status := Resolved, note := GoalNoLongerActive)
    else if Hit(row, WindowMeasured, w) then row.(status := Resolved, note := WindowClosed)
    else row
  }

  function StaleCount(rows: seq<Row>, w: World): nat {
    if rows == [] then 0
    else
      var n := |rows| - 1;
      StaleCount(rows[..n], w) + (if Stale(rows[n], w) then 1 else 0)
  }

  lemma SettledRow(row: Row, w: World)
    ensures AfterPass(AfterPass(AfterPass(AfterPass(row, TaskFirst, w), TaskSecond, w), GoalEither, w), WindowMeasured, w)
         == Settled(row, w)
    ensures Stale(row, w) <==> row.status.Open? && !Settled(row, w).status.Open?
  {
    if Stale(row, w) {
      var pass :| Hit(row, pass, w);
      match pass {
        case TaskFirst =>
        case TaskSecond =>
        case GoalEither =>
        case WindowMeasured =>
      }
    }
  }

  /** What settling a row means, read off the other tables: a task of the pair that is complete, cancelled or
      rejected closes it first, then a goal that is achieved, cancelled or missed, then a measured action. */
  lemma SettledMeans(row: Row, w: World)
    ensures
      var taskOver := exists e :: e in {row.a, row.b} && e.kind == "task" && e.id in w.tasks
                               && w.tasks[e.id] in {"complete", "cancelled", "rejected"};
      var goalOver := exists e :: e in {row.a, row.b} && e.kind == "goal" && e.id in w.goals
                               && w.goals[e.id] in {"achieved", "cancelled", "missed"};
      var measured := row.conflictType == "task_vs_window" && row.b.id in w.measured;
      && (Settled(row, w) == row <==> !row.status.Open? || (!taskOver && !goalOver && !measured))
      && (row.status.Open? && taskOver ==> Settled(row, w) == row.(status := Resolved, note := TaskNoLongerPending))
      && (row.status.Open? && !taskOver && goalOver ==> Settled(row, w) == row.(status := Resolved, note := GoalNoLongerActive))
      && (row.status.Open? && !taskOver && !goalOver && measured ==>
            Settled(row, w) == row.(status := Resolved, note := WindowClosed))
  {
    assert row.a in {row.a, row.b} && row.b in {row.a, row.b};
  }

  /** The four updates together close exactly the stale rows, each with the note of the first update that
      catches it, and leave every other row as it was. */
  lemma CleanUpIsRowByRow(rows: seq<Row>, w: World)
    ensures |AutoResolved(rows, w)| == |rows|
    ensures forall i :: 0 <= i < |rows| ==> AutoResolved(rows, w)[i] == Settled(rows[i], w)
    ensures forall i :: 0 <= i < |rows| ==> !Stale(AutoResolved(rows, w)[i], w)
  {
    forall i | 0 <= i < |rows|
      ensures AutoResolved(rows, w)[i] == Settled(rows[i], w) && !Stale(AutoResolved(rows, w)[i], w)
    {
      SettledRow(rows[i], w);
      SettledRow(Settled(rows[i], w), w);
    }
  }

  function TotalChanges(rows: seq<Row>, w: World): nat {
    Changes(rows, TaskFirst, w) + Changes(Passed(rows, TaskFirst, w), TaskSecond, w)
    + Changes(AfterTasks(rows, w), GoalEither, w) + Changes(Passed(AfterTasks(rows, w), GoalEither, w), WindowMeasured, w)
  }

  /** No row is counted by two of the updates: the sum is the number of stale rows. */
  lemma {:induction false} EveryStaleRowCountsOnce(rows: seq<Row>, w: World)
    ensures TotalChanges(rows, w) == StaleCount(rows, w)
  {
    if rows != [] {
      var n := |rows| - 1;
      EveryStaleRowCountsOnce(rows[..n], w);
      SettledRow(rows[n], w);
      var r1 := Passed(rows, TaskFirst, w);
      var r2 := AfterTasks(rows, w);
      var r3 := Passed(r2, GoalEither, w);
      assert r1[..n] == Passed(rows[..n], TaskFirst, w);
      assert r2[..n] == AfterTasks(rows[..n], w);
      assert r3[..n] == Passed(AfterTasks(rows[..n], w), GoalEither, w);
    }
  }

  lemma {:induction false} StaleCountIs(rows: seq<Row>, w: World)
    ensures StaleCount(rows, w) == |set i | 0 <= i < |rows| && Stale(rows[i], w)|
  {
    var stale := set i | 0 <= i < |rows| && Stale(rows[i], w);
    if rows == [] {
      assert stale == {};
    } else {
      var n := |rows| - 1;
      StaleCountIs(rows[..n], w);
      var hit := (i: int) => 0 <= i < |rows| && Stale(rows[i], w);
      OneMoreHit(hit, n);
      assert (set i | 0 <= i < n && Stale(rows[..n][i], w)) == (set i | 0 <= i < n && hit(i));
      assert stale == (set i | 0 <= i < n + 1 && hit(i));
    }
  }

  lemma {:induction false} NothingStaleIsCounted(rows: seq<Row>, w: World)
    requires forall i :: 0 <= i < |rows| ==> !Stale(rows[i], w)
    ensures StaleCount(rows, w) == 0
  {
    if rows != [] {
      NothingStaleIsCounted(rows[..|rows| - 1], w);
    }
  }

  /** A second clean-up in the same world finds nothing and changes nothing. */
  lemma CleanUpTwice(rows: seq<Row>, w: World)
    ensures TotalChanges(AutoResolved(rows, w), w) == 0
    ensures AutoResolved(AutoResolved(rows, w), w) == AutoResolved(rows, w)
  {
    var clean := AutoResolved(rows, w);
    CleanUpIsRowByRow(rows, w);
    CleanUpIsRowByRow(clean, w);
    NothingStaleIsCounted(clean, w);
    EveryStaleRowCountsOnce(clean, w);
    forall i | 0 <= i < |clean| ensures AutoResolved(clean, w)[i] == clean[i] {
      SettledRow(clean[i], w);
    }
  }

  // ----- what every step keeps -----

  /** At most one open conflict per business and unordered pair. */
  ghost predicate OneOpen(rows: seq<Row>) {
    forall i, j :: 0 <= i < j < |rows| && rows[i].status.Open? && rows[j].status.Open? && rows[i].business == rows[j].business
      ==> {rows[i].a, rows[i].b} != {rows[j].a, rows[j].b}
  }

  ghost predicate UniqueIds(rows: seq<Row>) {
    forall i, j :: 0 <= i < j < |rows| ==> rows[i].id != rows[j].id
  }

  ghost predicate Sound(rows: seq<Row>) {
    OneOpen(rows) && UniqueIds(rows)
  }

  /** The row keeps what it is about and does not reopen. */
  predicate Ages(before: Row, after: Row) {
    && after == before.(status := after.status, note := after.note)
    && (after.status.Open? ==> before.status.Open?)
  }

  ghost predicate Grows(before: seq<Row>, after: seq<Row>) {
    |before| <= |after| && forall i :: 0 <= i < |before| ==> Ages(before[i], after[i])
  }

  lemma AgeingKeepsSound(before: seq<Row>, after: seq<Row>)
    requires Sound(before) && Grows(before, after) && |before| == |after|
    ensures Sound(after)
  {
    forall i, j | 0 <= i < j < |after|
      ensures after[i].id != after[j].id
      ensures after[i].status.Open? && after[j].status.Open? && after[i].business == after[j].business ==>
                {after[i].a, after[i].b} != {after[j].a, after[j].b}
    {
      assert Ages(before[i], after[i]) && Ages(before[j], after[j]);
    }
  }

  lemma InsertingKeepsSound(rows: seq<Row>, q: Request, id: string)
    requires Sound(rows)
    ensures Sound(Inserted(rows, q, id)) && Grows(rows, Inserted(rows, q, id))
  {
    var after := Inserted(rows, q, id);
    if |after| > |rows| {
      forall i | 0 <= i < |rows| ensures rows[i].id != id && !IsAbout(rows[i], q.business, {q.a, q.b}) {
        MatchingIsUnordered(rows[i], q);
      }
    }
  }

  datatype Step = Insert(request: Request, id: string)
                | Resolve(conflict: string, resolution: Option<string>)
                | Dismiss(conflict: string, reason: Option<string>)
                | AutoResolve(world: World)

  function Apply(rows: seq<Row>, step: Step): seq<Row> {
    match step
    case Insert(q, id) => Inserted(rows, q, id)
    case Resolve(id, note) => Closed(rows, id, Resolved, NoteOf(note))
    case Dismiss(id, reason) => Closed(rows, id, Dismissed, NoteOf(reason))
    case AutoResolve(w) => AutoResolved(rows, w)
  }

  function ApplyAll(rows: seq<Row>, steps: seq<Step>): seq<Row> {
    if steps == [] then rows else Apply(ApplyAll(rows, steps[..|steps| - 1]), steps[|steps| - 1])
  }

  lemma StepsFollowOneAnother(rows: seq<Row>, steps: seq<Step>, step: Step)
    ensures ApplyAll(rows, []) == rows
    ensures ApplyAll(rows, steps + [step]) == Apply(ApplyAll(rows, steps), step)
  {
    assert (steps + [step])[..|steps|] == steps;
  }

  lemma StepKeepsSound(rows: seq<Row>, step: Step)
    requires Sound(rows)
    ensures Sound(Apply(rows, step)) && Grows(rows, Apply(rows, step))
  {
    match step {
      case Insert(q, id) => InsertingKeepsSound(rows, q, id);
      case Resolve(id, note) => AgeingKeepsSound(rows, Closed(rows, id, Resolved, NoteOf(note)));
      case Dismiss(id, reason) => AgeingKeepsSound(rows, Closed(rows, id, Dismissed, NoteOf(reason)));
      case AutoResolve(w) =>
        CleanUpIsRowByRow(rows, w);
        AgeingKeepsSound(rows, AutoResolved(rows, w));
    }
  }

  /** Over every sequence of steps: rows are never lost, no closed conflict reopens, ids stay distinct and
      each pair of a business has at most one open conflict. */
  lemma {:induction false} ClosedNeverReopens(rows: seq<Row>, steps: seq<Step>)
    requires Sound(rows)
    ensures Sound(ApplyAll(rows, steps)) && Grows(rows, ApplyAll(rows, steps))
  {
    if steps != [] {
      var n := |steps| - 1;
      var mid := ApplyAll(rows, steps[..n]);
      ClosedNeverReopens(rows, steps[..n]);
      StepKeepsSound(mid, steps[n]);
      forall i | 0 <= i < |rows| ensures Ages(rows[i], ApplyAll(rows, steps)[i]) {
        assert Ages(rows[i], mid[i]) && Ages(mid[i], Apply(mid, steps[n])[i]);
      }
    }
  }

  lemma OneOpenPerPair(steps: seq<Step>)
    ensures OneOpen(ApplyAll([], steps)) && UniqueIds(ApplyAll([], steps))
  {
    ClosedNeverReopens([], steps);
  }

  ghost function OpenIds(rows: seq<Row>, business: string, pair: set<Ref>): set<string> {
    set i | 0 <= i < |rows| && IsAbout(rows[i], business, pair) :: rows[i].id
  }

  /** Whatever happened before, an insert that does not throw returns the id of the one open conflict of
      its pair; it throws only when the pair has none and the new id is taken. */
  lemma InsertReturnsTheOpenConflict(steps: seq<Step>, q: Request, id: string)
    ensures var rows := ApplyAll([], steps);
            var pair := {q.a, q.b};
            && (InsertReturns(rows, q, id).None? <==> OpenIds(rows, q.business, pair) == {} && IdTaken(rows, id))
            && (InsertReturns(rows, q, id).Some? ==>
                  OpenIds(Inserted(rows, q, id), q.business, pair) == {InsertReturns(rows, q, id).value})
  {
    var rows := ApplyAll([], steps);
    OneOpenPerPair(steps);
    NoneOpenIff(rows, q);
    InsertingKeepsSound(rows, q, id);
    if InsertReturns(rows, q, id).Some? {
      NewRowIsFound(rows, q, id);
      var after := Inserted(rows, q, id);
      OnlyOneIsOpen(after, q, FindOpen(after, q));
    }
  }

  /** What an insert does to a table without two open conflicts of one pair: an open conflict of the pair is
      returned and nothing written; otherwise a new id gets an open row that says what was asked, with the
      category the type of conflict stands for if none is given. */
  lemma InsertMeans(rows: seq<Row>, q: Request, id: string)
    requires OneOpen(rows)
    ensures forall i :: 0 <= i < |rows| && IsAbout(rows[i], q.business, {q.a, q.b}) ==>
              Inserted(rows, q, id) == rows && InsertReturns(rows, q, id) == Some(rows[i].id)
    ensures (forall i :: 0 <= i < |rows| ==> !IsAbout(rows[i], q.business, {q.a, q.b})) ==>
              if exists i :: 0 <= i < |rows| && rows[i].id == id then
                Inserted(rows, q, id) == rows && InsertReturns(rows, q, id) == None
              else
                var category := if q.category.Some? then q.category.value
                                else if q.conflictType == "task_vs_window" then "timing"
                                else if q.conflictType == "goal_dependency" then "dependency"
                                else "direct";
                && Inserted(rows, q, id) == rows + [Row(id, q.business, q.conflictType, category, q.a, q.b, Open, NoNote)]
                && InsertReturns(rows, q, id) == Some(id)
  {
    var k := FindOpen(rows, q);
    forall i | 0 <= i < |rows| ensures Matches(rows[i], q) <==> IsAbout(rows[i], q.business, {q.a, q.b}) {
      MatchingIsUnordered(rows[i], q);
    }
    forall i | 0 <= i < |rows| && IsAbout(rows[i], q.business, {q.a, q.b}) ensures k < |rows| && i == k {
      assert k <= i && Matches(rows[k], q);
    }
  }

  lemma NoneOpenIff(rows: seq<Row>, q: Request)
    ensures OpenIds(rows, q.business, {q.a, q.b}) == {} <==> FindOpen(rows, q) == |rows|
  {
    var k := FindOpen(rows, q);
    forall i | 0 <= i < |rows| ensures Matches(rows[i], q) <==> IsAbout(rows[i], q.business, {q.a, q.b}) {
      MatchingIsUnordered(rows[i], q);
    }
    if k < |rows| {
      assert rows[k].id in OpenIds(rows, q.business, {q.a, q.b});
    }
  }

  lemma OnlyOneIsOpen(rows: seq<Row>, q: Request, k: nat)
    requires OneOpen(rows) && k < |rows| && Matches(rows[k], q)
    ensures OpenIds(rows, q.business, {q.a, q.b}) == {rows[k].id}
  {
    MatchingIsUnordered(rows[k], q);
    forall i | 0 <= i < |rows| && IsAbout(rows[i], q.business, {q.a, q.b}) ensures i == k {
    }
  }

  // ----- a detector's sweep -----

  /** Inserting one request after the other, each with the id generated for it; a throw ends the sweep. */
  function Swept(rows: seq<Row>, requests: seq<Request>, ids: seq<string>): seq<Row>
    requires |ids| == |requests|
    decreases |requests|
  {
    if requests == [] || InsertReturns(rows, requests[0], ids[0]).None? then rows
    else Swept(Inserted(rows, requests[0], ids[0]), requests[1..], ids[1..])
  }

  /** The ids collected; nothing if one of the inserts throws. */
  function SweepReturns(rows: seq<Row>, requests: seq<Request>, ids: seq<string>): Option<seq<string>>
    requires |ids| == |requests|
    decreases |requests|
  {
    if requests == [] then Some([])
    else
      match InsertReturns(rows, requests[0], ids[0])
      case None => None
      case Some(id) => Collected(id, SweepReturns(Inserted(rows, requests[0], ids[0]), requests[1..], ids[1..]))
  }

  function Collected(id: string, rest: Option<seq<string>>): Option<seq<string>> {
    match rest
    case None => None
    case Some(ids) => Some([id] + ids)
  }

  /** A request with its two entities the other way round, whatever else it says, is the same pair. */
  predicate SamePair(p: Request, q: Request) {
    p.business == q.business && {p.a, p.b} == {q.a, q.b}
  }

  lemma {:induction false} FindIsStable(rows: seq<Row>, more: seq<Row>, p: Request, q: Request)
    requires SamePair(p, q) && FindOpen(rows, p) < |rows|
    ensures FindOpen(rows + more, q) == FindOpen(rows, p)
  {
    MatchingIsUnordered(rows[0], p);
    MatchingIsUnordered(rows[0], q);
    if !Matches(rows[0], p) {
      assert (rows + more)[1..] == rows[1..] + more;
      FindIsStable(rows[1..], more, p, q);
    }
  }

  lemma {:induction false} SweepAppends(rows: seq<Row>, requests: seq<Request>, ids: seq<string>)
    requires |ids| == |requests|
    ensures rows <= Swept(rows, requests, ids)
    decreases |requests|
  {
    if requests != [] && InsertReturns(rows, requests[0], ids[0]).Some? {
      var next := Inserted(rows, requests[0], ids[0]);
      assert rows <= next;
      SweepAppends(next, requests[1..], ids[1..]);
      assert next <= Swept(rows, requests, ids);
    }
  }

  /** What a sweep that does not throw leaves: behind the rows there were, new ones as requested, and under
      each id returned a row of the requested pair that is open. */
  lemma {:induction false} SweepMeans(rows: seq<Row>, requests: seq<Request>, ids: seq<string>)
    requires |ids| == |requests| && Sound(rows)
    ensures rows <= Swept(rows, requests, ids)
    ensures forall k :: |rows| <= k < |Swept(rows, requests, ids)| ==> Requested(Swept(rows, requests, ids)[k], requests, ids)
    ensures SweepReturns(rows, requests, ids).Some? ==>
              var returned := SweepReturns(rows, requests, ids).value;
              && |returned| == |requests|
              && forall i :: 0 <= i < |requests| ==> OpenUnder(Swept(rows, requests, ids), returned[i], requests[i])
    decreases |requests|
  {
    if requests != [] && InsertReturns(rows, requests[0], ids[0]).Some? {
      var next := Inserted(rows, requests[0], ids[0]);
      var table := Swept(rows, requests, ids);
      InsertingKeepsSound(rows, requests[0], ids[0]);
      SweepMeans(next, requests[1..], ids[1..]);
      NewRowIsFound(rows, requests[0], ids[0]);
      forall k | |rows| <= k < |table| ensures Requested(table[k], requests, ids) {
        if k < |next| {
          assert table[k] == NewRow(requests[0], ids[0]);
        } else {
          var i :| 0 <= i < |requests[1..]| && RecordedAs(table[k], requests[1..][i], ids[1..][i]);
          assert RecordedAs(table[k], requests[i + 1], ids[i + 1]);
        }
      }
      if SweepReturns(rows, requests, ids).Some? {
        var returned := SweepReturns(rows, requests, ids).value;
        var k := FindOpen(next, requests[0]);
        MatchingIsUnordered(next[k], requests[0]);
        assert table[k] == next[k];
        forall i | 0 <= i < |requests| ensures OpenUnder(table, returned[i], requests[i]) {
          if i > 0 {
            assert OpenUnder(table, returned[1..][i - 1], requests[1..][i - 1]);
          }
        }
      }
    }
  }

  /** With new ids no sweep throws. */
  lemma {:induction false} NewIdsNeverThrow(rows: seq<Row>, requests: seq<Request>, ids: seq<string>)
    requires |ids| == |requests| && NoDuplicates(ids)
    requires forall i, k :: 0 <= i < |ids| && 0 <= k < |rows| ==> rows[k].id != ids[i]
    ensures SweepReturns(rows, requests, ids).Some?
    decreases |requests|
  {
    if requests != [] {
      var next := Inserted(rows, requests[0], ids[0]);
      forall i, k | 0 <= i < |ids[1..]| && 0 <= k < |next| ensures next[k].id != ids[1..][i] {
        assert ids[1..][i] == ids[i + 1];
      }
      NewIdsNeverThrow(next, requests[1..], ids[1..]);
    }
  }

  /** The row says what the request says, under the id generated for it. */
  ghost predicate RecordedAs(row: Row, q: Request, id: string) {
    row.id == id && row.business == q.business && row.conflictType == q.conflictType && row.a == q.a && row.b == q.b
    && row.status.Open?
  }

  ghost predicate Requested(row: Row, requests: seq<Request>, ids: seq<string>)
    requires |ids| == |requests|
  {
    exists i :: 0 <= i < |requests| && RecordedAs(row, requests[i], ids[i])
  }

  ghost predicate OpenUnder(rows: seq<Row>, id: string, q: Request) {
    exists k :: 0 <= k < |rows| && rows[k].id == id && IsAbout(rows[k], q.business, {q.a, q.b})
  }

  lemma NewRowIsFound(rows: seq<Row>, q: Request, id: string)
    requires InsertReturns(rows, q, id).Some?
    ensures var after := Inserted(rows, q, id);
            FindOpen(after, q) < |after| && after[FindOpen(after, q)].id == InsertReturns(rows, q, id).value
  {
    var after := Inserted(rows, q, id);
    if FindOpen(rows, q) == |rows| {
      assert Matches(after[|rows|], q);
      assert forall j :: 0 <= j < |rows| ==> after[j] == rows[j];
    }
  }

  /** Sweeping again, with the pairs either way round and fresh ids, records nothing and returns the ids
      of the first sweep. */
  lemma {:induction false} SweepTwiceIsSweepOnce(rows: seq<Row>, requests: seq<Request>, ids: seq<string>,
                                                 again: seq<Request>, others: seq<string>)
    requires |ids| == |requests| == |again| == |others|
    requires forall i :: 0 <= i < |again| ==>
               requests[i].business == again[i].business && {requests[i].a, requests[i].b} == {again[i].a, again[i].b}
    requires SweepReturns(rows, requests, ids).Some?
    ensures var table := Swept(rows, requests, ids);
            && Swept(table, again, others) == table
            && SweepReturns(table, again, others) == SweepReturns(rows, requests, ids)
    decreases |requests|
  {
    if requests != [] {
      var next := Inserted(rows, requests[0], ids[0]);
      var table := Swept(rows, requests, ids);
      SweepTwiceIsSweepOnce(next, requests[1..], ids[1..], again[1..], others[1..]);
      NewRowIsFound(rows, requests[0], ids[0]);
      SweepAppends(next, requests[1..], ids[1..]);
      assert table == next + table[|next|..];
      FindIsStable(next, table[|next|..], requests[0], again[0]);
    }
  }

  function After(collected: seq<string>, rest: Option<seq<string>>): Option<seq<string>> {
    match rest
    case None => None
    case Some(ids) => Some(collected + ids)
  }

  lemma AfterNothing(rest: Option<seq<string>>)
    ensures After([], rest) == rest
  {
    if rest.Some? {
      assert [] + rest.value == rest.value;
    }
  }

  lemma AfterCollected(collected: seq<string>, id: string, rest: Option<seq<string>>)
    ensures After(collected, Collected(id, rest)) == After(collected + [id], rest)
  {
    if rest.Some? {
      assert collected + ([id] + rest.value) == collected + [id] + rest.value;
    }
  }

  // ----- the table -----

  class ConflictStore {
    var rows: seq<Row>

    ghost predicate Valid()
      reads this
    {
      Sound(rows)
    }

    constructor ()
      ensures Valid() && rows == []
    {
      rows := [];
    }

    method InsertConflict(q: Request, id: string) returns (r: Option<string>)
      requires Valid()
      modifies this
      ensures Valid() && rows == Apply(old(rows), Insert(q, id))
      ensures r == InsertReturns(old(rows), q, id)
    {
      StepKeepsSound(rows, Insert(q, id));
      var i := FindOpen(rows, q);
      if i < |rows| {
        return Some(rows[i].id);
      }
      if IdTaken(rows, id) {
        return None;
      }
      rows := rows + [NewRow(q, id)];
      return Some(id);
    }

    /** The loop of a detector: one insert per finding, collecting the ids. */
    method Sweep(requests: seq<Request>, ids: seq<string>) returns (returned: Option<seq<string>>)
      requires Valid() && |ids| == |requests|
      modifies this
      ensures Valid() && rows == Swept(old(rows), requests, ids)
      ensures returned == SweepReturns(old(rows), requests, ids)
    {
      var collected: seq<string> := [];
      AfterNothing(SweepReturns(rows, requests, ids));
      assert requests[0..] == requests && ids[0..] == ids;
      for i := 0 to |requests|
        invariant Valid()
        invariant Swept(old(rows), requests, ids) == Swept(rows, requests[i..], ids[i..])
        invariant SweepReturns(old(rows), requests, ids) == After(collected, SweepReturns(rows, requests[i..], ids[i..]))
      {
        assert requests[i..][1..] == requests[i + 1..] && ids[i..][1..] == ids[i + 1..];
        var id := InsertConflict(requests[i], ids[i]);
        if id.None? {
          return None;
        }
        AfterCollected(collected, id.value, SweepReturns(rows, requests[i + 1..], ids[i + 1..]));
        collected := collected + [id.value];
      }
      assert collected + [] == collected;
      return Some(collected);
    }

    method ResolveConflict(id: string, note: Option<string>)
      requires Valid()
      modifies this
      ensures Valid() && rows == Apply(old(rows), Resolve(id, note))
      ensures |rows| == |old(rows)|
      ensures forall i :: 0 <= i < |rows| && old(rows)[i].id != id ==> rows[i] == old(rows)[i]
      ensures forall i :: 0 <= i < |rows| && old(rows)[i].id == id ==>
                rows[i] == old(rows)[i].(status := Resolved, note := if note.Some? then Given(note.value) else NoNote)
    {
      StepKeepsSound(rows, Resolve(id, note));
      rows := Closed(rows, id, Resolved, NoteOf(note));
    }

    method DismissConflict(id: string, reason: Option<string>)
      requires Valid()
      modifies this
      ensures Valid() && rows == Apply(old(rows), Dismiss(id, reason))
      ensures |rows| == |old(rows)|
      ensures forall i :: 0 <= i < |rows| && old(rows)[i].id != id ==> rows[i] == old(rows)[i]
      ensures forall i :: 0 <= i < |rows| && old(rows)[i].id == id ==>
                rows[i] == old(rows)[i].(status := Dismissed, note := if reason.Some? then Given(reason.value) else NoNote)
    {
      StepKeepsSound(rows, Dismiss(id, reason));
      rows := Closed(rows, id, Dismissed, NoteOf(reason));
    }

    /** One UPDATE over the open rows; the number of rows it changes. */
    method RunPass(pass: Pass, w: World) returns (changes: nat)
      modifies this
      ensures rows == Passed(old(rows), pass, w)
      ensures changes == Changes(old(rows), pass, w)
    {
      changes := 0;
      for i := 0 to |rows|
        invariant |rows| == |old(rows)|
        invariant forall j :: 0 <= j < i ==> rows[j] == AfterPass(old(rows)[j], pass, w)
        invariant forall j :: i <= j < |rows| ==> rows[j] == old(rows)[j]
        invariant changes == Changes(old(rows)[..i], pass, w)
      {
        assert old(rows)[..i + 1][..i] == old(rows)[..i];
        if rows[i].status.Open? && Hit(rows[i], pass, w) {
          rows := rows[i := rows[i].(status := Resolved, note := PassNote(pass))];
          changes := changes + 1;
        }
      }
      assert old(rows)[..|old(rows)|] == old(rows);
    }

    method RunPasses(w: World) returns (total: nat)
      modifies this
      ensures rows == AutoResolved(old(rows), w)
      ensures total == TotalChanges(old(rows), w)
    {
      var taskFirst := RunPass(TaskFirst, w);
      var taskSecond := RunPass(TaskSecond, w);
      var goals := RunPass(GoalEither, w);
      var windows := RunPass(WindowMeasured, w);
      total := taskFirst + taskSecond + goals + windows;
    }

    /** Closes the stale rows and returns how many there were. */
    method AutoResolveStale(w: World) returns (total: nat)
      requires Valid()
      modifies this
      ensures Valid() && rows == Apply(old(rows), AutoResolve(w))
      ensures |rows| == |old(rows)| && forall i :: 0 <= i < |rows| ==> rows[i] == Settled(old(rows)[i], w)
      ensures total == |set i | 0 <= i < |rows| && old(rows)[i].status.Open? && !rows[i].status.Open?|
    {
      CleanUpIsRowByRow(rows, w);
      StaleCountIs(rows, w);
      StepKeepsSound(rows, AutoResolve(w));
      EveryStaleRowCountsOnce(rows, w);
      ghost var cleaned := Apply(rows, AutoResolve(w));
      ghost var before := rows;
      total := RunPasses(w);
      assert rows == cleaned;
      forall i | 0 <= i < |before| ensures Stale(before[i], w) <==> before[i].status.Open? && !rows[i].status.Open? {
        SettledRow(before[i], w);
      }
      assert (set i | 0 <= i < |rows| && before[i].status.Open? && !rows[i].status.Open?)
          == (set i | 0 <= i < |before| && Stale(before[i], w));
    }
  }
}
