/** Upserting entities and edges, as values: what one `createEdge` does to the two tables, and
    what a whole list of them leaves behind. Source: server/brain/knowledge-graph.ts. */
module GraphRebuild {
  import opened Collections
  import opened GraphBalls

  datatype Ref = Ref(table: string, id: string)

  datatype Entity = Entity(id: Id, business: Option<string>, kind: string, ref: Option<Ref>,
                           caption: string, createdAt: int)

  /** The two tables, and how many UUIDs have been drawn so far. */
  datatype Graph = Graph(entities: seq<Entity>, edges: seq<Edge>, minted: nat)

  /** The arguments of one `createEdge` call. */
  datatype Command = Command(business: string, fromRef: Ref, fromLabel: string, fromKind: string,
                             toRef: Ref, toLabel: string, toKind: string,
                             kind: string, evidence: Option<string>)

  // ----- one command -----

  /** `SELECT id FROM kg_entities WHERE ref_table = ? AND ref_id = ?` */
  function FindRef(entities: seq<Entity>, ref: Ref): Option<Id> {
    if entities == [] then None
    else if entities[0].ref == Some(ref) then Some(entities[0].id)
    else FindRef(entities[1..], ref)
  }

  function WithEntity(g: Graph, business: string, kind: string, ref: Ref, caption: string, now: int): Graph {
    if FindRef(g.entities, ref).Some? then g
    else Graph(g.entities + [Entity(g.minted, Some(business), kind, Some(ref), caption, now)], g.edges, g.minted + 1)
  }

  /** The columns of the unique index on `kg_edges`. */
  datatype EdgeKey = EdgeKey(from: Id, to: Id, kind: string)

  function KeyOf(e: Edge): EdgeKey {
    EdgeKey(e.from, e.to, e.kind)
  }

  predicate HasKey(edges: seq<Edge>, key: EdgeKey) {
    exists i :: 0 <= i < |edges| && KeyOf(edges[i]) == key
  }

  /** `ON CONFLICT ... DO UPDATE SET weight, evidence` applied to one row. */
  function Overwritten(row: Edge, e: Edge): Edge {
    if KeyOf(row) == KeyOf(e) then row.(weight := e.weight, evidence := e.evidence) else row
  }

  /** The upsert on the edge table. */
  function PutEdge(edges: seq<Edge>, e: Edge): (r: seq<Edge>)
    ensures |r| == if HasKey(edges, KeyOf(e)) then |edges| else |edges| + 1
    ensures forall i :: 0 <= i < |edges| ==> r[i] == Overwritten(edges[i], e)
    ensures !HasKey(edges, KeyOf(e)) ==> r == edges + [e]
  {
    if HasKey(edges, KeyOf(e)) then seq(|edges|, i requires 0 <= i < |edges| => Overwritten(edges[i], e))
    else edges + [e]
  }

  function WithEdge(g: Graph, business: string, from: Id, to: Id, kind: string, weight: real,
                    evidence: Option<string>, now: int): Graph
  {
    if from == to then g
    else Graph(g.entities,
               PutEdge(g.edges, Edge(g.minted, Some(business), from, to, kind, weight, evidence, now)),
               g.minted + 1)
  }

  function WithBothEnds(g: Graph, c: Command, now: int): (h: Graph)
    ensures FindRef(h.entities, c.fromRef).Some? && FindRef(h.entities, c.toRef).Some?
  {
    var g1 := WithEntity(g, c.business, c.fromKind, c.fromRef, c.fromLabel, now);
    var g2 := WithEntity(g1, c.business, c.toKind, c.toRef, c.toLabel, now);
    FindRefAppend(g.entities, g1.entities, c.fromRef);
    FindRefAppend(g1.entities, g2.entities, c.fromRef);
    FindRefAppend(g1.entities, g2.entities, c.toRef);
    g2
  }

  /** What `createEdge` does. */
  function Step(g: Graph, c: Command, now: int): Graph {
    var h := WithBothEnds(g, c, now);
    WithEdge(h, c.business, FindRef(h.entities, c.fromRef).value, FindRef(h.entities, c.toRef).value,
             c.kind, 1.0, c.evidence, now)
  }

  /** An entity upsert changes nothing if some row has the reference, and otherwise adds one row. */
  lemma WithEntityIs(g: Graph, business: string, kind: string, ref: Ref, caption: string, now: int)
    ensures WithEntity(g, business, kind, ref, caption, now)
         == if exists i :: 0 <= i < |g.entities| && g.entities[i].ref == Some(ref) then g
            else Graph(g.entities + [Entity(g.minted, Some(business), kind, Some(ref), caption, now)], g.edges, g.minted + 1)
  {
    FindRefMeaning(g.entities, ref);
  }

  /** An edge upsert between different entities gives the row of that pair and kind the new weight and evidence,
      and adds a row if there is none; everything else stays. */
  lemma WithEdgeIs(g: Graph, business: string, from: Id, to: Id, kind: string, weight: real, evidence: Option<string>, now: int)
    ensures var h := WithEdge(g, business, from, to, kind, weight, evidence, now);
      && (from == to ==> h == g)
      && (from != to ==>
            && h.entities == g.entities && |g.edges| <= |h.edges|
            && (forall i :: 0 <= i < |g.edges| ==>
                  h.edges[i] == if g.edges[i].from == from && g.edges[i].to == to && g.edges[i].kind == kind
                                then g.edges[i].(weight := weight, evidence := evidence) else g.edges[i])
            && h.edges[|g.edges|..]
               == if exists i :: 0 <= i < |g.edges| && g.edges[i].from == from && g.edges[i].to == to && g.edges[i].kind == kind
                  then [] else [Edge(g.minted, Some(business), from, to, kind, weight, evidence, now)])
  {
    if from != to {
      var e := Edge(g.minted, Some(business), from, to, kind, weight, evidence, now);
      var r := PutEdge(g.edges, e);
      assert HasKey(g.edges, KeyOf(e)) <==>
             exists i :: 0 <= i < |g.edges| && g.edges[i].from == from && g.edges[i].to == to && g.edges[i].kind == kind;
      if HasKey(g.edges, KeyOf(e)) {
        assert r[|g.edges|..] == [];
      }
    }
  }

  function RunAll(g: Graph, cs: seq<Command>, now: int): Graph {
    if cs == [] then g else Step(RunAll(g, cs[..|cs| - 1], now), cs[|cs| - 1], now)
  }

  lemma {:induction false} RunAllAppend(g: Graph, a: seq<Command>, b: seq<Command>, now: int)
    ensures RunAll(g, a + b, now) == RunAll(RunAll(g, a, now), b, now)
  {
    if b == [] {
      assert a + b == a;
    } else {
      RunAllAppend(g, a, b[..|b| - 1], now);
      AppendLast(a, b);
    }
  }

  // ----- finding entities -----

  /** A reference finds one of its rows, and fails only when it has none. */
  lemma {:induction false} FindRefMeaning(entities: seq<Entity>, ref: Ref)
    ensures match FindRef(entities, ref)
            case Some(id) => exists i :: 0 <= i < |entities| && entities[i].ref == Some(ref) && entities[i].id == id
            case None => forall i :: 0 <= i < |entities| ==> entities[i].ref != Some(ref)
  {
    if entities != [] && entities[0].ref != Some(ref) {
      FindRefMeaning(entities[1..], ref);
      assert forall i :: 1 <= i < |entities| ==> entities[i] == entities[1..][i - 1];
      if FindRef(entities[1..], ref).Some? {
        var i :| 0 <= i < |entities[1..]| && entities[1..][i].ref == Some(ref)
              && entities[1..][i].id == FindRef(entities[1..], ref).value;
        assert entities[i + 1].ref == Some(ref);
      }
    }
  }

  /** Rows appended later never change which row a reference finds. */
  lemma {:induction false} FindRefAppend(entities: seq<Entity>, longer: seq<Entity>, ref: Ref)
    requires entities <= longer
    ensures FindRef(entities, ref).Some? ==> FindRef(longer, ref) == FindRef(entities, ref)
    ensures FindRef(entities, ref).None? && |longer| == |entities| + 1 && longer[|entities|].ref == Some(ref) ==>
              FindRef(longer, ref) == Some(longer[|entities|].id)
  {
    if entities == [] {
    } else {
      FindRefAppend(entities[1..], longer[1..], ref);
    }
  }

  // ----- what every reachable graph satisfies -----

  ghost predicate UniqueEntities(g: Graph) {
    && (forall i, j :: 0 <= i < j < |g.entities| ==> g.entities[i].id != g.entities[j].id)
    && (forall i, j :: 0 <= i < j < |g.entities| && g.entities[i].ref.Some? ==> g.entities[i].ref != g.entities[j].ref)
    && (forall i :: 0 <= i < |g.entities| ==> g.entities[i].id < g.minted)
  }

  ghost predicate UniqueEdges(g: Graph) {
    && (forall i, j :: 0 <= i < j < |g.edges| ==> KeyOf(g.edges[i]) != KeyOf(g.edges[j]))
    && (forall i, j :: 0 <= i < j < |g.edges| ==> g.edges[i].id != g.edges[j].id)
    && (forall i :: 0 <= i < |g.edges| ==> g.edges[i].id < g.minted)
  }

  ghost predicate IsEntity(g: Graph, id: Id) {
    exists i :: 0 <= i < |g.entities| && g.entities[i].id == id
  }

  /** One entity per reference, one edge per (from, to, kind), no self-loops, existing endpoints. */
  ghost predicate Consistent(g: Graph) {
    && UniqueEntities(g)
    && UniqueEdges(g)
    && forall i :: 0 <= i < |g.edges| ==>
         g.edges[i].from != g.edges[i].to && IsEntity(g, g.edges[i].from) && IsEntity(g, g.edges[i].to)
  }

  const EMPTY := Graph([], [], 0)

  lemma WithEntityConsistent(g: Graph, business: string, kind: string, ref: Ref, caption: string, now: int)
    requires Consistent(g)
    ensures Consistent(WithEntity(g, business, kind, ref, caption, now))
  {
    var h := WithEntity(g, business, kind, ref, caption, now);
    FindRefMeaning(g.entities, ref);
    forall id | IsEntity(g, id) ensures IsEntity(h, id) {
      var i :| 0 <= i < |g.entities| && g.entities[i].id == id;
      assert h.entities[i].id == id;
    }
  }

  lemma PutEdgeUnique(edges: seq<Edge>, e: Edge)
    requires forall i, j :: 0 <= i < j < |edges| ==> KeyOf(edges[i]) != KeyOf(edges[j]) && edges[i].id != edges[j].id
    requires forall i :: 0 <= i < |edges| ==> edges[i].id != e.id
    ensures var r := PutEdge(edges, e);
            forall i, j :: 0 <= i < j < |r| ==> KeyOf(r[i]) != KeyOf(r[j]) && r[i].id != r[j].id
  {
    var r := PutEdge(edges, e);
    forall i | 0 <= i < |edges| ensures KeyOf(r[i]) == KeyOf(edges[i]) && r[i].id == edges[i].id {
      assert r[i] == Overwritten(edges[i], e);
    }
  }

  lemma WithEdgeConsistent(g: Graph, business: string, from: Id, to: Id, kind: string, weight: real,
                           evidence: Option<string>, now: int)
    requires Consistent(g) && IsEntity(g, from) && IsEntity(g, to)
    ensures Consistent(WithEdge(g, business, from, to, kind, weight, evidence, now))
  {
    if from != to {
      var h := WithEdge(g, business, from, to, kind, weight, evidence, now);
      var e := Edge(g.minted, Some(business), from, to, kind, weight, evidence, now);
      assert h == Graph(g.entities, PutEdge(g.edges, e), g.minted + 1);
      PutEdgeUnique(g.edges, e);
      assert forall id :: IsEntity(g, id) ==> IsEntity(h, id);
      forall i | 0 <= i < |h.edges|
        ensures h.edges[i].id < h.minted
        ensures h.edges[i].from != h.edges[i].to && IsEntity(h, h.edges[i].from) && IsEntity(h, h.edges[i].to)
      {
        if i < |g.edges| {
          assert h.edges[i] == Overwritten(g.edges[i], e);
        }
      }
    }
  }

  lemma StepConsistent(g: Graph, c: Command, now: int)
    requires Consistent(g)
    ensures Consistent(Step(g, c, now))
  {
    var g1 := WithEntity(g, c.business, c.fromKind, c.fromRef, c.fromLabel, now);
    WithEntityConsistent(g, c.business, c.fromKind, c.fromRef, c.fromLabel, now);
    WithEntityConsistent(g1, c.business, c.toKind, c.toRef, c.toLabel, now);
    var h := WithBothEnds(g, c, now);
    FindRefMeaning(h.entities, c.fromRef);
    FindRefMeaning(h.entities, c.toRef);
    WithEdgeConsistent(h, c.business, FindRef(h.entities, c.fromRef).value, FindRef(h.entities, c.toRef).value,
                       c.kind, 1.0, c.evidence, now);
  }

  /** Every list of commands keeps the tables consistent. */
  lemma {:induction false} RunAllConsistent(g: Graph, cs: seq<Command>, now: int)
    requires Consistent(g)
    ensures Consistent(RunAll(g, cs, now))
  {
    if cs != [] {
      RunAllConsistent(g, cs[..|cs| - 1], now);
      StepConsistent(RunAll(g, cs[..|cs| - 1], now), cs[|cs| - 1], now);
    }
  }

  // ----- the first mention of a reference names its entity -----

  datatype Mention = Mention(business: string, ref: Ref, kind: string, caption: string)

  /** A list of commands mentions references in this order: of each command, where its edge starts, then where
      it ends. */
  function MentionAt(cs: seq<Command>, m: nat): Mention
    requires m < 2 * |cs|
  {
    var c := cs[m / 2];
    if m % 2 == 0 then Mention(c.business, c.fromRef, c.fromKind, c.fromLabel)
    else Mention(c.business, c.toRef, c.toKind, c.toLabel)
  }

  ghost predicate NamedBy(e: Entity, n: Mention, now: int) {
    e == Entity(e.id, Some(n.business), n.kind, Some(n.ref), n.caption, now)
  }

  ghost predicate FirstMention(cs: seq<Command>, m: int, e: Entity, now: int) {
    && 0 <= m < 2 * |cs| && NamedBy(e, MentionAt(cs, m), now)
    && forall j :: 0 <= j < m ==> MentionAt(cs, j).ref != MentionAt(cs, m).ref
  }

  lemma NewRow(g: Graph, c: Command, now: int, k: nat)
    requires |g.entities| <= k < |Step(g, c, now).entities|
    ensures var e := Step(g, c, now).entities[k];
            || (NamedBy(e, Mention(c.business, c.fromRef, c.fromKind, c.fromLabel), now) && FindRef(g.entities, c.fromRef).None?)
            || (NamedBy(e, Mention(c.business, c.toRef, c.toKind, c.toLabel), now) && FindRef(g.entities, c.toRef).None?
                && c.toRef != c.fromRef)
  {
    var g1 := WithEntity(g, c.business, c.fromKind, c.fromRef, c.fromLabel, now);
    FindRefAppend(g.entities, g1.entities, c.fromRef);
    FindRefAppend(g.entities, g1.entities, c.toRef);
  }

  lemma MentionsResolve(entities: seq<Entity>, cs: seq<Command>, m: nat)
    requires m < 2 * |cs| && forall i :: 0 <= i < |cs| ==> Resolves(entities, cs[i])
    ensures FindRef(entities, MentionAt(cs, m).ref).Some?
  {
    assert Resolves(entities, cs[m / 2]);
  }

  /** The rows there were stay as they are, and every other row holds what the first mention of its reference
      says: later ones change neither its title nor its type. */
  lemma {:induction false} EntitiesAreFirstMentions(g: Graph, cs: seq<Command>, now: int, k: nat)
    requires k < |RunAll(g, cs, now).entities|
    ensures var e := RunAll(g, cs, now).entities[k];
            if k < |g.entities| then e == g.entities[k] else exists m :: FirstMention(cs, m, e, now)
  {
    if cs != [] {
      var n := |cs| - 1;
      var before, after := RunAll(g, cs[..n], now), RunAll(g, cs, now);
      StepExtends(before, cs[n], now);
      RunAllExtends(g, cs[..n], now);
      forall m: nat | m < 2 * n ensures MentionAt(cs, m) == MentionAt(cs[..n], m) {
      }
      if k < |before.entities| {
        EntitiesAreFirstMentions(g, cs[..n], now, k);
        if k >= |g.entities| {
          var m :| FirstMention(cs[..n], m, before.entities[k], now);
          assert FirstMention(cs, m, after.entities[k], now);
        }
      } else {
        NewMention(cs, cs[..n], before, after, now, k);
      }
    }
  }

  lemma NewMention(cs: seq<Command>, earlier: seq<Command>, before: Graph, after: Graph, now: int, k: nat)
    requires cs != [] && earlier == cs[..|cs| - 1] && after == Step(before, cs[|cs| - 1], now)
    requires |before.entities| <= k < |after.entities|
    requires forall i :: 0 <= i < |earlier| ==> Resolves(before.entities, earlier[i])
    ensures exists m :: FirstMention(cs, m, after.entities[k], now)
  {
    var n, e := |cs| - 1, after.entities[k];
    NewRow(before, cs[n], now, k);
    forall j: nat | j < 2 * n ensures FindRef(before.entities, MentionAt(cs, j).ref).Some? {
      MentionsResolve(before.entities, earlier, j);
      assert MentionAt(cs, j) == MentionAt(earlier, j);
    }
    if NamedBy(e, MentionAt(cs, 2 * n), now) && FindRef(before.entities, cs[n].fromRef).None? {
      assert FirstMention(cs, 2 * n, e, now);
    } else {
      assert FirstMention(cs, 2 * n + 1, e, now);
    }
  }

  // ----- the last writer of a key decides its weight and evidence -----

  predicate Resolves(entities: seq<Entity>, c: Command) {
    FindRef(entities, c.fromRef).Some? && FindRef(entities, c.toRef).Some?
  }

  /** The edge row a command writes, once both ends exist; none for a self-loop. */
  predicate Writes(entities: seq<Entity>, c: Command, key: EdgeKey) {
    && Resolves(entities, c)
    && key == EdgeKey(FindRef(entities, c.fromRef).value, FindRef(entities, c.toRef).value, c.kind)
    && key.from != key.to
  }

  /** The last command of the list that writes `key`, if any does. */
  function LastWriter(entities: seq<Entity>, cs: seq<Command>, key: EdgeKey): Option<Command> {
    if cs == [] then None
    else if Writes(entities, cs[|cs| - 1], key) then Some(cs[|cs| - 1])
    else LastWriter(entities, cs[..|cs| - 1], key)
  }

  /** `after` keeps the rows of `before` in place; only weights and evidence may differ. */
  ghost predicate Extends(before: Graph, after: Graph) {
    && before.entities <= after.entities
    && |before.edges| <= |after.edges|
    && forall i :: 0 <= i < |before.edges| ==> SameRow(before.edges[i], after.edges[i])
  }

  ghost predicate SameRow(a: Edge, b: Edge) {
    b == a.(weight := b.weight, evidence := b.evidence)
  }

  lemma StepExtends(g: Graph, c: Command, now: int)
    ensures Extends(g, Step(g, c, now))
    ensures Resolves(Step(g, c, now).entities, c)
  {
  }

  lemma {:induction false} RunAllExtends(g: Graph, cs: seq<Command>, now: int)
    ensures Extends(g, RunAll(g, cs, now))
    ensures forall i :: 0 <= i < |cs| ==> Resolves(RunAll(g, cs, now).entities, cs[i])
  {
    if cs != [] {
      var n := |cs| - 1;
      var before, after := RunAll(g, cs[..n], now), RunAll(g, cs, now);
      RunAllExtends(g, cs[..n], now);
      StepExtends(before, cs[n], now);
      forall i | 0 <= i < |cs| ensures Resolves(after.entities, cs[i]) {
        if i < n {
          assert cs[..n][i] == cs[i];
          FindRefAppend(before.entities, after.entities, cs[i].fromRef);
          FindRefAppend(before.entities, after.entities, cs[i].toRef);
        }
      }
    }
  }

  /** Resolving against a longer table finds the same writers, if the commands already resolved. */
  lemma {:induction false} LastWriterAppend(entities: seq<Entity>, longer: seq<Entity>, cs: seq<Command>, key: EdgeKey)
    requires entities <= longer
    requires forall i :: 0 <= i < |cs| ==> Resolves(entities, cs[i])
    ensures LastWriter(longer, cs, key) == LastWriter(entities, cs, key)
  {
    if cs != [] {
      var n := |cs| - 1;
      FindRefAppend(entities, longer, cs[n].fromRef);
      FindRefAppend(entities, longer, cs[n].toRef);
      LastWriterAppend(entities, longer, cs[..n], key);
    }
  }

  /** What row `i` holds after one command. */
  lemma StepRow(g: Graph, c: Command, now: int, i: nat)
    requires i < |Step(g, c, now).edges|
    ensures var e := Step(g, c, now).edges[i];
            if Writes(Step(g, c, now).entities, c, KeyOf(e)) then e.weight == 1.0 && e.evidence == c.evidence
            else i < |g.edges| && e == g.edges[i]
  {
  }

  /** Row by row: an edge written by the list holds what its last writer gave it, any other edge is untouched. */
  lemma {:induction false} LastWriterWins(g: Graph, cs: seq<Command>, now: int, i: nat)
    requires i < |RunAll(g, cs, now).edges|
    ensures var after := RunAll(g, cs, now);
            var e := after.edges[i];
            match LastWriter(after.entities, cs, KeyOf(e))
            case Some(c) => e.weight == 1.0 && e.evidence == c.evidence
            case None => i < |g.edges| && e == g.edges[i]
  {
    if cs != [] {
      var n := |cs| - 1;
      var before, after := RunAll(g, cs[..n], now), RunAll(g, cs, now);
      StepRow(before, cs[n], now, i);
      StepExtends(before, cs[n], now);
      if !Writes(after.entities, cs[n], KeyOf(after.edges[i])) {
        LastWriterWins(g, cs[..n], now, i);
        RunAllExtends(g, cs[..n], now);
        LastWriterAppend(before.entities, after.entities, cs[..n], KeyOf(after.edges[i]));
      }
    }
  }

  lemma StepWritesKey(g: Graph, c: Command, now: int, key: EdgeKey)
    requires Writes(Step(g, c, now).entities, c, key)
    ensures HasKey(Step(g, c, now).edges, key)
  {
    var after := Step(g, c, now);
    if HasKey(g.edges, key) {
      var i :| 0 <= i < |g.edges| && KeyOf(g.edges[i]) == key;
      StepExtends(g, c, now);
      assert KeyOf(after.edges[i]) == key;
    } else {
      assert KeyOf(after.edges[|g.edges|]) == key;
    }
  }

  /** Every key the list writes has a row afterwards. */
  lemma {:induction false} WrittenKeysExist(g: Graph, cs: seq<Command>, now: int, j: nat, key: EdgeKey)
    requires j < |cs| && Writes(RunAll(g, cs, now).entities, cs[j], key)
    ensures HasKey(RunAll(g, cs, now).edges, key)
  {
    var n := |cs| - 1;
    var before, after := RunAll(g, cs[..n], now), RunAll(g, cs, now);
    StepExtends(before, cs[n], now);
    if j < n {
      RunAllExtends(g, cs[..n], now);
      assert cs[..n][j] == cs[j];
      FindRefAppend(before.entities, after.entities, cs[j].fromRef);
      FindRefAppend(before.entities, after.entities, cs[j].toRef);
      WrittenKeysExist(g, cs[..n], now, j, key);
      var i :| 0 <= i < |before.edges| && KeyOf(before.edges[i]) == key;
      assert KeyOf(after.edges[i]) == key;
    } else {
      StepWritesKey(before, cs[n], now, key);
    }
  }

  // ----- rebuilding twice -----

  ghost predicate SameTables(g: Graph, h: Graph) {
    g.entities == h.entities && g.edges == h.edges
  }

  /** A command whose ends and edge exist already adds no row. */
  lemma StepAddsNothing(g: Graph, c: Command, now: int)
    requires Resolves(g.entities, c)
    requires forall key :: Writes(g.entities, c, key) ==> HasKey(g.edges, key)
    ensures Step(g, c, now).entities == g.entities
    ensures |Step(g, c, now).edges| == |g.edges|
  {
    assert WithBothEnds(g, c, now) == g;
    var key := EdgeKey(FindRef(g.entities, c.fromRef).value, FindRef(g.entities, c.toRef).value, c.kind);
    assert key.from != key.to ==> Writes(g.entities, c, key);
  }

  lemma {:induction false} RunAllAddsNothing(g: Graph, cs: seq<Command>, now: int)
    requires forall i :: 0 <= i < |cs| ==> Resolves(g.entities, cs[i])
    requires forall i, key :: 0 <= i < |cs| && Writes(g.entities, cs[i], key) ==> HasKey(g.edges, key)
    ensures RunAll(g, cs, now).entities == g.entities
    ensures |RunAll(g, cs, now).edges| == |g.edges|
  {
    if cs != [] {
      var n := |cs| - 1;
      var before := RunAll(g, cs[..n], now);
      RunAllAddsNothing(g, cs[..n], now);
      RunAllExtends(g, cs[..n], now);
      forall key | Writes(before.entities, cs[n], key) ensures HasKey(before.edges, key) {
        assert before.entities == g.entities && Writes(g.entities, cs[n], key);
        assert HasKey(g.edges, key);
        var i :| 0 <= i < |g.edges| && KeyOf(g.edges[i]) == key;
        assert KeyOf(before.edges[i]) == key;
      }
      StepAddsNothing(before, cs[n], now);
    }
  }

  /** Running the same commands again, at any later time, changes neither table. */
  lemma {:induction false} RunTwiceIsRunOnce(g: Graph, cs: seq<Command>, first: int, second: int)
    ensures SameTables(RunAll(RunAll(g, cs, first), cs, second), RunAll(g, cs, first))
  {
    var once := RunAll(g, cs, first);
    var twice := RunAll(once, cs, second);
    RunAllExtends(g, cs, first);
    forall j, key | 0 <= j < |cs| && Writes(once.entities, cs[j], key) ensures HasKey(once.edges, key) {
      WrittenKeysExist(g, cs, first, j, key);
    }
    RunAllAddsNothing(once, cs, second);
    RunAllExtends(once, cs, second);
    forall i | 0 <= i < |once.edges| ensures twice.edges[i] == once.edges[i] {
      LastWriterWins(g, cs, first, i);
      LastWriterWins(once, cs, second, i);
    }
  }

  /** Starting from empty tables, the edges afterwards are exactly the ones the list writes:
      none is missing and none is invented. */
  lemma EdgesAreTheWrittenOnes(cs: seq<Command>, now: int, key: EdgeKey)
    ensures var after := RunAll(EMPTY, cs, now);
            HasKey(after.edges, key) <==> exists j :: 0 <= j < |cs| && Writes(after.entities, cs[j], key)
  {
    var after := RunAll(EMPTY, cs, now);
    if HasKey(after.edges, key) {
      var i :| 0 <= i < |after.edges| && KeyOf(after.edges[i]) == key;
      LastWriterWins(EMPTY, cs, now, i);
      var j := LastWriterIndex(after.entities, cs, key);
    }
    forall j | 0 <= j < |cs| && Writes(after.entities, cs[j], key) ensures HasKey(after.edges, key) {
      WrittenKeysExist(EMPTY, cs, now, j, key);
    }
  }

  lemma {:induction false} LastWriterIndex(entities: seq<Entity>, cs: seq<Command>, key: EdgeKey) returns (j: nat)
    requires LastWriter(entities, cs, key).Some?
    ensures j < |cs| && Writes(entities, cs[j], key)
  {
    if Writes(entities, cs[|cs| - 1], key) {
      j := |cs| - 1;
    } else {
      j := LastWriterIndex(entities, cs[..|cs| - 1], key);
    }
  }

  // ----- which references are joined -----

  /** An edge of this kind leads from the entity of `a` to the entity of `b`. */
  ghost predicate Joined(g: Graph, a: Ref, b: Ref, kind: string) {
    exists e, i, j :: JoinedBy(g, a, b, kind, e, i, j)
  }

  ghost predicate JoinedBy(g: Graph, a: Ref, b: Ref, kind: string, e: int, i: int, j: int) {
    && 0 <= e < |g.edges| && 0 <= i < |g.entities| && 0 <= j < |g.entities|
    && g.entities[i].ref == Some(a) && g.entities[j].ref == Some(b)
    && KeyOf(g.edges[e]) == EdgeKey(g.entities[i].id, g.entities[j].id, kind)
  }

  ghost predicate Joins(c: Command, a: Ref, b: Ref, kind: string) {
    c.fromRef == a && c.toRef == b && c.kind == kind
  }

  /** In consistent tables a list of commands joins exactly the references it says, besides those that were
      joined before; only a reference and itself are never joined. */
  lemma JoinedIff(g: Graph, cs: seq<Command>, now: int, a: Ref, b: Ref, kind: string)
    requires Consistent(g)
    ensures Joined(RunAll(g, cs, now), a, b, kind)
            <==> Joined(g, a, b, kind) || (a != b && exists k :: 0 <= k < |cs| && Joins(cs[k], a, b, kind))
  {
    var after := RunAll(g, cs, now);
    RunAllConsistent(g, cs, now);
    RunAllExtends(g, cs, now);
    if e, i, j :| JoinedBy(after, a, b, kind, e, i, j) {
      JoinedBefore(g, cs, now, a, b, kind, e, i, j);
    }
    if e, i, j :| JoinedBy(g, a, b, kind, e, i, j) {
      assert SameRow(g.edges[e], after.edges[e]);
      assert JoinedBy(after, a, b, kind, e, i, j);
    }
    if k :| a != b && 0 <= k < |cs| && Joins(cs[k], a, b, kind) {
      JoinedAfter(g, cs, now, a, b, kind, k);
    }
  }

  lemma JoinedBefore(g: Graph, cs: seq<Command>, now: int, a: Ref, b: Ref, kind: string, e: int, i: int, j: int)
    requires Consistent(g) && Consistent(RunAll(g, cs, now)) && Extends(g, RunAll(g, cs, now))
    requires JoinedBy(RunAll(g, cs, now), a, b, kind, e, i, j)
    ensures Joined(g, a, b, kind) || (a != b && exists k :: 0 <= k < |cs| && Joins(cs[k], a, b, kind))
  {
    var after := RunAll(g, cs, now);
    LastWriterWins(g, cs, now, e);
    if LastWriter(after.entities, cs, KeyOf(after.edges[e])).Some? {
      var k := LastWriterIndex(after.entities, cs, KeyOf(after.edges[e]));
      OneEntity(after, cs[k].fromRef, i);
      OneEntity(after, cs[k].toRef, j);
      assert Joins(cs[k], a, b, kind);
    } else {
      EndIsOld(g, after, g.edges[e].from, i);
      EndIsOld(g, after, g.edges[e].to, j);
      assert JoinedBy(g, a, b, kind, e, i, j);
    }
  }

  /** The entity a reference finds has no other reference. */
  lemma OneEntity(g: Graph, ref: Ref, i: int)
    requires UniqueEntities(g) && 0 <= i < |g.entities| && FindRef(g.entities, ref) == Some(g.entities[i].id)
    ensures g.entities[i].ref == Some(ref)
  {
    FindRefMeaning(g.entities, ref);
  }

  lemma EndIsOld(g: Graph, after: Graph, id: Id, i: int)
    requires IsEntity(g, id) && g.entities <= after.entities && UniqueEntities(after)
    requires 0 <= i < |after.entities| && after.entities[i].id == id
    ensures i < |g.entities|
  {
    var k :| 0 <= k < |g.entities| && g.entities[k].id == id;
    assert after.entities[k].id == id;
  }

  lemma JoinedAfter(g: Graph, cs: seq<Command>, now: int, a: Ref, b: Ref, kind: string, k: int)
    requires Consistent(RunAll(g, cs, now)) && a != b && 0 <= k < |cs| && Joins(cs[k], a, b, kind)
    requires Resolves(RunAll(g, cs, now).entities, cs[k])
    ensures Joined(RunAll(g, cs, now), a, b, kind)
  {
    var after := RunAll(g, cs, now);
    FindRefMeaning(after.entities, a);
    FindRefMeaning(after.entities, b);
    var i :| 0 <= i < |after.entities| && after.entities[i].ref == Some(a) && Some(after.entities[i].id) == FindRef(after.entities, a);
    var j :| 0 <= j < |after.entities| && after.entities[j].ref == Some(b) && Some(after.entities[j].id) == FindRef(after.entities, b);
    var key := EdgeKey(after.entities[i].id, after.entities[j].id, kind);
    assert Writes(after.entities, cs[k], key);
    WrittenKeysExist(g, cs, now, k, key);
    var e :| 0 <= e < |after.edges| && KeyOf(after.edges[e]) == key;
    assert JoinedBy(after, a, b, kind, e, i, j);
  }

  // ----- the commands a business's rows stand for -----

  datatype TaskRow = TaskRow(id: string, business: string, title: string,
                             signalId: Option<string>, goalId: Option<string>)
  datatype OutcomeRow = OutcomeRow(taskId: string, verdict: Option<string>)
  datatype ConflictRow = ConflictRow(id: string, business: string, category: string, open: bool,
                                     aType: string, aId: string, aTitle: Option<string>,
                                     bType: string, bId: string, bTitle: Option<string>)
  datatype DecisionRow = DecisionRow(id: string, business: string, title: string,
                                     goalId: Option<string>, taskId: Option<string>)
  datatype DependencyRow = DependencyRow(business: string, goalId: string, dependsOn: string)

  /** The relational state a rebuild reads; `signals` and `goals` give titles by id. */
  datatype Relations = Relations(tasks: seq<TaskRow>, outcomes: seq<OutcomeRow>, conflicts: seq<ConflictRow>,
                                 decisions: seq<DecisionRow>, dependencies: seq<DependencyRow>,
                                 signals: map<string, string>, goals: map<string, string>)

  datatype Section = Tasks | Outcomes | Conflicts | Decisions | Dependencies

  function TaskById(tasks: seq<TaskRow>, id: string): Option<TaskRow> {
    if tasks == [] then None
    else if tasks[0].id == id then Some(tasks[0])
    else TaskById(tasks[1..], id)
  }

  /** JavaScript truthiness of a nullable string, then a lookup by id. */
  predicate Linked(id: Option<string>, titles: map<string, string>) {
    id.Some? && id.value != "" && id.value in titles
  }

  function TaskCommands(r: Relations, business: string, t: TaskRow): seq<Command> {
    (if Linked(t.signalId, r.signals) then
       [Command(business, Ref("signals", t.signalId.value), r.signals[t.signalId.value], "signal",
                Ref("tasks", t.id), t.title, "task", "caused", None)]
     else [])
    + (if Linked(t.goalId, r.goals) then
         [Command(business, Ref("tasks", t.id), t.title, "task",
                  Ref("goals", t.goalId.value), r.goals[t.goalId.value], "goal", "supports", None)]
       else [])
  }

  function OutcomeKind(verdict: string): string {
    if verdict == "improved" then "improves" else if verdict == "worsened" then "regresses" else "relates_to"
  }

  function OutcomeCommands(r: Relations, business: string, o: OutcomeRow): seq<Command> {
    match TaskById(r.tasks, o.taskId)
    case None => []
    case Some(t) =>
      if t.business == business && o.verdict.Some? && t.goalId.Some? && t.goalId.value in r.goals then
        [Command(business, Ref("tasks", o.taskId), t.title, "task",
                 Ref("goals", t.goalId.value), r.goals[t.goalId.value], "goal", OutcomeKind(o.verdict.value), None)]
      else []
  }

  function ConflictCommands(business: string, c: ConflictRow): seq<Command> {
    if c.business == business && c.open then
      [Command(business, Ref(c.aType + "s", c.aId), c.aTitle.GetOr(c.aId), c.aType,
               Ref(c.bType + "s", c.bId), c.bTitle.GetOr(c.bId), c.bType,
               if c.category == "dependency" || c.category == "timing" then "blocks" else "contradicts",
               Some("conflict:" + c.id))]
    else []
  }

  function DecisionCommands(r: Relations, business: string, d: DecisionRow): seq<Command> {
    (if Linked(d.goalId, r.goals) then
       [Command(business, Ref("decisions", d.id), d.title, "decision",
                Ref("goals", d.goalId.value), r.goals[d.goalId.value], "goal", "relates_to", None)]
     else [])
    + (if d.taskId.Some? && d.taskId.value != "" && TaskById(r.tasks, d.taskId.value).Some? then
         var t := TaskById(r.tasks, d.taskId.value).value;
         [Command(business, Ref("decisions", d.id), d.title, "decision",
                  Ref("tasks", t.id), t.title, "task", "relates_to", None)]
       else [])
  }

  function DependencyCommands(r: Relations, business: string, d: DependencyRow): seq<Command> {
    if d.business == business && d.goalId in r.goals && d.dependsOn in r.goals then
      [Command(business, Ref("goals", d.goalId), r.goals[d.goalId], "goal",
               Ref("goals", d.dependsOn), r.goals[d.dependsOn], "goal", "depends_on", None)]
    else []
  }

  function RowCount(r: Relations, section: Section): nat {
    match section
    case Tasks => |r.tasks|
    case Outcomes => |r.outcomes|
    case Conflicts => |r.conflicts|
    case Decisions => |r.decisions|
    case Dependencies => |r.dependencies|
  }

  function RowCommands(r: Relations, business: string, section: Section, i: nat): seq<Command>
    requires i < RowCount(r, section)
  {
    match section
    case Tasks => if r.tasks[i].business == business then TaskCommands(r, business, r.tasks[i]) else []
    case Outcomes => OutcomeCommands(r, business, r.outcomes[i])
    case Conflicts => ConflictCommands(business, r.conflicts[i])
    case Decisions => if r.decisions[i].business == business then DecisionCommands(r, business, r.decisions[i]) else []
    case Dependencies => DependencyCommands(r, business, r.dependencies[i])
  }

  function SectionCommands(r: Relations, business: string, section: Section, n: nat): seq<Command>
    requires n <= RowCount(r, section)
  {
    if n == 0 then [] else SectionCommands(r, business, section, n - 1) + RowCommands(r, business, section, n - 1)
  }

  function WholeSection(r: Relations, business: string, section: Section): seq<Command> {
    SectionCommands(r, business, section, RowCount(r, section))
  }

  /** Every `createEdge` call of one rebuild, in order. */
  function DeriveCommands(r: Relations, business: string): seq<Command> {
    WholeSection(r, business, Tasks) + WholeSection(r, business, Outcomes) + WholeSection(r, business, Conflicts)
    + WholeSection(r, business, Decisions) + WholeSection(r, business, Dependencies)
  }

  // ----- what a rebuild reads off the rows -----

  /** A task's signal caused it, and it supports its goal. */
  ghost predicate SaysTask(r: Relations, business: string, t: TaskRow, c: Command) {
    && t in r.tasks && t.business == business
    && (|| (exists s ::
              && t.signalId == Some(s) && s != "" && s in r.signals
              && c == Command(business, Ref("signals", s), r.signals[s], "signal", Ref("tasks", t.id), t.title, "task", "caused", None))
        || (exists g ::
              && t.goalId == Some(g) && g != "" && g in r.goals
              && c == Command(business, Ref("tasks", t.id), t.title, "task", Ref("goals", g), r.goals[g], "goal", "supports", None)))
  }

  /** The task in place `i` is the one with that id. */
  ghost predicate IsTask(tasks: seq<TaskRow>, id: string, i: int) {
    0 <= i < |tasks| && tasks[i].id == id && forall j :: 0 <= j < i ==> tasks[j].id != id
  }

  /** The verdict on a task's outcome says what the task did to its goal. */
  ghost predicate SaysOutcome(r: Relations, business: string, o: OutcomeRow, i: int, c: Command) {
    && o in r.outcomes && IsTask(r.tasks, o.taskId, i)
    && var t := r.tasks[i];
       && t.business == business && o.verdict.Some? && t.goalId.Some? && t.goalId.value in r.goals
       && c == Command(business, Ref("tasks", t.id), t.title, "task", Ref("goals", t.goalId.value), r.goals[t.goalId.value], "goal",
                       if o.verdict == Some("improved") then "improves" else if o.verdict == Some("worsened") then "regresses"
                       else "relates_to", None)
  }

  /** An open conflict blocks if it is about timing or dependency, and contradicts otherwise. */
  ghost predicate SaysConflict(r: Relations, business: string, k: ConflictRow, c: Command) {
    && k in r.conflicts && k.business == business && k.open
    && c == Command(business,
                    Ref(k.aType + "s", k.aId), if k.aTitle.Some? then k.aTitle.value else k.aId, k.aType,
                    Ref(k.bType + "s", k.bId), if k.bTitle.Some? then k.bTitle.value else k.bId, k.bType,
                    if k.category in {"dependency", "timing"} then "blocks" else "contradicts", Some("conflict:" + k.id))
  }

  /** A decision relates to its goal and to its task. */
  ghost predicate SaysDecision(r: Relations, business: string, d: DecisionRow, c: Command) {
    && d in r.decisions && d.business == business
    && (|| (exists g ::
              && d.goalId == Some(g) && g != "" && g in r.goals
              && c == Command(business, Ref("decisions", d.id), d.title, "decision", Ref("goals", g), r.goals[g], "goal", "relates_to", None))
        || (exists i ::
              && d.taskId.Some? && d.taskId.value != "" && IsTask(r.tasks, d.taskId.value, i)
              && c == Command(business, Ref("decisions", d.id), d.title, "decision",
                              Ref("tasks", r.tasks[i].id), r.tasks[i].title, "task", "relates_to", None)))
  }

  /** A goal depends on another. */
  ghost predicate SaysDependency(r: Relations, business: string, d: DependencyRow, c: Command) {
    && d in r.dependencies && d.business == business && d.goalId in r.goals && d.dependsOn in r.goals
    && c == Command(business, Ref("goals", d.goalId), r.goals[d.goalId], "goal",
                    Ref("goals", d.dependsOn), r.goals[d.dependsOn], "goal", "depends_on", None)
  }

  /** Some row of the five tables says so. */
  ghost predicate Says(r: Relations, business: string, section: Section, c: Command) {
    match section
    case Tasks => exists t :: SaysTask(r, business, t, c)
    case Outcomes => exists o, i :: SaysOutcome(r, business, o, i, c)
    case Conflicts => exists k :: SaysConflict(r, business, k, c)
    case Decisions => exists d :: SaysDecision(r, business, d, c)
    case Dependencies => exists d :: SaysDependency(r, business, d, c)
  }

  lemma {:induction false} TaskByIdIs(tasks: seq<TaskRow>, id: string)
    ensures TaskById(tasks, id).None? ==> forall i :: !IsTask(tasks, id, i)
    ensures TaskById(tasks, id).Some? ==> exists i :: IsTask(tasks, id, i) && tasks[i] == TaskById(tasks, id).value
    ensures forall i :: IsTask(tasks, id, i) ==> TaskById(tasks, id) == Some(tasks[i])
  {
    if tasks != [] {
      if tasks[0].id == id {
        assert IsTask(tasks, id, 0);
      } else {
        TaskByIdIs(tasks[1..], id);
        assert forall j :: 0 < j < |tasks| ==> tasks[j] == tasks[1..][j - 1];
        forall i | IsTask(tasks, id, i) ensures TaskById(tasks, id) == Some(tasks[i]) {
          assert IsTask(tasks[1..], id, i - 1);
        }
        if TaskById(tasks, id).Some? {
          var i :| IsTask(tasks[1..], id, i) && tasks[1..][i] == TaskById(tasks, id).value;
          assert IsTask(tasks, id, i + 1);
        }
      }
    }
  }

  lemma TaskRowSays(r: Relations, business: string, i: nat, c: Command)
    requires i < |r.tasks|
    ensures c in RowCommands(r, business, Tasks, i) <==> SaysTask(r, business, r.tasks[i], c)
  {
  }

  lemma OutcomeRowSays(r: Relations, business: string, i: nat, c: Command)
    requires i < |r.outcomes|
    ensures c in RowCommands(r, business, Outcomes, i) <==> exists k :: SaysOutcome(r, business, r.outcomes[i], k, c)
  {
    var o := r.outcomes[i];
    TaskByIdIs(r.tasks, o.taskId);
    if TaskById(r.tasks, o.taskId).Some? {
      var k :| IsTask(r.tasks, o.taskId, k) && r.tasks[k] == TaskById(r.tasks, o.taskId).value;
      assert SaysOutcome(r, business, o, k, c) <==> c in OutcomeCommands(r, business, o);
    }
  }

  lemma ConflictRowSays(r: Relations, business: string, i: nat, c: Command)
    requires i < |r.conflicts|
    ensures c in RowCommands(r, business, Conflicts, i) <==> SaysConflict(r, business, r.conflicts[i], c)
  {
  }

  lemma DecisionRowSays(r: Relations, business: string, i: nat, c: Command)
    requires i < |r.decisions|
    ensures c in RowCommands(r, business, Decisions, i) <==> SaysDecision(r, business, r.decisions[i], c)
  {
    if r.decisions[i].taskId.Some? {
      TaskByIdIs(r.tasks, r.decisions[i].taskId.value);
    }
  }

  lemma DependencyRowSays(r: Relations, business: string, i: nat, c: Command)
    requires i < |r.dependencies|
    ensures c in RowCommands(r, business, Dependencies, i) <==> SaysDependency(r, business, r.dependencies[i], c)
  {
  }

  lemma {:induction false} InSection(r: Relations, business: string, section: Section, n: nat, c: Command)
    requires n <= RowCount(r, section)
    ensures c in SectionCommands(r, business, section, n) <==> exists i :: 0 <= i < n && c in RowCommands(r, business, section, i)
  {
    if n > 0 {
      var m := n - 1;
      var before, more := SectionCommands(r, business, section, m), RowCommands(r, business, section, m);
      InSection(r, business, section, m, c);
      InEither(before, more, c);
      assert SectionCommands(r, business, section, n) == before + more;
      if i :| 0 <= i < n && c in RowCommands(r, business, section, i) {
        assert i == m || c in before;
      }
    }
  }

  lemma InEither(a: seq<Command>, b: seq<Command>, c: Command)
    ensures c in a + b <==> c in a || c in b
  {
  }

  lemma SectionSays(r: Relations, business: string, section: Section, c: Command)
    ensures c in WholeSection(r, business, section) <==> Says(r, business, section, c)
  {
    InSection(r, business, section, RowCount(r, section), c);
    if i :| 0 <= i < RowCount(r, section) && c in RowCommands(r, business, section, i) {
      RowSays(r, business, section, i, c);
    }
    if Says(r, business, section, c) {
      var i := SayingRow(r, business, section, c);
    }
  }

  lemma RowSays(r: Relations, business: string, section: Section, i: nat, c: Command)
    requires i < RowCount(r, section) && c in RowCommands(r, business, section, i)
    ensures Says(r, business, section, c)
  {
    match section {
      case Tasks => TaskRowSays(r, business, i, c);
      case Outcomes => OutcomeRowSays(r, business, i, c);
      case Conflicts => ConflictRowSays(r, business, i, c);
      case Decisions => DecisionRowSays(r, business, i, c);
      case Dependencies => DependencyRowSays(r, business, i, c);
    }
  }

  lemma SayingRow(r: Relations, business: string, section: Section, c: Command) returns (i: nat)
    requires Says(r, business, section, c)
    ensures i < RowCount(r, section) && c in RowCommands(r, business, section, i)
  {
    match section {
      case Tasks =>
        var t :| SaysTask(r, business, t, c);
        i :| 0 <= i < |r.tasks| && r.tasks[i] == t;
        TaskRowSays(r, business, i, c);
      case Outcomes =>
        var o, k :| SaysOutcome(r, business, o, k, c);
        i :| 0 <= i < |r.outcomes| && r.outcomes[i] == o;
        OutcomeRowSays(r, business, i, c);
      case Conflicts =>
        var k :| SaysConflict(r, business, k, c);
        i :| 0 <= i < |r.conflicts| && r.conflicts[i] == k;
        ConflictRowSays(r, business, i, c);
      case Decisions =>
        var d :| SaysDecision(r, business, d, c);
        i :| 0 <= i < |r.decisions| && r.decisions[i] == d;
        DecisionRowSays(r, business, i, c);
      case Dependencies =>
        var d :| SaysDependency(r, business, d, c);
        i :| 0 <= i < |r.dependencies| && r.dependencies[i] == d;
        DependencyRowSays(r, business, i, c);
    }
  }

  /** The place of a section in the rebuild. */
  function Place(section: Section): nat {
    match section
    case Tasks => 0
    case Outcomes => 1
    case Conflicts => 2
    case Decisions => 3
    case Dependencies => 4
  }

  /** The commands of a rebuild are those the rows say. */
  lemma DeriveCommandsSay(r: Relations, business: string, c: Command)
    ensures c in DeriveCommands(r, business) <==> exists section :: Says(r, business, section, c)
  {
    SectionSays(r, business, Tasks, c);
    SectionSays(r, business, Outcomes, c);
    SectionSays(r, business, Conflicts, c);
    SectionSays(r, business, Decisions, c);
    SectionSays(r, business, Dependencies, c);
  }

  /** After a rebuild of any consistent graph two references are joined by an edge of some kind exactly if they
      were before, or are different and a row of the five tables says so. */
  lemma RebuildJoins(g: Graph, r: Relations, business: string, now: int, a: Ref, b: Ref, kind: string)
    requires Consistent(g)
    ensures Joined(RunAll(g, DeriveCommands(r, business), now), a, b, kind)
            <==> Joined(g, a, b, kind)
                 || (a != b && exists section, c :: Says(r, business, section, c) && Joins(c, a, b, kind))
  {
    var cs := DeriveCommands(r, business);
    JoinedIff(g, cs, now, a, b, kind);
    if k :| 0 <= k < |cs| && Joins(cs[k], a, b, kind) {
      DeriveCommandsSay(r, business, cs[k]);
    }
    if section, c :| Says(r, business, section, c) && Joins(c, a, b, kind) {
      DeriveCommandsSay(r, business, c);
      var k :| 0 <= k < |cs| && cs[k] == c;
    }
  }

  /** Signals, tasks, outcomes, conflicts, decisions, dependencies: what an earlier table says is written first,
      so its titles win and its evidence gives way. */
  lemma SectionsInOrder(r: Relations, business: string, i: nat, j: nat) returns (first: Section, second: Section)
    requires i < j < |DeriveCommands(r, business)|
    ensures Says(r, business, first, DeriveCommands(r, business)[i]) && Says(r, business, second, DeriveCommands(r, business)[j])
    ensures Place(first) <= Place(second)
  {
    first, second := SectionAt(r, business, i), SectionAt(r, business, j);
    SectionIsSaid(r, business, i);
    SectionIsSaid(r, business, j);
  }

  /** The section a position belongs to. */
  function SectionAt(r: Relations, business: string, i: nat): Section {
    var a := |WholeSection(r, business, Tasks)|;
    var b := a + |WholeSection(r, business, Outcomes)|;
    var c := b + |WholeSection(r, business, Conflicts)|;
    var d := c + |WholeSection(r, business, Decisions)|;
    if i < a then Tasks else if i < b then Outcomes else if i < c then Conflicts else if i < d then Decisions else Dependencies
  }

  lemma SectionIsSaid(r: Relations, business: string, i: nat)
    requires i < |DeriveCommands(r, business)|
    ensures Says(r, business, SectionAt(r, business, i), DeriveCommands(r, business)[i])
  {
    var command := DeriveCommands(r, business)[i];
    assert command in WholeSection(r, business, SectionAt(r, business, i));
    SectionSays(r, business, SectionAt(r, business, i), command);
  }
}
