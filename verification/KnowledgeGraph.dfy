/** The stored knowledge graph: upserts, the derivable rebuild, and the capped traversal.
    Source: server/brain/knowledge-graph.ts. */
module KnowledgeGraph {
  import opened Collections
  import opened GraphBalls
  import opened GraphRebuild

  /** The `depth` option of a traversal: any number. A caller that parses a query string can pass NaN, and
      one inside the program a fraction. */
  datatype Depth = Omitted | NotANumber | Number(x: real)

  /** `Math.min(5, Math.max(1, depth))` */
  function Clamp(x: real): real {
    if x < 1.0 then 1.0 else if x > 5.0 then 5.0 else x
  }

  /** How often `hop < Math.min(5, Math.max(1, depth ?? 2))` holds for hop = 0, 1, ...; NaN survives the
      clamping and admits no hop at all. */
  function HopLimit(depth: Depth): nat {
    match depth
    case Omitted => 2
    case NotANumber => 0
    case Number(x) =>
      var whole := Clamp(x).Floor;
      if whole as real == Clamp(x) then whole else whole + 1
  }

  /** The loop makes hop number `hop` exactly if it is the first, or one of the first five and below the depth;
      so a fraction is rounded up. Two hops are made without a depth, and none if it is not a number. */
  lemma HopsBelowDepth(depth: Depth, hop: nat)
    ensures hop < HopLimit(depth) <==>
      match depth
      case Omitted => hop < 2
      case NotANumber => false
      case Number(x) => hop == 0 || (hop < 5 && hop as real < x)
  {
  }

  function CountEntities(entities: seq<Entity>, business: string): nat {
    if entities == [] then 0
    else (if entities[|entities| - 1].business == Some(business) then 1 else 0)
         + CountEntities(entities[..|entities| - 1], business)
  }

  function CountEdges(edges: seq<Edge>, business: string): nat {
    if edges == [] then 0
    else (if edges[|edges| - 1].business == Some(business) then 1 else 0)
         + CountEdges(edges[..|edges| - 1], business)
  }

  lemma CountEntitiesIs(entities: seq<Entity>, business: string)
    ensures CountEntities(entities, business) == |set k | 0 <= k < |entities| && entities[k].business == Some(business)|
  {
    var hit := (k: int) => 0 <= k < |entities| && entities[k].business == Some(business);
    CountEntitiesUpTo(entities, business, |entities|, hit);
    assert entities[..|entities|] == entities;
    assert (set k | 0 <= k < |entities| && entities[k].business == Some(business)) == (set k | 0 <= k < |entities| && hit(k));
  }

  lemma {:induction false} CountEntitiesUpTo(entities: seq<Entity>, business: string, n: nat, hit: int -> bool)
    requires n <= |entities| && forall k :: 0 <= k < |entities| ==> (hit(k) <==> entities[k].business == Some(business))
    ensures CountEntities(entities[..n], business) == |set k | 0 <= k < n && hit(k)|
  {
    if n > 0 {
      CountEntitiesUpTo(entities, business, n - 1, hit);
      OneMoreHit(hit, n - 1);
      assert entities[..n][..n - 1] == entities[..n - 1];
    } else {
      assert (set k | 0 <= k < n && hit(k)) == {};
    }
  }

  lemma CountEdgesIs(edges: seq<Edge>, business: string)
    ensures CountEdges(edges, business) == |set k | 0 <= k < |edges| && edges[k].business == Some(business)|
  {
    var hit := (k: int) => 0 <= k < |edges| && edges[k].business == Some(business);
    CountEdgesUpTo(edges, business, |edges|, hit);
    assert edges[..|edges|] == edges;
    assert (set k | 0 <= k < |edges| && edges[k].business == Some(business)) == (set k | 0 <= k < |edges| && hit(k));
  }

  lemma {:induction false} CountEdgesUpTo(edges: seq<Edge>, business: string, n: nat, hit: int -> bool)
    requires n <= |edges| && forall k :: 0 <= k < |edges| ==> (hit(k) <==> edges[k].business == Some(business))
    ensures CountEdges(edges[..n], business) == |set k | 0 <= k < n && hit(k)|
  {
    if n > 0 {
      CountEdgesUpTo(edges, business, n - 1, hit);
      OneMoreHit(hit, n - 1);
      assert edges[..n][..n - 1] == edges[..n - 1];
    } else {
      assert (set k | 0 <= k < n && hit(k)) == {};
    }
  }

  ghost function Ids(nodes: seq<Entity>): set<Id> {
    set n | n in nodes :: n.id
  }

  /** The first entity of `business` with the given reference. */
  function FindStart(entities: seq<Entity>, business: string, ref: Ref): Option<Id> {
    if entities == [] then None
    else if entities[0].business == Some(business) && entities[0].ref == Some(ref) then Some(entities[0].id)
    else FindStart(entities[1..], business, ref)
  }

  predicate IsStart(e: Entity, business: string, ref: Ref) {
    e.business == Some(business) && e.ref == Some(ref)
  }

  /** It looks through all rows, and fails only if none is the one asked for. */
  lemma {:induction false} FindStartMeaning(entities: seq<Entity>, business: string, ref: Ref)
    ensures match FindStart(entities, business, ref)
            case None => forall i :: 0 <= i < |entities| ==> !IsStart(entities[i], business, ref)
            case Some(id) => exists i :: 0 <= i < |entities| && IsStart(entities[i], business, ref) && entities[i].id == id
  {
    if entities != [] && !IsStart(entities[0], business, ref) {
      FindStartMeaning(entities[1..], business, ref);
      assert forall i :: 1 <= i < |entities| ==> entities[i] == entities[1..][i - 1];
      if FindStart(entities[1..], business, ref).Some? {
        var i :| 0 <= i < |entities[1..]| && IsStart(entities[1..][i], business, ref)
              && entities[1..][i].id == FindStart(entities[1..], business, ref).value;
        assert IsStart(entities[i + 1], business, ref);
      }
    }
  }

  function NodesIn(entities: seq<Entity>, ids: set<Id>): seq<Entity> {
    if entities == [] then []
    else if entities[|entities| - 1].id in ids then
      NodesIn(entities[..|entities| - 1], ids) + [entities[|entities| - 1]]
    else NodesIn(entities[..|entities| - 1], ids)
  }

  lemma IdsOfOneMore(nodes: seq<Entity>, n: Entity)
    ensures Ids(nodes + [n]) == Ids(nodes) + {n.id}
  {
    assert forall x :: x in nodes + [n] <==> x in nodes || x == n;
  }

  lemma NodesInOfOneMore(before: seq<Entity>, e: Entity, ids: set<Id>)
    ensures NodesIn(before + [e], ids) == if e.id in ids then NodesIn(before, ids) + [e] else NodesIn(before, ids)
  {
    assert (before + [e])[..|before|] == before;
  }

  lemma IdsGrow(nodes: seq<Entity>, before: seq<Entity>, e: Entity, ids: set<Id>)
    requires Ids(nodes) == ids * Ids(before) && |nodes| == |Ids(nodes)| && e.id !in Ids(before)
    ensures e.id in ids ==> Ids(nodes + [e]) == ids * Ids(before + [e]) && |nodes + [e]| == |Ids(nodes + [e])|
    ensures e.id !in ids ==> Ids(nodes) == ids * Ids(before + [e])
  {
    var known, found := Ids(before), Ids(nodes);
    IdsOfOneMore(before, e);
    IdsOfOneMore(nodes, e);
    assert ids * (known + {e.id}) == if e.id in ids then found + {e.id} else found;
  }

  /** If no two nodes share an id, none comes twice. */
  lemma {:induction false} AsManyAsIds(nodes: seq<Entity>)
    requires |nodes| == |Ids(nodes)|
    ensures NoDuplicates(nodes)
  {
    if nodes != [] {
      var n := |nodes| - 1;
      FewIds(nodes[..n]);
      IdsOfOneMore(nodes[..n], nodes[n]);
      SplitLast(nodes);
      AsManyAsIds(nodes[..n]);
    }
  }

  lemma {:induction false} FewIds(nodes: seq<Entity>)
    ensures |Ids(nodes)| <= |nodes|
  {
    if nodes == [] {
      assert Ids(nodes) == {};
    } else {
      var n := |nodes| - 1;
      FewIds(nodes[..n]);
      IdsOfOneMore(nodes[..n], nodes[n]);
      SplitLast(nodes);
    }
  }

  lemma FreshId(before: seq<Entity>, e: Entity)
    requires forall i :: 0 <= i < |before| ==> before[i].id != e.id
    ensures e.id !in Ids(before)
  {
  }

  lemma {:induction false} NodesInMeaning(entities: seq<Entity>, ids: set<Id>)
    requires forall i, j :: 0 <= i < j < |entities| ==> entities[i].id != entities[j].id
    ensures Ids(NodesIn(entities, ids)) == ids * Ids(entities)
    ensures |NodesIn(entities, ids)| == |Ids(NodesIn(entities, ids))|
  {
    if entities == [] {
      assert Ids([]) == {};
    } else {
      var n := |entities| - 1;
      NodesInMeaning(entities[..n], ids);
      FreshId(entities[..n], entities[n]);
      IdsGrow(NodesIn(entities[..n], ids), entities[..n], entities[n], ids);
      NodesInOfOneMore(entities[..n], entities[n], ids);
      SplitLast(entities);
    }
  }

  /** One end of an edge: a node not seen before is taken in, as long as there is room. */
  method Discover(candidate: Id, visited0: set<Id>, next0: seq<Id>) returns (visited: set<Id>, next: seq<Id>)
    ensures Discovered(candidate, visited0, next0, visited, next)
  {
    visited, next := visited0, next0;
    if candidate !in visited && |visited| < MAX_NODES {
      visited := visited + {candidate};
      next := next + [candidate];
    }
  }

  ghost predicate Discovered(candidate: Id, v: set<Id>, n: seq<Id>, v': set<Id>, n': seq<Id>) {
    if candidate !in v && |v| < MAX_NODES then v' == v + {candidate} && n' == n + [candidate]
    else v' == v && n' == n
  }

  /** Everything the loop over one hop's rows can establish, whatever order the rows come in;
      `ends` are the ends of the edges seen so far. */
  ghost predicate Expanded(ends: set<Id>, visited: set<Id>, visited': set<Id>, next: seq<Id>) {
    && visited <= visited' <= visited + ends
    && |visited'| <= MAX_NODES
    && (|visited'| < MAX_NODES ==> visited' == visited + ends)
    && Elements(next) == visited' - visited
  }

  lemma DiscoverOne(ends: set<Id>, c: Id, visited: set<Id>, v: set<Id>, n: seq<Id>, v': set<Id>, n': seq<Id>)
    requires Expanded(ends, visited, v, n) && Discovered(c, v, n, v', n')
    ensures Expanded(ends + {c}, visited, v', n')
  {
    assert Elements(n + [c]) == Elements(n) + {c};
  }

  lemma EndsOfOneMore(rows: seq<Edge>, e: Edge)
    ensures Ends(Elements(rows + [e])) == Ends(Elements(rows)) + {e.from} + {e.to}
    ensures Elements(rows + [e]) == Elements(rows) + {e}
  {
    assert Elements(rows + [e]) == Elements(rows) + {e};
  }

  /** The nodes that hop number `h` expanded from; the first hop has not been made at 0. */
  ghost function Inner(view: set<Edge>, start: Id, h: nat): set<Id> {
    if h == 0 then {} else Ball(view, start, h - 1)
  }

  /** What a traversal has found with `hop` hops made. */
  ghost predicate Explored(view: set<Edge>, start: Id, hop: nat, visited: set<Id>, found: seq<Edge>, frontier: seq<Id>) {
    && Filled(view, Ball(view, start, hop), Inner(view, start, hop), visited, found, frontier)
    && (forall k: nat :: k < hop ==> |Ball(view, start, k)| < MAX_NODES && Ball(view, start, k) <= visited)
  }

  /** Part of `ball` has been visited, all of it below the cap; beyond `inner` it is on the frontier. */
  ghost predicate Filled(view: set<Edge>, ball: set<Id>, inner: set<Id>, visited: set<Id>, found: seq<Edge>, frontier: seq<Id>) {
    && visited <= ball
    && |visited| <= MAX_NODES
    && (|visited| < MAX_NODES ==> visited == ball)
    && Elements(frontier) == visited - inner
    && Elements(found) == Touching(view, inner)
    && NoDuplicates(found)
  }

  lemma ExploredStart(view: set<Edge>, start: Id)
    ensures Explored(view, start, 0, {start}, [], [start])
  {
    assert Ball(view, start, 0) == {start};
    assert Elements([start]) == {start};
  }

  lemma NextBall(view: set<Edge>, start: Id, hop: nat, after: nat)
    requires after == hop + 1
    ensures Inner(view, start, after) == Ball(view, start, hop)
    ensures Ball(view, start, after) == Ball(view, start, hop) + Ends(Touching(view, Ball(view, start, hop)))
  {
  }

  /** Older edges are known, and lead nowhere new. */
  lemma FrontierIsEnough(view: set<Edge>, start: Id, hop: nat)
    ensures var inner, ball := Inner(view, start, hop), Ball(view, start, hop);
            && Touching(view, ball) == Touching(view, inner) + Touching(view, ball - inner)
            && ball + Ends(Touching(view, ball)) == ball + Ends(Touching(view, ball - inner))
  {
    if hop >= 1 {
      BallFromFrontier(view, start, hop);
    }
  }

  lemma FilledStep(view: set<Edge>, inner: set<Id>, ball: set<Id>, outer: set<Id>, visited: set<Id>, found: seq<Edge>,
                   frontier: seq<Id>, rows: seq<Edge>, visited': set<Id>, found': seq<Edge>, next: seq<Id>)
    requires Filled(view, ball, inner, visited, found, frontier) && |visited| < MAX_NODES
    requires Touching(view, ball) == Touching(view, inner) + Touching(view, ball - inner)
    requires outer == ball + Ends(Touching(view, ball - inner))
    requires Elements(rows) == Touching(view, Elements(frontier))
    requires Expanded(Ends(Elements(rows)), visited, visited', next)
    requires NoDuplicates(found') && Elements(found') == Elements(found) + Elements(rows)
    ensures Filled(view, outer, ball, visited', found', next)
  {
  }

  /** Hop number `after`, with `hop` of them made, takes the search on to the next ball. */
  lemma ExploredStep(view: set<Edge>, start: Id, hop: nat, after: nat, visited: set<Id>, found: seq<Edge>, frontier: seq<Id>,
                     rows: seq<Edge>, visited': set<Id>, found': seq<Edge>, next: seq<Id>)
    requires after == hop + 1 && Explored(view, start, hop, visited, found, frontier) && |visited| < MAX_NODES
    requires Elements(rows) == Touching(view, Elements(frontier))
    requires Expanded(Ends(Elements(rows)), visited, visited', next)
    requires NoDuplicates(found') && Elements(found') == Elements(found) + Elements(rows)
    ensures Explored(view, start, after, visited', found', next)
  {
    var inner, ball, outer := Inner(view, start, hop), Ball(view, start, hop), Ball(view, start, after);
    NextBall(view, start, hop, after);
    FrontierIsEnough(view, start, hop);
    FilledStep(view, inner, ball, outer, visited, found, frontier, rows, visited', found', next);
    assert Filled(view, outer, Inner(view, start, after), visited', found', next);
    forall k: nat | k < after ensures |Ball(view, start, k)| < MAX_NODES && Ball(view, start, k) <= visited' {
      if k == hop {
        assert Ball(view, start, k) == ball;
      }
    }
  }

  /** What a finished traversal of depth `d` returns: `visited` are its node ids, `found` its edges. */
  ghost predicate Answer(view: set<Edge>, start: Id, d: nat, visited: set<Id>, found: seq<Edge>) {
    RightNodes(view, start, d, visited) && RightEdges(view, start, LastHop(view, start, d), visited, found)
  }

  /** As many nodes of the ball as the cap allows, and all of every smaller ball that fits. */
  ghost predicate RightNodes(view: set<Edge>, start: Id, d: nat, visited: set<Id>) {
    var b := Ball(view, start, d);
    && visited <= b
    && |visited| == (if |b| < MAX_NODES then |b| else MAX_NODES)
    && (forall k: nat :: k <= d && |Ball(view, start, k)| <= MAX_NODES ==> Ball(view, start, k) <= visited)
  }

  /** The edges that touch what hop number `h` started from, each once; with both ends among the nodes
      exactly if hop `h` did not overflow the cap. */
  ghost predicate RightEdges(view: set<Edge>, start: Id, h: nat, visited: set<Id>, found: seq<Edge>) {
    && NoDuplicates(found)
    && Elements(found) == Touching(view, Inner(view, start, h))
    && (Closed(found, visited) <==> |Ball(view, start, h)| <= MAX_NODES)
  }

  lemma BelowCapHops(view: set<Edge>, start: Id, d: nat)
    requires |Ball(view, start, d)| < MAX_NODES
    ensures LastHop(view, start, d) == d
  {
    forall k: nat | k < d ensures |Ball(view, start, k)| < MAX_NODES {
      BallMonotone(view, start, k, d);
      SubsetCount(Ball(view, start, k), Ball(view, start, d));
    }
    LastHopIs(view, start, d, d);
  }

  /** Up to the cap no node of the ball is lost. */
  lemma SmallBallIsReturnedWhole(view: set<Edge>, start: Id, d: nat, visited: set<Id>, found: seq<Edge>)
    requires Answer(view, start, d, visited, found)
    ensures |Ball(view, start, d)| <= MAX_NODES ==> visited == Ball(view, start, d)
  {
  }

  /** Below the cap no edge is lost either: all that touch the next smaller ball come back, with both ends. */
  lemma BelowCapEdgesAreWhole(view: set<Edge>, start: Id, d: nat, visited: set<Id>, found: seq<Edge>)
    requires Answer(view, start, d, visited, found)
    requires |Ball(view, start, d)| < MAX_NODES && d >= 1
    ensures Elements(found) == Touching(view, Ball(view, start, d - 1))
    ensures Closed(found, visited)
  {
    BelowCapHops(view, start, d);
    ClosedInBall(view, start, d, visited, found);
  }

  ghost predicate Closed(found: seq<Edge>, visited: set<Id>) {
    forall e :: e in found ==> e.from in visited && e.to in visited
  }

  /** Both ends of an edge touching a ball lie in the next one. */
  lemma ClosedInBall(view: set<Edge>, start: Id, h: nat, visited: set<Id>, found: seq<Edge>)
    requires Elements(found) == if h == 0 then {} else Touching(view, Ball(view, start, h - 1))
    requires Ball(view, start, h) <= visited
    ensures Closed(found, visited)
  {
    if h > 0 {
      assert Ends(Touching(view, Ball(view, start, h - 1))) <= Ball(view, start, h);
    }
    forall e | e in found ensures e.from in visited && e.to in visited {
      assert e in Elements(found);
      assert e.from in Ends(Elements(found)) && e.to in Ends(Elements(found));
    }
  }

  /** When the search stops, for whichever reason, it has the whole answer. */
  lemma ExploredEnd(view: set<Edge>, start: Id, hop: nat, d: nat, visited: set<Id>, found: seq<Edge>, frontier: seq<Id>)
    requires Explored(view, start, hop, visited, found, frontier) && hop <= d
    requires hop == d || frontier == [] || |visited| >= MAX_NODES
    ensures Answer(view, start, d, visited, found)
  {
    if |visited| >= MAX_NODES {
      EndAtCap(view, start, hop, d, visited, found, frontier);
    } else if hop == d {
      EndAtDepth(view, start, d, visited, found, frontier);
    } else {
      assert Elements(frontier) == {};
      EndSettled(view, start, hop, d, visited, found, frontier);
    }
  }

  lemma EndSettled(view: set<Edge>, start: Id, hop: nat, d: nat, visited: set<Id>, found: seq<Edge>, frontier: seq<Id>)
    requires Explored(view, start, hop, visited, found, frontier) && hop < d && |visited| < MAX_NODES
    requires Elements(frontier) == {}
    ensures Answer(view, start, d, visited, found)
  {
    assert hop > 0;
    forall v | v in Ball(view, start, hop) ensures v in Ball(view, start, hop - 1) {
      assert v !in Elements(frontier);
    }
    BallMonotone(view, start, hop - 1, hop);
    SettledEnd(view, start, hop, d);
    assert Ball(view, start, d - 1) == Ball(view, start, hop - 1) && Ball(view, start, d) == Ball(view, start, hop);
    forall k: nat | k <= d ensures Ball(view, start, k) <= visited {
      assert k < hop || Ball(view, start, k) == Ball(view, start, hop);
    }
    EdgesBelowCap(view, start, hop, visited, found, frontier);
  }

  lemma EndAtDepth(view: set<Edge>, start: Id, d: nat, visited: set<Id>, found: seq<Edge>, frontier: seq<Id>)
    requires Explored(view, start, d, visited, found, frontier) && |visited| < MAX_NODES
    ensures Answer(view, start, d, visited, found)
  {
    NodesAtDepth(view, start, d, visited);
    LastHopIs(view, start, d, d);
    EdgesBelowCap(view, start, d, visited, found, frontier);
  }

  lemma NodesAtDepth(view: set<Edge>, start: Id, d: nat, visited: set<Id>)
    requires visited == Ball(view, start, d) && |visited| < MAX_NODES
    ensures RightNodes(view, start, d, visited)
  {
    forall k: nat | k <= d ensures Ball(view, start, k) <= visited {
      BallMonotone(view, start, k, d);
    }
  }

  lemma EdgesBelowCap(view: set<Edge>, start: Id, h: nat, visited: set<Id>, found: seq<Edge>, frontier: seq<Id>)
    requires Explored(view, start, h, visited, found, frontier) && |Ball(view, start, h)| <= MAX_NODES
    requires visited == Ball(view, start, h)
    ensures RightEdges(view, start, h, visited, found)
  {
    assert h > 0 ==> Ends(Touching(view, Ball(view, start, h - 1))) <= Ball(view, start, h);
    ClosedInBall(view, start, h, visited, found);
  }

  lemma EndAtCap(view: set<Edge>, start: Id, hop: nat, d: nat, visited: set<Id>, found: seq<Edge>, frontier: seq<Id>)
    requires Explored(view, start, hop, visited, found, frontier) && hop <= d && |visited| >= MAX_NODES
    ensures Answer(view, start, d, visited, found)
  {
    var ball := Ball(view, start, hop);
    SubsetCount(visited, ball);
    NodesAtCap(view, start, hop, d, visited);
    LastHopIs(view, start, d, hop);
    if |ball| > MAX_NODES {
      DanglingEnd(view, start, hop, visited, found);
    } else {
      EdgesBelowCap(view, start, hop, visited, found, frontier);
    }
  }

  lemma NodesAtCap(view: set<Edge>, start: Id, hop: nat, d: nat, visited: set<Id>)
    requires hop <= d && visited <= Ball(view, start, hop) && |visited| == MAX_NODES
    requires forall k: nat :: k < hop ==> Ball(view, start, k) <= visited
    ensures RightNodes(view, start, d, visited)
  {
    BallMonotone(view, start, hop, d);
    SubsetCount(visited, Ball(view, start, d));
    forall k: nat | k <= d && |Ball(view, start, k)| <= MAX_NODES ensures Ball(view, start, k) <= visited {
      if k >= hop {
        BallMonotone(view, start, hop, k);
        SubsetCount(visited, Ball(view, start, k));
      }
    }
  }

  /** A ball bigger than the cap leaves an edge of the last hop with an end outside the returned nodes. */
  lemma DanglingEnd(view: set<Edge>, start: Id, hop: nat, visited: set<Id>, found: seq<Edge>)
    requires hop >= 1 && Ball(view, start, hop - 1) <= visited && visited <= Ball(view, start, hop)
    requires Elements(found) == Touching(view, Ball(view, start, hop - 1))
    requires |visited| < |Ball(view, start, hop)|
    ensures !Closed(found, visited)
  {
    var ball := Ball(view, start, hop);
    assert ball - visited != {} by {
      assert ball == visited + (ball - visited);
    }
    var v :| v in ball - visited;
    assert v in Ends(Elements(found));
    var e :| e in Elements(found) && (e.from == v || e.to == v);
  }

  /** Whatever a traversal of a star with more than `MAX_NODES` nodes returns, some edge points outside. */
  lemma StarTraversalDangles(view: set<Edge>, centre: Id, d: nat, visited: set<Id>, found: seq<Edge>)
    requires (forall e :: e in view ==> e.from == centre) && |Ends(view) + {centre}| > MAX_NODES && d >= 1
    requires Answer(view, centre, d, visited, found)
    ensures |visited| == MAX_NODES && !Closed(found, visited)
  {
    StarOverflows(view, centre, d);
    BallMonotone(view, centre, 1, d);
    SubsetCount(Ball(view, centre, 1), Ball(view, centre, d));
  }

  /** A depth that is not a number admits no hop: the start comes back alone. */
  lemma NotANumberGivesTheStartAlone(view: set<Edge>, start: Id, visited: set<Id>, found: seq<Edge>)
    requires Answer(view, start, HopLimit(NotANumber), visited, found)
    ensures visited == {start} && found == []
  {
    assert Ball(view, start, 0) == {start};
    DistinctCount(found);
  }

  lemma SettledEnd(view: set<Edge>, start: Id, hop: nat, d: nat)
    requires 1 <= hop < d
    requires Ball(view, start, hop) == Ball(view, start, hop - 1)
    requires forall k: nat :: k < hop ==> |Ball(view, start, k)| < MAX_NODES
    ensures forall k: nat :: hop - 1 <= k <= d ==> Ball(view, start, k) == Ball(view, start, hop)
    ensures LastHop(view, start, d) == d
  {
    forall k: nat | hop - 1 <= k <= d ensures Ball(view, start, k) == Ball(view, start, hop) {
      BallSettles(view, start, hop - 1, k);
    }
    LastHopIs(view, start, d, d);
  }

  class KnowledgeGraph {
    var entities: seq<Entity>
    var edges: seq<Edge>
    var minted: nat

    ghost function State(): Graph
      reads this
    {
      Graph(entities, edges, minted)
    }

    ghost predicate Valid()
      reads this
    {
      Consistent(State())
    }

    constructor ()
      ensures Valid() && State() == EMPTY
    {
      entities, edges, minted := [], [], 0;
    }

    method SelectByRef(ref: Ref) returns (found: Option<Id>)
      ensures found == FindRef(entities, ref)
    {
      found := None;
      var i := 0;
      while i < |entities|
        invariant 0 <= i <= |entities|
        invariant FindRef(entities[i..], ref) == FindRef(entities, ref)
      {
        if entities[i].ref == Some(ref) {
          return Some(entities[i].id);
        }
        i := i + 1;
      }
    }

    method UpsertEntity(business: string, kind: string, ref: Ref, caption: string, now: int) returns (id: Id)
      modifies this
      ensures State() == WithEntity(old(State()), business, kind, ref, caption, now)
      ensures FindRef(entities, ref) == Some(id)
    {
      var existing := SelectByRef(ref);
      if existing.Some? {
        return existing.value;
      }
      id := minted;
      FindRefAppend(entities, entities + [Entity(id, Some(business), kind, Some(ref), caption, now)], ref);
      entities := entities + [Entity(id, Some(business), kind, Some(ref), caption, now)];
      minted := minted + 1;
    }

    /** An entity with no backing row never takes part in a lookup by reference. */
    method CreateStandaloneEntity(business: string, kind: string, caption: string, now: int) returns (id: Id)
      requires Valid()
      modifies this
      ensures Valid() && edges == old(edges)
      ensures entities == old(entities) + [Entity(id, Some(business), kind, None, caption, now)]
      ensures !old(IsEntity(State(), id))
    {
      id := minted;
      assert forall x :: IsEntity(State(), x) ==> exists i :: 0 <= i < |old(entities)| && old(entities)[i].id == x;
      entities := entities + [Entity(id, Some(business), kind, None, caption, now)];
      minted := minted + 1;
      forall x | old(IsEntity(State(), x)) ensures IsEntity(State(), x) {
        var i :| 0 <= i < |old(entities)| && old(entities)[i].id == x;
        assert entities[i].id == x;
      }
    }

    method UpsertEdge(business: string, from: Id, to: Id, kind: string, weight: real,
                      evidence: Option<string>, now: int)
      modifies this
      ensures State() == WithEdge(old(State()), business, from, to, kind, weight, evidence, now)
    {
      if from == to {
        return;
      }
      var e := Edge(minted, Some(business), from, to, kind, weight, evidence, now);
      var conflict := false;
      var i := 0;
      while i < |edges|
        invariant 0 <= i <= |edges| == |old(edges)|
        invariant entities == old(entities) && minted == old(minted)
        invariant forall k :: 0 <= k < i ==> edges[k] == Overwritten(old(edges)[k], e)
        invariant forall k :: i <= k < |edges| ==> edges[k] == old(edges)[k]
        invariant conflict <==> exists k :: 0 <= k < i && KeyOf(old(edges)[k]) == KeyOf(e)
      {
        if KeyOf(edges[i]) == KeyOf(e) {
          conflict := true;
          edges := edges[i := edges[i].(weight := weight, evidence := evidence)];
        }
        i := i + 1;
      }
      if !conflict {
        assert edges == old(edges);
        edges := edges + [e];
      }
      assert edges == PutEdge(old(edges), e);
      minted := minted + 1;
    }

    method CreateEdge(c: Command, now: int)
      requires Valid()
      modifies this
      ensures State() == Step(old(State()), c, now) && Valid()
    {
      StepConsistent(State(), c, now);
      var fromId := UpsertEntity(c.business, c.fromKind, c.fromRef, c.fromLabel, now);
      ghost var mid := State();
      var toId := UpsertEntity(c.business, c.toKind, c.toRef, c.toLabel, now);
      FindRefAppend(mid.entities, entities, c.fromRef);
      UpsertEdge(c.business, fromId, toId, c.kind, 1.0, c.evidence, now);
    }

    method CreateEdges(cs: seq<Command>, now: int)
      requires Valid()
      modifies this
      ensures State() == RunAll(old(State()), cs, now) && Valid()
    {
      for i := 0 to |cs|
        invariant State() == RunAll(old(State()), cs[..i], now) && Valid()
      {
        assert cs[..i + 1][..i] == cs[..i];
        CreateEdge(cs[i], now);
      }
      assert cs[..|cs|] == cs;
    }

    method DeriveSection(r: Relations, business: string, section: Section, now: int)
      requires Valid()
      modifies this
      ensures State() == RunAll(old(State()), WholeSection(r, business, section), now) && Valid()
    {
      for i := 0 to RowCount(r, section)
        invariant State() == RunAll(old(State()), SectionCommands(r, business, section, i), now) && Valid()
      {
        RunAllAppend(old(State()), SectionCommands(r, business, section, i), RowCommands(r, business, section, i), now);
        CreateEdges(RowCommands(r, business, section, i), now);
      }
    }

    /** The rebuild runs exactly the derived commands, and reports what the tables then hold. */
    method DeriveEdgesForBusiness(r: Relations, business: string, now: int) returns (entityCount: nat, edgeCount: nat)
      requires Valid()
      modifies this
      ensures State() == RunAll(old(State()), DeriveCommands(r, business), now) && Valid()
      ensures entityCount == |set k | 0 <= k < |entities| && entities[k].business == Some(business)|
      ensures edgeCount == |set k | 0 <= k < |edges| && edges[k].business == Some(business)|
    {
      var g := State();
      var a, b := WholeSection(r, business, Tasks), WholeSection(r, business, Outcomes);
      var c, d, e := WholeSection(r, business, Conflicts), WholeSection(r, business, Decisions),
                     WholeSection(r, business, Dependencies);
      DeriveSection(r, business, Tasks, now);
      DeriveSection(r, business, Outcomes, now);
      RunAllAppend(g, a, b, now);
      DeriveSection(r, business, Conflicts, now);
      RunAllAppend(g, a + b, c, now);
      DeriveSection(r, business, Decisions, now);
      RunAllAppend(g, a + b + c, d, now);
      DeriveSection(r, business, Dependencies, now);
      RunAllAppend(g, a + b + c + d, e, now);
      entityCount := CountEntities(entities, business);
      edgeCount := CountEdges(edges, business);
      CountEntitiesIs(entities, business);
      CountEdgesIs(edges, business);
    }

    /** A second rebuild over unchanged rows, whenever it happens, leaves both tables and both counts as they were. */
    method RebuildTwice(r: Relations, business: string, first: int, second: int)
      returns (firstCounts: (nat, nat), secondCounts: (nat, nat), between: (seq<Entity>, seq<Edge>))
      requires Valid()
      modifies this
      ensures Valid() && entities == between.0 && edges == between.1
      ensures firstCounts == secondCounts
    {
      var g := State();
      var n, m := DeriveEdgesForBusiness(r, business, first);
      firstCounts, between := (n, m), (entities, edges);
      n, m := DeriveEdgesForBusiness(r, business, second);
      secondCounts := (n, m);
      RunTwiceIsRunOnce(g, DeriveCommands(r, business), first, second);
    }

    /** The rows of `kg_edges` one hop asks for. Nothing is promised about their order. */
    method SelectTouching(business: string, kinds: seq<string>, frontier: seq<Id>) returns (rows: seq<Edge>)
      requires Valid()
      ensures NoDuplicates(rows)
      ensures Elements(rows) == Touching(View(edges, business, kinds), Elements(frontier))
    {
      rows := [];
      for i := 0 to |edges|
        invariant forall e :: e in rows <==>
          e in edges[..i] && Selected(e, business, kinds) && (e.from in frontier || e.to in frontier)
        invariant NoDuplicates(rows)
      {
        PrefixOfOneMore(edges, i);
        if Selected(edges[i], business, kinds) && (edges[i].from in frontier || edges[i].to in frontier) {
          rows := rows + [edges[i]];
        }
      }
      assert edges[..|edges|] == edges;
    }

    /** The loop over one hop's rows: record new edges, discover new nodes while there is room. */
    method Expand(rows: seq<Edge>, visited0: set<Id>, found0: seq<Edge>)
      returns (visited: set<Id>, found: seq<Edge>, next: seq<Id>)
      requires Valid() && Elements(rows) <= Elements(edges) && Elements(found0) <= Elements(edges)
      requires |visited0| < MAX_NODES && NoDuplicates(found0)
      ensures Expanded(Ends(Elements(rows)), visited0, visited, next)
      ensures NoDuplicates(found) && Elements(found) == Elements(found0) + Elements(rows)
    {
      visited, found, next := visited0, found0, [];
      for i := 0 to |rows|
        invariant Expanded(Ends(Elements(rows[..i])), visited0, visited, next)
        invariant NoDuplicates(found) && Elements(found) == Elements(found0) + Elements(rows[..i])
      {
        var e := rows[i];
        ghost var ends := Ends(Elements(rows[..i]));
        PrefixOfOneMore(rows, i);
        EndsOfOneMore(rows[..i], e);
        assert e in Elements(rows);
        found := RecordEdge(e, found);
        ghost var v, n := visited, next;
        visited, next := Discover(e.from, visited, next);
        DiscoverOne(ends, e.from, visited0, v, n, visited, next);
        v, n := visited, next;
        visited, next := Discover(e.to, visited, next);
        DiscoverOne(ends + {e.from}, e.to, visited0, v, n, visited, next);
      }
      assert rows[..|rows|] == rows;
    }

    method RecordEdge(e: Edge, found0: seq<Edge>) returns (found: seq<Edge>)
      requires Valid() && e in edges && Elements(found0) <= Elements(edges) && NoDuplicates(found0)
      ensures NoDuplicates(found) && Elements(found) == Elements(found0) + {e}
    {
      SameIdSameEdge(e, found0);
      found := if exists j :: 0 <= j < |found0| && found0[j].id == e.id then found0 else found0 + [e];
    }

    /** Edge ids are unique, so comparing ids compares rows. */
    lemma SameIdSameEdge(e: Edge, found: seq<Edge>)
      requires Valid() && e in edges && Elements(found) <= Elements(edges)
      ensures (exists j :: 0 <= j < |found| && found[j].id == e.id) <==> e in found
    {
      forall j | 0 <= j < |found| && found[j].id == e.id ensures found[j] == e {
        assert found[j] in Elements(found);
        var a :| 0 <= a < |edges| && edges[a] == e;
        var b :| 0 <= b < |edges| && edges[b] == found[j];
      }
    }

    method SelectNodes(ids: set<Id>) returns (nodes: seq<Entity>)
      requires Valid() && forall id :: id in ids ==> IsEntity(State(), id)
      ensures Ids(nodes) == ids && |nodes| == |ids|
      ensures forall n :: n in nodes ==> n in entities
    {
      nodes := [];
      for i := 0 to |entities|
        invariant nodes == NodesIn(entities[..i], ids)
        invariant forall n :: n in nodes ==> n in entities
      {
        assert entities[..i + 1][..i] == entities[..i];
        if entities[i].id in ids {
          nodes := nodes + [entities[i]];
        }
      }
      assert entities[..|entities|] == entities;
      NodesInMeaning(entities, ids);
      forall id | id in ids ensures id in Ids(entities) {
        var k :| 0 <= k < |entities| && entities[k].id == id;
        assert entities[k] in entities;
      }
    }

    /** The capped breadth-first read. If no stored row of the business has the reference, nothing at all comes
        back; otherwise the answer over the rows of that business and of the kinds asked for, if any, from the
        row that has it. What comes back is stored. */
    method TraverseGraph(business: string, start: Ref, depth: Depth, kinds: seq<string>)
      returns (nodes: seq<Entity>, found: seq<Edge>)
      requires Valid()
      ensures nodes == [] <==>
        forall i :: 0 <= i < |entities| ==> !(entities[i].business == Some(business) && entities[i].ref == Some(start))
      ensures nodes == [] ==> found == []
      ensures forall i :: 0 <= i < |entities| && entities[i].business == Some(business) && entities[i].ref == Some(start) ==>
        var view := set e | e in edges && e.business == Some(business) && (|kinds| > 0 ==> e.kind in kinds);
        Answer(view, entities[i].id, HopLimit(depth), Ids(nodes), found)
      ensures NoDuplicates(nodes) && |nodes| == |Ids(nodes)| && forall n :: n in nodes ==> n in entities
    {
      var startId := FindStart(entities, business, start);
      FindStartMeaning(entities, business, start);
      if startId == None {
        assert Ids([]) == {};
        return [], [];
      }
      ghost var view := View(edges, business, kinds);
      assert view == set e | e in edges && e.business == Some(business) && (|kinds| > 0 ==> e.kind in kinds);
      nodes, found := TraverseFrom(business, startId.value, depth, kinds, view);
    }

    method TraverseFrom(business: string, start: Id, depth: Depth, kinds: seq<string>, ghost view: set<Edge>)
      returns (nodes: seq<Entity>, found: seq<Edge>)
      requires Valid() && IsEntity(State(), start) && view == View(edges, business, kinds)
      ensures Answer(view, start, HopLimit(depth), Ids(nodes), found)
      ensures NoDuplicates(nodes) && |nodes| == |Ids(nodes)| && forall n :: n in nodes ==> n in entities
      ensures nodes != []
    {
      var visited, frontier, hop;
      visited, found, frontier, hop := Explore(business, start, HopLimit(depth), kinds, view);
      ExploredEnd(view, start, hop, HopLimit(depth), visited, found, frontier);
      BallExists(view, start, hop);
      nodes := SelectNodes(visited);
      AsManyAsIds(nodes);
      assert Ball(view, start, 0) == {start};
      assert start in Ids(nodes);
    }

    /** The hop loop; it stops at the depth limit, with nothing left to expand, or at the cap. */
    method Explore(business: string, start: Id, limit: nat, kinds: seq<string>, ghost view: set<Edge>)
      returns (visited: set<Id>, found: seq<Edge>, frontier: seq<Id>, hop: nat)
      requires Valid() && view == View(edges, business, kinds)
      ensures Explored(view, start, hop, visited, found, frontier) && hop <= limit
      ensures hop == limit || frontier == [] || |visited| >= MAX_NODES
    {
      visited, found, frontier, hop := {start}, [], [start], 0;
      ExploredStart(view, start);
      while hop < limit && |frontier| > 0 && |visited| < MAX_NODES
        invariant 0 <= hop <= limit
        invariant Explored(view, start, hop, visited, found, frontier)
      {
        ghost var before := hop;
        hop := hop + 1;
        visited, found, frontier := Hop(business, kinds, view, start, before, hop, visited, found, frontier);
      }
    }

    /** One pass of the hop loop: hop number `hop`, with `before` of them made. */
    method Hop(business: string, kinds: seq<string>, ghost view: set<Edge>, ghost start: Id,
               ghost before: nat, ghost hop: nat, visited0: set<Id>, found0: seq<Edge>, frontier: seq<Id>)
      returns (visited: set<Id>, found: seq<Edge>, next: seq<Id>)
      requires Valid() && |visited0| < MAX_NODES && view == View(edges, business, kinds)
      requires hop == before + 1 && Explored(view, start, before, visited0, found0, frontier)
      ensures Explored(view, start, hop, visited, found, next)
    {
      var rows := SelectTouching(business, kinds, frontier);
      assert Elements(rows) <= Elements(edges) && Elements(found0) <= Elements(edges);
      visited, found, next := Expand(rows, visited0, found0);
      ExploredStep(view, start, before, hop, visited0, found0, frontier, rows, visited, found, next);
    }

    /** A traversal meets stored entities only. */
    lemma {:induction false} BallExists(view: set<Edge>, start: Id, k: nat)
      requires Valid() && view <= Elements(edges) && IsEntity(State(), start)
      ensures forall id :: id in Ball(view, start, k) ==> IsEntity(State(), id)
    {
      if k > 0 {
        BallExists(view, start, k - 1);
        EndsExist(Touching(view, Ball(view, start, k - 1)));
      }
    }

    lemma EndsExist(some: set<Edge>)
      requires Valid() && some <= Elements(edges)
      ensures forall id :: id in Ends(some) ==> IsEntity(State(), id)
    {
      forall e | e in some ensures IsEntity(State(), e.from) && IsEntity(State(), e.to) {
        assert e in Elements(edges);
        var i :| 0 <= i < |edges| && edges[i] == e;
      }
    }
  }
}
