/** The graph that a capped breadth-first read explores, without any search in it:
    undirected hops over a set of typed edges, and the balls they span.
    Source: server/brain/knowledge-graph.ts. */
module GraphBalls {
  import opened Collections

  /** `MAX_NODES`, the size at which a traversal stops growing. */
  const MAX_NODES: nat := 200

  type Id = nat

  datatype Edge = Edge(id: Id, business: Option<string>, from: Id, to: Id, kind: string,
                       weight: real, evidence: Option<string>, createdAt: int)

  /** The rows a traversal may use: one business, and the requested kinds if any were given. */
  predicate Selected(e: Edge, business: string, kinds: seq<string>) {
    e.business == Some(business) && (kinds == [] || e.kind in kinds)
  }

  ghost function View(edges: seq<Edge>, business: string, kinds: seq<string>): set<Edge> {
    set e | e in edges && Selected(e, business, kinds)
  }

  ghost function Touching(view: set<Edge>, ids: set<Id>): set<Edge> {
    set e | e in view && (e.from in ids || e.to in ids)
  }

  ghost function Ends(edges: set<Edge>): set<Id> {
    (set e | e in edges :: e.from) + (set e | e in edges :: e.to)
  }

  /** Everything at most `k` hops away from `start`. */
  ghost function Ball(view: set<Edge>, start: Id, k: nat): (ids: set<Id>)
    ensures start in ids
  {
    if k == 0 then {start}
    else Ball(view, start, k - 1) + Ends(Touching(view, Ball(view, start, k - 1)))
  }

  /** The number of hops a capped traversal of depth `d` performs before it can no longer grow:
      `d`, or the first radius whose ball has `MAX_NODES` nodes or more. */
  ghost function LastHop(view: set<Edge>, start: Id, d: nat): (h: nat)
    ensures h <= d
    ensures h < d ==> |Ball(view, start, h)| >= MAX_NODES
    ensures forall k: nat :: k < h ==> |Ball(view, start, k)| < MAX_NODES
  {
    if d == 0 then 0
    else
      var earlier := LastHop(view, start, d - 1);
      if |Ball(view, start, earlier)| >= MAX_NODES then earlier else d
  }

  // ----- an independent reading of balls: paths -----

  predicate Adjacent(e: Edge, a: Id, b: Id) {
    (e.from == a && e.to == b) || (e.from == b && e.to == a)
  }

  /** `path` lists the edges walked from `a` to `b`, each in either direction. */
  ghost predicate IsWalk(view: set<Edge>, a: Id, b: Id, path: seq<(Edge, Id)>)
    decreases |path|
  {
    if path == [] then a == b
    else
      var last := |path| - 1;
      path[last].0 in view && Adjacent(path[last].0, path[last].1, b) && IsWalk(view, a, path[last].1, path[..last])
  }

  /** A ball of radius `k` holds exactly the nodes some walk of at most `k` edges reaches. */
  lemma {:induction false} BallIsWalks(view: set<Edge>, start: Id, k: nat, v: Id)
    ensures v in Ball(view, start, k) <==> exists path :: |path| <= k && IsWalk(view, start, v, path)
  {
    if v in Ball(view, start, k) {
      var path := WalkTo(view, start, k, v);
    }
    forall path | |path| <= k && IsWalk(view, start, v, path)
      ensures v in Ball(view, start, k)
    {
      WalkStaysInBall(view, start, k, v, path);
    }
  }

  lemma {:induction false} WalkTo(view: set<Edge>, start: Id, k: nat, v: Id) returns (path: seq<(Edge, Id)>)
    requires v in Ball(view, start, k)
    ensures |path| <= k && IsWalk(view, start, v, path)
    decreases k
  {
    if v == start {
      path := [];
    } else if v in Ball(view, start, k - 1) {
      path := WalkTo(view, start, k - 1, v);
    } else {
      var e :| e in Touching(view, Ball(view, start, k - 1)) && (e.from == v || e.to == v);
      var u := if e.from == v then e.to else e.from;
      assert u in Ball(view, start, k - 1);
      var before := WalkTo(view, start, k - 1, u);
      path := before + [(e, u)];
      assert path[..|path| - 1] == before;
    }
  }

  lemma {:induction false} WalkStaysInBall(view: set<Edge>, start: Id, k: nat, v: Id, path: seq<(Edge, Id)>)
    requires |path| <= k && IsWalk(view, start, v, path)
    ensures v in Ball(view, start, k)
    decreases |path|
  {
    BallMonotone(view, start, 0, k);
    if path != [] {
      var last := |path| - 1;
      var e, u := path[last].0, path[last].1;
      WalkStaysInBall(view, start, k - 1, u, path[..last]);
      assert e in Touching(view, Ball(view, start, k - 1));
    }
  }

  // ----- how balls grow -----

  lemma {:induction false} BallMonotone(view: set<Edge>, start: Id, j: nat, k: nat)
    requires j <= k
    ensures Ball(view, start, j) <= Ball(view, start, k)
    decreases k - j
  {
    if j < k {
      BallMonotone(view, start, j, k - 1);
    }
  }

  /** Only the newest layer matters: older edges lead to nodes that are in the ball already. */
  lemma BallFromFrontier(view: set<Edge>, start: Id, k: nat)
    requires k >= 1
    ensures Ball(view, start, k + 1)
         == Ball(view, start, k) + Ends(Touching(view, Ball(view, start, k) - Ball(view, start, k - 1)))
    ensures Touching(view, Ball(view, start, k))
         == Touching(view, Ball(view, start, k - 1)) + Touching(view, Ball(view, start, k) - Ball(view, start, k - 1))
  {
    var inner, outer := Ball(view, start, k - 1), Ball(view, start, k);
    BallMonotone(view, start, k - 1, k);
    assert Touching(view, outer) == Touching(view, inner) + Touching(view, outer - inner);
    assert Ends(Touching(view, outer)) == Ends(Touching(view, inner)) + Ends(Touching(view, outer - inner));
  }

  lemma {:induction false} BallSettles(view: set<Edge>, start: Id, j: nat, k: nat)
    requires j <= k
    requires Ball(view, start, j + 1) == Ball(view, start, j)
    ensures Ball(view, start, k) == Ball(view, start, j)
    decreases k - j
  {
    if j < k {
      BallSettles(view, start, j, k - 1);
    }
  }

  lemma LastHopIs(view: set<Edge>, start: Id, d: nat, h: nat)
    requires h <= d
    requires h < d ==> |Ball(view, start, h)| >= MAX_NODES
    requires forall k: nat :: k < h ==> |Ball(view, start, k)| < MAX_NODES
    ensures LastHop(view, start, d) == h
  {
  }

  // ----- graphs on which the cap cuts edges loose -----

  /** With more than `MAX_NODES` nodes around one centre the first hop already reaches them all, and is the
      last one at every depth. */
  lemma StarOverflows(view: set<Edge>, centre: Id, d: nat)
    requires (forall e :: e in view ==> e.from == centre) && |Ends(view) + {centre}| > MAX_NODES && d >= 1
    ensures Ball(view, centre, 1) == Ends(view) + {centre}
    ensures LastHop(view, centre, d) == 1
  {
    assert Touching(view, {centre}) == view;
    assert Ball(view, centre, 0) == {centre};
    assert Ball(view, centre, 1) == {centre} + Ends(view) == Ends(view) + {centre};
    LastHopIs(view, centre, d, 1);
  }
}
