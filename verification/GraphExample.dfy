/** A stored graph whose traversal returns edges without one of their ends.
    Source: server/brain/knowledge-graph.ts. */
module GraphExample {
  import opened Collections
  import opened GraphBalls
  import opened GraphRebuild
  import opened KnowledgeGraph

  const CENTRE := Ref("centre", "")

  function Leaf(k: nat): Ref {
    Ref("leaf", seq(k, _ => 'x'))
  }

  /** `createEdge` from the centre to one more leaf. */
  function Link(k: nat): Command {
    Command("b", CENTRE, "", "node", Leaf(k), "", "node", "mentions", None)
  }

  function Links(n: nat): seq<Command> {
    if n == 0 then [] else Links(n - 1) + [Link(n - 1)]
  }

  function CentreRow(now: int): Entity {
    Entity(0, Some("b"), "node", Some(CENTRE), "", now)
  }

  lemma LeavesDiffer(j: nat, k: nat)
    ensures Leaf(j) == Leaf(k) ==> j == k
    ensures Leaf(j) != CENTRE
  {
    assert |Leaf(j).id| == j && |Leaf(k).id| == k;
  }

  /** The centre is the first entity, and leaves from number `n` on are unknown. */
  ghost predicate HasCentre(entities: seq<Entity>, n: nat, now: int) {
    && entities != [] && entities[0] == CentreRow(now)
    && forall k: nat :: k >= n ==> FindRef(entities, Leaf(k)) == None
  }

  /** `n` other entities, minted so far, hang on the centre. */
  ghost predicate HasRays(edges: seq<Edge>, minted: nat, n: nat) {
    && (forall e :: e in edges ==> e.from == 0 && e.business == Some("b"))
    && minted > 0 && (forall id :: id in Ends(Elements(edges)) ==> id < minted)
    && |Ends(Elements(edges)) + {0}| == n + 1
  }

  ghost predicate IsStar(g: Graph, n: nat, now: int) {
    HasCentre(g.entities, n, now) && HasRays(g.edges, g.minted, n)
  }

  lemma {:induction false} FindRefOther(entities: seq<Entity>, e: Entity, ref: Ref)
    requires e.ref != Some(ref)
    ensures FindRef(entities + [e], ref) == FindRef(entities, ref)
  {
    if entities != [] {
      FindRefOther(entities[1..], e, ref);
      assert (entities + [e])[1..] == entities[1..] + [e];
    }
  }

  lemma CentreIsFound(g: Graph, n: nat, now: int)
    requires IsStar(g, n, now)
    ensures FindRef(g.entities, CENTRE) == Some(0) && FindStart(g.entities, "b", CENTRE) == Some(0)
  {
  }

  function LeafRow(g: Graph, n: nat, now: int): Entity {
    Entity(g.minted, Some("b"), "node", Some(Leaf(n)), "", now)
  }

  function LinkRow(g: Graph, now: int): Edge {
    Edge(g.minted + 1, Some("b"), 0, g.minted, "mentions", 1.0, None, now)
  }

  /** A star with one more leaf, and an edge to it, is a star. */
  lemma StarGrows(g: Graph, n: nat, now: int)
    requires IsStar(g, n, now)
    ensures IsStar(Graph(g.entities + [LeafRow(g, n, now)], g.edges + [LinkRow(g, now)], g.minted + 2), n + 1, now)
  {
    CentreStays(g.entities, LeafRow(g, n, now), n, now);
    OneMoreRay(g.edges, LinkRow(g, now), g.minted, n);
  }

  lemma CentreStays(entities: seq<Entity>, leaf: Entity, n: nat, now: int)
    requires HasCentre(entities, n, now) && leaf.ref == Some(Leaf(n))
    ensures HasCentre(entities + [leaf], n + 1, now)
  {
    forall k: nat | k >= n + 1 ensures FindRef(entities + [leaf], Leaf(k)) == None {
      LeavesDiffer(n, k);
      FindRefOther(entities, leaf, Leaf(k));
    }
  }

  lemma OneMoreRay(edges: seq<Edge>, edge: Edge, minted: nat, n: nat)
    requires HasRays(edges, minted, n) && edge.from == 0 && edge.to == minted && edge.business == Some("b")
    ensures HasRays(edges + [edge], minted + 2, n + 1)
  {
    EndsOfOneMore(edges, edge);
    MembersOfOneMore(edges, edge);
    OneMoreEnd(Ends(Elements(edges)), minted);
  }

  lemma OneMoreEnd(ends: set<Id>, id: Id)
    requires id > 0 && forall x :: x in ends ==> x < id
    ensures |ends + {0} + {id} + {0}| == |ends + {0}| + 1
  {
    assert ends + {0} + {id} + {0} == (ends + {0}) + {id};
  }

  lemma LinkAdds(g: Graph, n: nat, now: int)
    requires IsStar(g, n, now)
    ensures Step(g, Link(n), now)
         == Graph(g.entities + [LeafRow(g, n, now)], g.edges + [LinkRow(g, now)], g.minted + 2)
  {
    var longer := g.entities + [LeafRow(g, n, now)];
    CentreIsFound(g, n, now);
    FindRefAppend(g.entities, longer, CENTRE);
    FindRefAppend(g.entities, longer, Leaf(n));
    var key := EdgeKey(0, g.minted, "mentions");
    forall i | 0 <= i < |g.edges| ensures KeyOf(g.edges[i]) != key {
      assert g.edges[i] in Elements(g.edges);
      assert g.edges[i].to in Ends(Elements(g.edges));
    }
  }

  /** The first command stores the centre, too. */
  lemma FirstLink(now: int)
    ensures IsStar(Graph([CentreRow(now)], [], 1), 0, now)
    ensures Step(EMPTY, Link(0), now) == Step(Graph([CentreRow(now)], [], 1), Link(0), now)
  {
    var first := [CentreRow(now)];
    forall k: nat ensures FindRef(first, Leaf(k)) == None {
      LeavesDiffer(k, k);
      assert first[1..] == [];
    }
    assert Ends(Elements<Edge>([])) == {};
    assert WithEntity(EMPTY, "b", "node", CENTRE, "", now) == Graph(first, [], 1);
    assert WithEntity(Graph(first, [], 1), "b", "node", CENTRE, "", now) == Graph(first, [], 1);
  }

  lemma LastLink(n: nat, now: int)
    requires n >= 1
    ensures RunAll(EMPTY, Links(n), now) == Step(RunAll(EMPTY, Links(n - 1), now), Link(n - 1), now)
  {
    var links := Links(n);
    assert links[..|links| - 1] == Links(n - 1) && links[|links| - 1] == Link(n - 1);
  }

  lemma StarStep(g: Graph, h: Graph, n: nat, now: int)
    requires IsStar(g, n, now) && h == Step(g, Link(n), now)
    ensures IsStar(h, n + 1, now)
  {
    LinkAdds(g, n, now);
    StarGrows(g, n, now);
  }

  lemma StarOfOne(now: int)
    ensures IsStar(RunAll(EMPTY, Links(1), now), 1, now)
  {
    LastLink(1, now);
    FirstLink(now);
    StarStep(Graph([CentreRow(now)], [], 1), RunAll(EMPTY, Links(1), now), 0, now);
  }

  lemma StarOfOneMore(n: nat, now: int)
    requires n >= 2 && IsStar(RunAll(EMPTY, Links(n - 1), now), n - 1, now)
    ensures IsStar(RunAll(EMPTY, Links(n), now), n, now)
  {
    LastLink(n, now);
    StarStep(RunAll(EMPTY, Links(n - 1), now), RunAll(EMPTY, Links(n), now), n - 1, now);
  }

  lemma {:induction false} LinksMakeAStar(n: nat, now: int)
    requires n >= 1
    ensures IsStar(RunAll(EMPTY, Links(n), now), n, now)
  {
    if n == 1 {
      StarOfOne(now);
    } else {
      LinksMakeAStar(n - 1, now);
      StarOfOneMore(n, now);
    }
  }

  /** Store a star with `n` leaves, two hundred or more, by `createEdge` alone, and traverse it from its
      centre: two hundred nodes come back, and an edge that leads out of them. */
  method TraverseStar(n: nat, now: int) returns (nodes: seq<Entity>, found: seq<Edge>)
    requires n >= 200
    ensures |nodes| == 200 && !Closed(found, Ids(nodes))
  {
    var store := new KnowledgeGraph();
    store.CreateEdges(Links(n), now);
    LinksMakeAStar(n, now);
    nodes, found := store.TraverseGraph("b", CENTRE, Omitted, []);
    assert store.entities[0] == CentreRow(now);
    StarAnswerDangles(store.edges, store.minted, n, Ids(nodes), found);
  }

  lemma StarAnswerDangles(edges: seq<Edge>, minted: nat, n: nat, visited: set<Id>, found: seq<Edge>)
    requires HasRays(edges, minted, n) && n >= 200
    requires var kinds: seq<string> := [];
             var view := set e | e in edges && e.business == Some("b") && (|kinds| > 0 ==> e.kind in kinds);
             Answer(view, 0, HopLimit(Omitted), visited, found)
    ensures |visited| == 200 && !Closed(found, visited)
  {
    var kinds: seq<string> := [];
    var view := set e | e in edges && e.business == Some("b") && (|kinds| > 0 ==> e.kind in kinds);
    assert view == Elements(edges);
    StarTraversalDangles(view, 0, 2, visited, found);
  }
}
