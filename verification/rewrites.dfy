/** Rewriting several edges in place, in ascending order, each keeping its shape and name. */
module Rewrites {
  import opened Types
  import opened Graphs
  import opened Mutations
  import opened GraphStates
  import opened Orders

  function Rewritten(edges: Edges, ids: set<EdgeId>, rewrite: Edge -> Edge): Edges {
    map e | e in edges :: if e in ids then rewrite(edges[e]) else edges[e]
  }

  function ReissueTo(n: NodeId, generation: Counter): Edge -> Edge {
    (e: Edge) => Reissued(e, n, generation)
  }

  /** The rewrite changes neither the shape nor the name of these edges. */
  ghost predicate Preserves(edges: Edges, ids: set<EdgeId>, rewrite: Edge -> Edge) {
    forall e :: e in ids && e in edges ==>
      SameShape(edges[e], rewrite(edges[e])) && edges[e].relationship == rewrite(edges[e]).relationship
  }

  /** The edges that are listed so far. */
  function Visited(order: seq<EdgeId>): set<EdgeId> {
    set e | e in order
  }

  lemma VisitedAll(order: seq<EdgeId>, ids: set<EdgeId>)
    requires Lists(order, ids)
    ensures Visited(order) == ids && Visited(order[..|order|]) == ids && Visited(order[..0]) == {}
    ensures forall i :: 0 <= i < |order| ==> order[i] in ids && order[i] !in Visited(order[..i])
    ensures forall i :: 0 <= i < |order| ==> Visited(order[..i + 1]) == Visited(order[..i]) + {order[i]}
  {
    assert order[..|order|] == order;
  }

  lemma RewrittenNothing(edges: Edges, rewrite: Edge -> Edge)
    ensures Rewritten(edges, {}, rewrite) == edges
  {
  }

  lemma RewrittenStep(edges: Edges, done: set<EdgeId>, id: EdgeId, rewrite: Edge -> Edge)
    requires id in edges && id !in done
    ensures id in Rewritten(edges, done, rewrite) && Rewritten(edges, done, rewrite)[id] == edges[id]
    ensures Rewritten(edges, done, rewrite)[id := rewrite(edges[id])] == Rewritten(edges, done + {id}, rewrite)
    ensures Rewritten(edges, done + {id}, rewrite)[id := edges[id]] == Rewritten(edges, done, rewrite)
  {
  }

  lemma RewrittenPlain(g: Graph, ids: set<EdgeId>, done: set<EdgeId>, l: Lookups, rewrite: Edge -> Edge)
    requires Plain(g) && done <= ids && Preserves(g.edges, ids, rewrite)
    ensures Plain(g.(edges := Rewritten(g.edges, done, rewrite), lookups := l))
  {
    hide EntitiesUnique, NodesFiled;
    var after := Rewritten(g.edges, done, rewrite);
    forall e | e in g.edges
      ensures SameShape(g.edges[e], after[e])
    {
    }
  }

  /** Replacing an edge by one with its key, its name and its identifier is filing it anew. */
  lemma AlikeIsFiledAnew(l: Lookups, e: Edge, e': Edge)
    requires e'.id == e.id && KeyOf(e') == KeyOf(e) && e'.relationship == e.relationship
    ensures Relist(l, e, e') == Enlist(l, e) == Relist(l, e', e)
  {
    hide KeyOf;
  }

  lemma RewriteIsAlike(g: Graph, ids: set<EdgeId>, id: EdgeId, rewrite: Edge -> Edge)
    requires Plain(g) && id in ids && id in g.edges && Preserves(g.edges, ids, rewrite)
    ensures var e := g.edges[id];
            && e.id == id && rewrite(e).id == id && KeyOf(rewrite(e)) == KeyOf(e)
            && rewrite(e).relationship == e.relationship
  {
    hide EntitiesUnique, NodesFiled, SecondariesDeclared, MakeKey;
  }

  /** Rewrite each of these edges, in ascending order. */
  method Rewrite(g: GraphState, ids: set<EdgeId>, rewrite: Edge -> Edge)
    requires g.Firm() && ids <= g.edges.Keys && Preserves(g.edges, ids, rewrite)
    modifies g
    ensures g.Firm()
    ensures g.Content() == old(g.Content()).(edges := Rewritten(old(g.edges), ids, rewrite),
                                             lookups := Refiled(old(g.Content()).lookups, old(g.edges), ids))
  {
    hide FullyIndexed, PlainlyIndexed, Plain, Tidy, Rewritten, Preserves, Relist, Enlist, Visited;
    ghost var before := g.Content();
    var order := Sorted(ids);
    RewrittenNothing(before.edges, rewrite);
    VisitedAll(order, ids);
    for i := 0 to |order|
      invariant g.Firm()
      invariant g.Content() == before.(edges := Rewritten(before.edges, Visited(order[..i]), rewrite),
                                       lookups := Relisted(before.lookups, before.edges, order[..i]))
    {
      var id := order[i];
      assert order[..i + 1][..i] == order[..i];
      RewrittenStep(before.edges, Visited(order[..i]), id, rewrite);
      VisitedWithin(order, ids, i + 1);
      RewrittenPlain(before, ids, Visited(order[..i + 1]), Relisted(before.lookups, before.edges, order[..i + 1]),
                     rewrite);
      RewriteIsAlike(before, ids, id, rewrite);
      AlikeIsFiledAnew(Relisted(before.lookups, before.edges, order[..i]), before.edges[id], rewrite(before.edges[id]));
      var ok := g.MutateEdge(id, rewrite);
    }
    assert order[..|order|] == order;
  }

  lemma VisitedWithin(order: seq<EdgeId>, ids: set<EdgeId>, i: nat)
    requires Lists(order, ids) && i <= |order|
    ensures Visited(order[..i]) <= ids
  {
  }
}
