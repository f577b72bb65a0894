/** Undoing a batch of edge changes, made in ascending order and noted one by one. */
module BatchUndo {
  import opened Types
  import opened Graphs
  import opened GraphStates
  import opened Orders
  import opened Rewrites
  import opened StateTxns

  predicate Among(order: seq<EdgeId>, edges: Edges) {
    forall i :: 0 <= i < |order| ==> order[i] in edges
  }

  /** One note each, about the edges as they were. */
  function Updates(edges: Edges, order: seq<EdgeId>): (entries: seq<Entry>)
    requires Among(order, edges)
    ensures |entries| == |order| && forall i :: 0 <= i < |order| ==> entries[i] == EdgeUpdated(edges[order[i]])
  {
    seq(|order|, i requires 0 <= i < |order| => EdgeUpdated(edges[order[i]]))
  }

  function Erasures(edges: Edges, order: seq<EdgeId>): (entries: seq<Entry>)
    requires Among(order, edges)
    ensures |entries| == |order| && forall i :: 0 <= i < |order| ==> entries[i] == EdgeErased(edges[order[i]])
  {
    seq(|order|, i requires 0 <= i < |order| => EdgeErased(edges[order[i]]))
  }

  lemma AllAmong(order: seq<EdgeId>, ids: set<EdgeId>, edges: Edges)
    requires Lists(order, ids) && ids <= edges.Keys
    ensures Among(order, edges) && Updates(edges, order[..0]) == [] && Erasures(edges, order[..0]) == []
    ensures forall i :: 0 <= i < |order| ==>
              && Updates(edges, order[..i + 1]) == Updates(edges, order[..i]) + [EdgeUpdated(edges[order[i]])]
              && Erasures(edges, order[..i + 1]) == Erasures(edges, order[..i]) + [EdgeErased(edges[order[i]])]
  {
  }

  /** Filing one edge before the others. */
  lemma {:induction false} RelistedFirst(l: Lookups, edges: Edges, id: EdgeId, order: seq<EdgeId>)
    requires id in edges
    ensures Relisted(l, edges, [id] + order) == Relisted(Enlist(l, edges[id]), edges, order)
  {
    hide Enlist;
    if order == [] {
      assert [id] + order == [id] && [id][..0] == [];
    } else {
      var n := |order| - 1;
      RelistedFirst(l, edges, id, order[..n]);
      assert ([id] + order)[..n + 1] == [id] + order[..n];
    }
  }

  lemma ReversedStep(order: seq<EdgeId>, k: nat)
    requires k < |order|
    ensures Reversed(order[..k + 1]) == [order[k]] + Reversed(order[..k]) && Reversed(order[..0]) == []
  {
    assert order[..k + 1][..k] == order[..k];
  }

  /** The graph after the first k edges of the list have been rewritten. */
  function Partly(g: Graph, order: seq<EdgeId>, k: nat, rewrite: Edge -> Edge, l: Lookups): Graph
    requires k <= |order|
  {
    g.(edges := Rewritten(g.edges, Visited(order[..k]), rewrite), lookups := l)
  }

  /** Undoing the last rewrite files the edge back. */
  lemma LastRewriteUndone(g: Graph, ids: set<EdgeId>, order: seq<EdgeId>, k: nat, rewrite: Edge -> Edge, l: Lookups)
    requires Plain(g) && Lists(order, ids) && ids <= g.edges.Keys && Preserves(g.edges, ids, rewrite) && k < |order|
    ensures UndoOne(Partly(g, order, k + 1, rewrite, l), EdgeUpdated(g.edges[order[k]]))
            == Partly(g, order, k, rewrite, Enlist(l, g.edges[order[k]]))
  {
    hide Plain, Lists, Preserves, Enlist, Relist, Rewritten, Visited;
    var id := order[k];
    VisitedAll(order, ids);
    RewriteIsAlike(g, ids, id, rewrite);
    RewrittenStep(g.edges, Visited(order[..k]), id, rewrite);
    AlikeIsFiledAnew(l, g.edges[id], rewrite(g.edges[id]));
    RewrittenThere(g.edges, Visited(order[..k + 1]), id, rewrite);
  }

  lemma RewrittenThere(edges: Edges, done: set<EdgeId>, id: EdgeId, rewrite: Edge -> Edge)
    requires id in edges && id in done
    ensures id in Rewritten(edges, done, rewrite) && Rewritten(edges, done, rewrite)[id] == rewrite(edges[id])
  {
  }

  /** Undoing the rewrites, newest first, gives the edges back and files each of them back. */
  lemma {:induction false} RewritesUnwind(g: Graph, ids: set<EdgeId>, order: seq<EdgeId>, k: nat,
                                          rewrite: Edge -> Edge, l: Lookups, entries: seq<Entry>, start: Graph)
    requires Plain(g) && Lists(order, ids) && ids <= g.edges.Keys && Preserves(g.edges, ids, rewrite) && k <= |order|
    requires Among(order, g.edges) && LeadsBack(g, entries, start)
    ensures var now := Partly(g, order, k, rewrite, l);
            var noted := entries + Updates(g.edges, order[..k]);
            && LeadsBack(now, noted, start)
            && Unwound(now, noted) == Unwound(g.(lookups := Relisted(l, g.edges, Reversed(order[..k]))), entries)
    decreases k
  {
    hide Plain, Preserves, Lists, Partly, UndoOne, Enlist;
    AllAmong(order, ids, g.edges);
    var now := Partly(g, order, k, rewrite, l);
    if k == 0 {
      NothingPartly(g, order, rewrite, l);
      assert entries + Updates(g.edges, order[..0]) == entries;
      LeadsBackAnyLookups(now, g, entries, start);
      assert Reversed(order[..0]) == [];
    } else {
      var e := g.edges[order[k - 1]];
      var before := entries + Updates(g.edges, order[..k - 1]);
      var noted := entries + Updates(g.edges, order[..k]);
      assert noted == before + [EdgeUpdated(e)];
      assert noted[..|noted| - 1] == before;
      LastRewriteUndone(g, ids, order, k - 1, rewrite, l);
      RewritesUnwind(g, ids, order, k - 1, rewrite, Enlist(l, e), entries, start);
      PartlyPlain(g, ids, order, k - 1, rewrite, Enlist(l, e));
      ReversedStep(order, k - 1);
      RelistedFirst(l, g.edges, order[k - 1], Reversed(order[..k - 1]));
    }
  }

  lemma NothingPartly(g: Graph, order: seq<EdgeId>, rewrite: Edge -> Edge, l: Lookups)
    ensures Partly(g, order, 0, rewrite, l) == g.(lookups := l)
  {
    assert Visited(order[..0]) == {};
    RewrittenNothing(g.edges, rewrite);
  }

  lemma PartlyPlain(g: Graph, ids: set<EdgeId>, order: seq<EdgeId>, k: nat, rewrite: Edge -> Edge, l: Lookups)
    requires Plain(g) && Lists(order, ids) && Preserves(g.edges, ids, rewrite) && k <= |order|
    ensures Plain(Partly(g, order, k, rewrite, l))
  {
    hide Plain, Preserves, Rewritten;
    VisitedWithin(order, ids, k);
    RewrittenPlain(g, ids, Visited(order[..k]), l, rewrite);
  }

  // ---- Erasures -------------------------------------------------------------------------------

  /** The graph after the first k edges of the list have been erased. */
  function Thinned(g: Graph, order: seq<EdgeId>, k: nat, l: Lookups): Graph
    requires k <= |order|
  {
    g.(edges := g.edges - Visited(order[..k]), lookups := l)
  }

  lemma LastErasureUndone(g: Graph, ids: set<EdgeId>, order: seq<EdgeId>, k: nat, l: Lookups)
    requires Plain(g) && Lists(order, ids) && ids <= g.edges.Keys && k < |order|
    ensures UndoOne(Thinned(g, order, k + 1, l), EdgeErased(g.edges[order[k]]))
            == Thinned(g, order, k, Enlist(l, g.edges[order[k]]))
  {
    hide Plain, Lists, Enlist, Visited;
    VisitedAll(order, ids);
    FiledEdge(g, order[k]);
    assert (g.edges - Visited(order[..k + 1]))[order[k] := g.edges[order[k]]] == g.edges - Visited(order[..k]);
  }

  lemma ThinnedPlain(g: Graph, order: seq<EdgeId>, k: nat, l: Lookups)
    requires Plain(g) && k <= |order|
    ensures Plain(Thinned(g, order, k, l))
  {
    hide EntitiesUnique, NodesFiled, Visited;
  }

  lemma NothingThinned(g: Graph, order: seq<EdgeId>, l: Lookups)
    ensures Thinned(g, order, 0, l) == g.(lookups := l)
  {
    assert Visited(order[..0]) == {};
    assert g.edges - {} == g.edges;
  }

  /** Undoing the erasures, newest first, gives the edges back and files each of them back. */
  lemma {:induction false} ErasuresUnwind(g: Graph, ids: set<EdgeId>, order: seq<EdgeId>, k: nat, l: Lookups,
                                          entries: seq<Entry>, start: Graph)
    requires Plain(g) && Lists(order, ids) && ids <= g.edges.Keys && k <= |order|
    requires Among(order, g.edges) && LeadsBack(g, entries, start)
    ensures var now := Thinned(g, order, k, l);
            var noted := entries + Erasures(g.edges, order[..k]);
            && LeadsBack(now, noted, start)
            && Unwound(now, noted) == Unwound(g.(lookups := Relisted(l, g.edges, Reversed(order[..k]))), entries)
    decreases k
  {
    hide Plain, Lists, Thinned, UndoOne, Enlist;
    AllAmong(order, ids, g.edges);
    var now := Thinned(g, order, k, l);
    if k == 0 {
      NothingThinned(g, order, l);
      assert entries + Erasures(g.edges, order[..0]) == entries;
      LeadsBackAnyLookups(now, g, entries, start);
      assert Reversed(order[..0]) == [];
    } else {
      var e := g.edges[order[k - 1]];
      var before := entries + Erasures(g.edges, order[..k - 1]);
      var noted := entries + Erasures(g.edges, order[..k]);
      assert noted == before + [EdgeErased(e)];
      assert noted[..|noted| - 1] == before;
      LastErasureUndone(g, ids, order, k - 1, l);
      ErasuresUnwind(g, ids, order, k - 1, Enlist(l, e), entries, start);
      ThinnedPlain(g, order, k - 1, Enlist(l, e));
      ReversedStep(order, k - 1);
      RelistedFirst(l, g.edges, order[k - 1], Reversed(order[..k - 1]));
    }
  }
}
