/** Depth-first searches with an explicit stack: one new edge, and a whole relation class. */
module Cycles {
  import opened Types
  import opened Paths
  import opened Graphs
  import opened Indexes
  import opened GraphIndex

  // ---- Would one more edge close a cycle? ------------------------------------------------

  lemma OutgoingLookup(edges: Edges, outgoing: Buckets<NodeId, EdgeId>, n: NodeId)
    requires Files(outgoing, Pairs(edges, FromSet))
    ensures forall e :: e in (if n in outgoing then outgoing[n] else {}) <==> e in edges && edges[e].from == n
  {
    forall e
      ensures e in (if n in outgoing then outgoing[n] else {}) <==> e in edges && edges[e].from == n
    {
      assert Has(outgoing, n, e) <==> (n, e) in Pairs(edges, FromSet);
      assert e in edges ==> (edges[e].from == n <==> n in FromSet(edges[e]));
    }
  }

  /** Everything an arc of the relation leads to from this node. */
  ghost function Targets(edges: Edges, relation: Relation, n: NodeId): set<NodeId> {
    set e | e in edges && edges[e].relation == relation && Live(edges[e]) && edges[e].from == n :: edges[e].to
  }

  lemma TargetsAreArcs(edges: Edges, relation: Relation, n: NodeId)
    ensures forall m :: m in Targets(edges, relation, n) <==> (n, m) in LiveArcs(edges, relation)
  {
  }

  /** Push the far end of every live outgoing edge of the relation. */
  method PushTargets(edges: Edges, outgoing: Buckets<NodeId, EdgeId>, relation: Relation, current: NodeId,
                     stack: seq<NodeId>)
    returns (pushed: seq<NodeId>)
    requires Files(outgoing, Pairs(edges, FromSet))
    ensures forall x :: x in pushed <==> x in stack || x in Targets(edges, relation, current)
  {
    hide Files, Pairs;
    pushed := stack;
    OutgoingLookup(edges, outgoing, current);
    if current !in outgoing {
      return;
    }
    var rest := outgoing[current];
    while rest != {}
      invariant rest <= outgoing[current]
      invariant forall x :: x in pushed ==> x in stack || x in Targets(edges, relation, current)
      invariant forall x :: x in stack ==> x in pushed
      invariant forall e :: e in outgoing[current] - rest && edges[e].relation == relation && Live(edges[e]) ==>
          edges[e].to in pushed
      decreases |rest|
    {
      var e :| e in rest;
      rest := rest - {e};
      if edges[e].relation == relation && Live(edges[e]) {
        pushed := pushed + [edges[e].to];
      }
    }
  }

  /** The search from the target answers yes exactly when the target already reaches the source. */
  method ClosesCycle(edges: Edges, outgoing: Buckets<NodeId, EdgeId>, relation: Relation, from: NodeId, to: NodeId)
    returns (closes: bool)
    requires Files(outgoing, Pairs(edges, FromSet))
    ensures closes <==> WouldCycle(edges, relation, from, to)
  {
    hide Files, Pairs, LiveArcs, Targets, Reaches;
    if !MustStayAcyclic(relation) {
      return false;
    }
    ghost var arcs := LiveArcs(edges, relation);
    ReachesSelf(arcs, to);
    if from == to {
      return true;
    }
    ghost var universe := {to} + ArcEnds(arcs);
    var stack: seq<NodeId>, visited: set<NodeId> := [to], {};
    while stack != []
      invariant forall x :: x in stack ==> Reaches(arcs, to, x) && x in universe
      invariant visited <= universe && from !in visited
      invariant to in visited || to in stack
      invariant forall x, y :: x in visited && (x, y) in arcs ==> y in visited || y in stack
      decreases |universe - visited|, |stack|
    {
      var current := stack[|stack| - 1];
      ghost var before := stack;
      stack := stack[..|stack| - 1];
      assert forall x :: x in before ==> x in stack || x == current;
      if current == from {
        return true;
      }
      if current in visited {
        continue;
      }
      Shrinks(universe, visited, current);
      visited := visited + {current};
      ghost var kept := stack;
      stack := PushTargets(edges, outgoing, relation, current, stack);
      TargetsAreArcs(edges, relation, current);
      forall x | x in stack
        ensures Reaches(arcs, to, x) && x in universe
      {
        if x !in kept {
          ReachesStep(arcs, to, current, x);
          ArcEndsHold(arcs, current, x);
        }
      }
    }
    NotReached(arcs, visited, to, from);
    closes := false;
  }

  ghost function ArcEnds(arcs: Arcs<NodeId>): set<NodeId> {
    set a | a in arcs :: a.1
  }

  lemma ArcEndsHold(arcs: Arcs<NodeId>, x: NodeId, y: NodeId)
    requires (x, y) in arcs
    ensures y in ArcEnds(arcs)
  {
    assert (x, y).1 == y;
  }

  lemma Shrinks(universe: set<NodeId>, visited: set<NodeId>, n: NodeId)
    requires n in universe && n !in visited
    ensures |universe - (visited + {n})| < |universe - visited|
  {
    assert universe - visited == (universe - (visited + {n})) + {n};
  }

  lemma NotReached(arcs: Arcs<NodeId>, closed: set<NodeId>, a: NodeId, b: NodeId)
    requires a in closed && b !in closed && forall x, y :: x in closed && (x, y) in arcs ==> y in closed
    ensures !Reaches(arcs, a, b)
  {
    if Reaches(arcs, a, b) {
      var n: nat :| Walk(arcs, a, b, n);
      ClosedHoldsWalk(arcs, closed, a, b, n);
    }
  }
}
