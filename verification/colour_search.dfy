/** The three-colour search that looks for a directed cycle in a whole relation class. */
module ColourSearch {
  import opened Types
  import opened Paths
  import opened Graphs

  type Adjacency = map<NodeId, seq<NodeId>>

  /** White nodes are the ones without a mark. */
  datatype Mark = Grey | Black

  type Marks = map<NodeId, Mark>

  /** A node on the path being explored, with the number of its targets already looked at. */
  datatype Frame = Frame(node: NodeId, looked: nat)

  function Next(adjacency: Adjacency, n: NodeId): seq<NodeId> {
    if n in adjacency then adjacency[n] else []
  }

  /** The lists hold exactly the arcs, in any order and possibly more than once. */
  ghost predicate Lists(adjacency: Adjacency, arcs: Arcs<NodeId>) {
    forall x, y :: y in Next(adjacency, x) <==> (x, y) in arcs
  }

  // ---- The path being explored ----------------------------------------------------------

  ghost predicate IsPath(arcs: Arcs<NodeId>, path: seq<Frame>) {
    forall i :: 0 < i < |path| ==> (path[i - 1].node, path[i].node) in arcs
  }

  /** The grey nodes are the ones on the path, each there once. */
  ghost predicate GreyIsPath(marks: Marks, path: seq<Frame>) {
    && (forall i :: 0 <= i < |path| ==> path[i].node in marks && marks[path[i].node] == Grey)
    && (forall i, j :: 0 <= i < j < |path| ==> path[i].node != path[j].node)
    && (forall x :: x in marks && marks[x] == Grey ==> exists i :: 0 <= i < |path| && path[i].node == x)
  }

  ghost predicate Bounded(adjacency: Adjacency, path: seq<Frame>) {
    forall i :: 0 <= i < |path| ==> path[i].looked <= |Next(adjacency, path[i].node)|
  }

  lemma {:induction false} PathReaches(arcs: Arcs<NodeId>, path: seq<Frame>, i: nat, j: nat)
    requires IsPath(arcs, path) && i <= j < |path|
    ensures Walk(arcs, path[i].node, path[j].node, j - i)
    decreases j - i
  {
    if i < j {
      PathReaches(arcs, path, i, j - 1);
      WalkOne(arcs, path[j - 1].node, path[j].node);
      WalkAppend(arcs, path[i].node, path[j - 1].node, j - 1 - i, path[j].node, 1);
    }
  }

  ghost predicate OnCycle(arcs: Arcs<NodeId>, n: NodeId) {
    exists k: nat :: k > 0 && Walk(arcs, n, n, k)
  }

  /** An arc from the end of the path back to a grey node closes a cycle. */
  lemma GreyTargetClosesCycle(arcs: Arcs<NodeId>, marks: Marks, path: seq<Frame>, n: NodeId)
    requires IsPath(arcs, path) && GreyIsPath(marks, path) && path != []
    requires (path[|path| - 1].node, n) in arcs && n in marks && marks[n] == Grey
    ensures OnCycle(arcs, n)
  {
    var i :| 0 <= i < |path| && path[i].node == n;
    var last := |path| - 1;
    PathReaches(arcs, path, i, last);
    WalkOne(arcs, path[last].node, n);
    WalkAppend(arcs, n, path[last].node, last - i, n, 1);
  }

  // ---- Finished nodes ----------------------------------------------------------------------

  /** As long as no cycle was met, finished nodes are ranked by when
      they were finished, and arcs lead to earlier ones. */
  ghost predicate Ranked(adjacency: Adjacency, marks: Marks, rank: map<NodeId, nat>, tick: nat) {
    && (forall x :: x in rank <==> x in marks && marks[x] == Black)
    && (forall x :: x in rank ==> rank[x] < tick)
    && (forall x, y :: x in rank && y in Next(adjacency, x) ==> y in rank && rank[y] < rank[x])
  }

  /** The targets already looked at are finished, except the one the path goes on with. */
  ghost predicate LookedAt(adjacency: Adjacency, rank: map<NodeId, nat>, path: seq<Frame>)
    requires Bounded(adjacency, path)
  {
    forall i, k :: 0 <= i < |path| && 0 <= k < path[i].looked ==>
      Next(adjacency, path[i].node)[k] in rank
      || (i + 1 < |path| && Next(adjacency, path[i].node)[k] == path[i + 1].node)
  }

  /** What is left to look at along the path. */
  ghost function Work(adjacency: Adjacency, path: seq<Frame>): nat
    requires Bounded(adjacency, path)
  {
    if path == [] then 0
    else
      var last := path[|path| - 1];
      Work(adjacency, path[..|path| - 1]) + 1 + |Next(adjacency, last.node)| - last.looked
  }

  lemma FinishLast(adjacency: Adjacency, marks: Marks, rank: map<NodeId, nat>, tick: nat, path: seq<Frame>)
    requires path != [] && Bounded(adjacency, path) && GreyIsPath(marks, path)
    requires Ranked(adjacency, marks, rank, tick) && LookedAt(adjacency, rank, path)
    requires path[|path| - 1].looked == |Next(adjacency, path[|path| - 1].node)|
    ensures var x := path[|path| - 1].node;
            && Ranked(adjacency, marks[x := Black], rank[x := tick], tick + 1)
            && LookedAt(adjacency, rank[x := tick], path[..|path| - 1])
  {
    hide Ranked, LookedAt, Bounded;
    LastTargetsRanked(adjacency, rank, path);
    LastIsGrey(marks, path);
    FinishRanked(adjacency, marks, rank, tick, path[|path| - 1].node);
    FinishLooked(adjacency, rank, tick, path);
  }

  lemma LastTargetsRanked(adjacency: Adjacency, rank: map<NodeId, nat>, path: seq<Frame>)
    requires path != [] && Bounded(adjacency, path) && LookedAt(adjacency, rank, path)
    requires path[|path| - 1].looked == |Next(adjacency, path[|path| - 1].node)|
    ensures forall y :: y in Next(adjacency, path[|path| - 1].node) ==> y in rank
  {
    var x := path[|path| - 1].node;
    forall y | y in Next(adjacency, x)
      ensures y in rank
    {
      var k :| 0 <= k < |Next(adjacency, x)| && Next(adjacency, x)[k] == y;
    }
  }

  lemma FinishRanked(adjacency: Adjacency, marks: Marks, rank: map<NodeId, nat>, tick: nat, x: NodeId)
    requires Ranked(adjacency, marks, rank, tick) && x in marks && marks[x] == Grey
    requires forall y :: y in Next(adjacency, x) ==> y in rank
    ensures Ranked(adjacency, marks[x := Black], rank[x := tick], tick + 1)
  {
    hide Next;
    var after := rank[x := tick];
    forall a, b | a in after && b in Next(adjacency, a)
      ensures b in after && after[b] < after[a]
    {
      assert x !in rank;
    }
  }

  lemma FinishLooked(adjacency: Adjacency, rank: map<NodeId, nat>, tick: nat, path: seq<Frame>)
    requires path != [] && Bounded(adjacency, path) && LookedAt(adjacency, rank, path)
    ensures Bounded(adjacency, path[..|path| - 1])
    ensures LookedAt(adjacency, rank[path[|path| - 1].node := tick], path[..|path| - 1])
  {
    hide Next;
    var last := |path| - 1;
    var shorter, after := path[..last], rank[path[last].node := tick];
    assert Bounded(adjacency, shorter);
    forall i, k | 0 <= i < |shorter| && 0 <= k < shorter[i].looked
      ensures Next(adjacency, shorter[i].node)[k] in after
              || (i + 1 < |shorter| && Next(adjacency, shorter[i].node)[k] == shorter[i + 1].node)
    {
      assert shorter[i] == path[i];
      assert Next(adjacency, path[i].node)[k] in rank || Next(adjacency, path[i].node)[k] == path[i + 1].node;
    }
  }

  lemma FinishGrey(marks: Marks, path: seq<Frame>)
    requires path != [] && GreyIsPath(marks, path)
    ensures GreyIsPath(marks[path[|path| - 1].node := Black], path[..|path| - 1])
  {
    var after, shorter := marks[path[|path| - 1].node := Black], path[..|path| - 1];
    forall y | y in after && after[y] == Grey
      ensures exists i :: 0 <= i < |shorter| && shorter[i].node == y
    {
      var i :| 0 <= i < |path| && path[i].node == y;
      assert shorter[i].node == y;
    }
  }

  lemma ExtendGrey(marks: Marks, path: seq<Frame>, n: NodeId)
    requires GreyIsPath(marks, path) && n !in marks
    ensures GreyIsPath(marks[n := Grey], path + [Frame(n, 0)])
  {
    var after, longer := marks[n := Grey], path + [Frame(n, 0)];
    forall y | y in after && after[y] == Grey
      ensures exists i :: 0 <= i < |longer| && longer[i].node == y
    {
      if y == n {
        assert longer[|path|].node == n;
      } else {
        var i :| 0 <= i < |path| && path[i].node == y;
        assert longer[i].node == y;
      }
    }
  }

  /** Looking at one more target of the last node on the path. */
  function Looked(path: seq<Frame>): seq<Frame>
    requires path != []
  {
    var last := |path| - 1;
    path[last := Frame(path[last].node, path[last].looked + 1)]
  }

  lemma LookedGrey(arcs: Arcs<NodeId>, marks: Marks, path: seq<Frame>)
    requires path != [] && GreyIsPath(marks, path) && IsPath(arcs, path)
    ensures GreyIsPath(marks, Looked(path)) && IsPath(arcs, Looked(path))
  {
    var after := Looked(path);
    assert forall i :: 0 <= i < |path| ==> after[i].node == path[i].node;
    forall x | x in marks && marks[x] == Grey
      ensures exists i :: 0 <= i < |after| && after[i].node == x
    {
      var i :| 0 <= i < |path| && path[i].node == x;
      assert after[i].node == x;
    }
  }

  lemma LookedWork(adjacency: Adjacency, path: seq<Frame>)
    requires path != [] && Bounded(adjacency, path)
    requires path[|path| - 1].looked < |Next(adjacency, path[|path| - 1].node)|
    ensures Bounded(adjacency, Looked(path)) && Work(adjacency, Looked(path)) < Work(adjacency, path)
  {
    assert Looked(path)[..|path| - 1] == path[..|path| - 1];
  }

  lemma LookedRanks(adjacency: Adjacency, rank: map<NodeId, nat>, path: seq<Frame>)
    requires path != [] && Bounded(adjacency, path) && LookedAt(adjacency, rank, path)
    requires path[|path| - 1].looked < |Next(adjacency, path[|path| - 1].node)|
    requires Next(adjacency, path[|path| - 1].node)[path[|path| - 1].looked] in rank
    ensures Bounded(adjacency, Looked(path)) && LookedAt(adjacency, rank, Looked(path))
  {
    var after := Looked(path);
    assert forall i :: 0 <= i < |path| ==> after[i].node == path[i].node;
    assert forall i :: 0 <= i < |path| - 1 ==> after[i] == path[i];
  }

  lemma ExtendRanks(adjacency: Adjacency, rank: map<NodeId, nat>, path: seq<Frame>)
    requires path != [] && Bounded(adjacency, path) && LookedAt(adjacency, rank, path)
    requires path[|path| - 1].looked < |Next(adjacency, path[|path| - 1].node)|
    ensures var longer := Looked(path) + [Frame(Next(adjacency, path[|path| - 1].node)[path[|path| - 1].looked], 0)];
            Bounded(adjacency, longer) && LookedAt(adjacency, rank, longer)
  {
    hide Next;
    var n := Next(adjacency, path[|path| - 1].node)[path[|path| - 1].looked];
    var longer := Looked(path) + [Frame(n, 0)];
    forall i | 0 <= i < |longer|
      ensures longer[i] == if i < |path| - 1 then path[i]
                           else if i < |path| then Frame(path[i].node, path[i].looked + 1)
                           else Frame(n, 0)
    {
    }
    forall i, k | 0 <= i < |longer| && 0 <= k < longer[i].looked
      ensures Next(adjacency, longer[i].node)[k] in rank
              || (i + 1 < |longer| && Next(adjacency, longer[i].node)[k] == longer[i + 1].node)
    {
      if i < |path| && k < path[i].looked {
        assert Next(adjacency, path[i].node)[k] in rank
               || (i + 1 < |path| && Next(adjacency, path[i].node)[k] == path[i + 1].node);
      }
    }
  }

  // ---- The search --------------------------------------------------------------------------

  predicate AllBlack(marks: Marks) {
    forall x :: x in marks ==> marks[x] == Black
  }

  ghost predicate Cyclic(arcs: Arcs<NodeId>, found: seq<NodeId>) {
    forall x :: x in found ==> OnCycle(arcs, x)
  }

  /** Explore everything a white root leads to, noting each arc that runs back into the path. */
  method Explore(adjacency: Adjacency, ghost arcs: Arcs<NodeId>, ghost universe: set<NodeId>, root: NodeId,
                 marks0: Marks, found0: seq<NodeId>, ghost rank0: map<NodeId, nat>, ghost tick0: nat)
    returns (marks: Marks, found: seq<NodeId>, ghost rank: map<NodeId, nat>, ghost tick: nat)
    requires Lists(adjacency, arcs) && root in universe && root !in marks0 && marks0.Keys <= universe
    requires forall x, y :: (x, y) in arcs ==> y in universe
    requires AllBlack(marks0) && Cyclic(arcs, found0)
    requires found0 == [] ==> Ranked(adjacency, marks0, rank0, tick0)
    ensures AllBlack(marks) && Cyclic(arcs, found) && marks0.Keys + {root} <= marks.Keys <= universe
    ensures found0 <= found && (found == [] ==> Ranked(adjacency, marks, rank, tick))
  {
    hide Work, OnCycle, Ranked, LookedAt, GreyIsPath, IsPath;
    marks, found, rank, tick := marks0, found0, rank0, tick0;
    var path: seq<Frame> := [];
    StartGrey(marks, root, arcs, adjacency, rank);
    RankedIgnoresGrey(adjacency, marks, rank, tick, root, found);
    marks, path := marks[root := Grey], [Frame(root, 0)];
    while path != []
      invariant marks0.Keys + {root} <= marks.Keys <= universe
      invariant found0 <= found && Cyclic(arcs, found)
      invariant IsPath(arcs, path) && GreyIsPath(marks, path) && Bounded(adjacency, path)
      invariant found == [] ==> Ranked(adjacency, marks, rank, tick) && LookedAt(adjacency, rank, path)
      decreases |universe - marks.Keys|, Work(adjacency, path)
    {
      var frame := path[|path| - 1];
      LastIsGrey(marks, path);
      if frame.looked >= |Next(adjacency, frame.node)| {
        FinishGrey(marks, path);
        ShorterPath(arcs, adjacency, path);
        if found == [] {
          FinishLast(adjacency, marks, rank, tick, path);
        }
        marks := marks[frame.node := Black];
        rank, tick := rank[frame.node := tick], tick + 1;
        path := path[..|path| - 1];
        continue;
      }
      var next := Next(adjacency, frame.node)[frame.looked];
      assert (frame.node, next) in arcs;
      LookedGrey(arcs, marks, path);
      LookedWork(adjacency, path);
      if next in marks && marks[next] == Grey {
        GreyTargetClosesCycle(arcs, marks, path, next);
        found := found + [next];
        path := Looked(path);
      } else if next in marks {
        if found == [] {
          BlackIsRanked(adjacency, marks, rank, tick, next);
          LookedRanks(adjacency, rank, path);
        }
        path := Looked(path);
      } else {
        ExtendGrey(marks, Looked(path), next);
        LongerPath(arcs, adjacency, path, next);
        if found == [] {
          ExtendRanks(adjacency, rank, path);
          RankedIgnoresGrey(adjacency, marks, rank, tick, next, found);
        }
        Marked(universe, marks, next);
        marks := marks[next := Grey];
        path := Looked(path) + [Frame(next, 0)];
      }
    }
    NoPathAllBlack(marks);
  }

  lemma StartGrey(marks: Marks, root: NodeId, arcs: Arcs<NodeId>, adjacency: Adjacency, rank: map<NodeId, nat>)
    requires AllBlack(marks) && root !in marks
    ensures GreyIsPath(marks[root := Grey], [Frame(root, 0)]) && IsPath(arcs, [Frame(root, 0)])
    ensures Bounded(adjacency, [Frame(root, 0)]) && LookedAt(adjacency, rank, [Frame(root, 0)])
  {
    assert [Frame(root, 0)][0].node == root;
  }

  lemma RankedIgnoresGrey(adjacency: Adjacency, marks: Marks, rank: map<NodeId, nat>, tick: nat, n: NodeId,
                          found: seq<NodeId>)
    requires n !in marks && (found == [] ==> Ranked(adjacency, marks, rank, tick))
    ensures found == [] ==> Ranked(adjacency, marks[n := Grey], rank, tick)
  {
  }

  lemma BlackIsRanked(adjacency: Adjacency, marks: Marks, rank: map<NodeId, nat>, tick: nat, n: NodeId)
    requires Ranked(adjacency, marks, rank, tick) && n in marks && marks[n] == Black
    ensures n in rank
  {
  }

  lemma LastIsGrey(marks: Marks, path: seq<Frame>)
    requires GreyIsPath(marks, path) && path != []
    ensures path[|path| - 1].node in marks
  {
  }

  lemma ShorterPath(arcs: Arcs<NodeId>, adjacency: Adjacency, path: seq<Frame>)
    requires IsPath(arcs, path) && Bounded(adjacency, path) && path != []
    ensures IsPath(arcs, path[..|path| - 1]) && Bounded(adjacency, path[..|path| - 1])
    ensures Work(adjacency, path[..|path| - 1]) < Work(adjacency, path)
  {
  }

  lemma LongerPath(arcs: Arcs<NodeId>, adjacency: Adjacency, path: seq<Frame>, n: NodeId)
    requires IsPath(arcs, path) && Bounded(adjacency, path) && path != []
    requires path[|path| - 1].looked < |Next(adjacency, path[|path| - 1].node)| && (path[|path| - 1].node, n) in arcs
    ensures IsPath(arcs, Looked(path) + [Frame(n, 0)]) && Bounded(adjacency, Looked(path) + [Frame(n, 0)])
  {
    var longer := Looked(path) + [Frame(n, 0)];
    assert forall i :: 0 <= i < |path| ==> longer[i].node == path[i].node;
  }

  lemma Marked(universe: set<NodeId>, marks: Marks, n: NodeId)
    requires n in universe && n !in marks
    ensures |universe - marks[n := Grey].Keys| < |universe - marks.Keys|
  {
    assert universe - marks.Keys == (universe - marks[n := Grey].Keys) + {n};
  }

  lemma NoPathAllBlack(marks: Marks)
    requires GreyIsPath(marks, [])
    ensures AllBlack(marks)
  {
  }

  /** Search from every node with targets, in any order: something is reported
      exactly when there is a cycle, and everything reported lies on one. */
  method FindCycles(adjacency: Adjacency, ghost arcs: Arcs<NodeId>) returns (found: seq<NodeId>)
    requires Lists(adjacency, arcs)
    ensures found != [] <==> !Acyclic(arcs)
    ensures forall x :: x in found ==> OnCycle(arcs, x)
  {
    hide OnCycle, Ranked, Acyclic, Lists;
    ghost var universe := adjacency.Keys + set a | a in arcs :: a.1;
    assert forall x, y :: (x, y) in arcs ==> (x, y).1 in universe;
    var marks: Marks := map[];
    ghost var rank: map<NodeId, nat>, tick: nat := map[], 0;
    found := [];
    NothingRanked(adjacency);
    var rest := adjacency.Keys;
    while rest != {}
      invariant rest <= adjacency.Keys && adjacency.Keys - rest <= marks.Keys <= universe
      invariant AllBlack(marks) && Cyclic(arcs, found)
      invariant found == [] ==> Ranked(adjacency, marks, rank, tick)
      decreases |rest|
    {
      var root :| root in rest;
      rest := rest - {root};
      if root !in marks {
        marks, found, rank, tick := Explore(adjacency, arcs, universe, root, marks, found, rank, tick);
      }
    }
    if found == [] {
      AllRanked(adjacency, arcs, marks, rank, tick);
    } else {
      CyclicIsNotAcyclic(arcs, found[0]);
    }
  }

  lemma NothingRanked(adjacency: Adjacency)
    ensures Ranked(adjacency, map[], map[], 0)
  {
  }

  lemma AllRanked(adjacency: Adjacency, arcs: Arcs<NodeId>, marks: Marks, rank: map<NodeId, nat>, tick: nat)
    requires Lists(adjacency, arcs) && AllBlack(marks) && adjacency.Keys <= marks.Keys
    requires Ranked(adjacency, marks, rank, tick)
    ensures Acyclic(arcs)
  {
    forall x, y | (x, y) in arcs
      ensures x in rank && y in rank && rank[y] < rank[x]
    {
      assert y in Next(adjacency, x);
    }
    RankedIsAcyclic(arcs, rank);
  }

  lemma CyclicIsNotAcyclic(arcs: Arcs<NodeId>, n: NodeId)
    requires OnCycle(arcs, n)
    ensures !Acyclic(arcs)
  {
  }

  // ---- The adjacency of one relation class ------------------------------------------------

  /** Gather the targets of every live edge of the relation, visiting the edges in any order. */
  method AdjacencyOf(edges: Edges, relation: Relation) returns (adjacency: Adjacency)
    ensures Lists(adjacency, LiveArcs(edges, relation))
  {
    adjacency := map[];
    var rest := edges.Keys;
    while rest != {}
      invariant rest <= edges.Keys
      invariant forall x, y ::
          y in Next(adjacency, x) <==> exists e :: Gathered(edges, edges.Keys - rest, relation, e, x, y)
      decreases |rest|
    {
      var e :| e in rest;
      ghost var before, done := adjacency, edges.Keys - rest;
      if edges[e].relation == relation && Live(edges[e]) {
        adjacency := adjacency[edges[e].from := Next(adjacency, edges[e].from) + [edges[e].to]];
      }
      GatheredOne(edges, done, relation, e, before, adjacency);
      rest := rest - {e};
      assert edges.Keys - rest == done + {e};
    }
    forall x, y
      ensures y in Next(adjacency, x) <==> (x, y) in LiveArcs(edges, relation)
    {
      if (x, y) in LiveArcs(edges, relation) {
        var e :| e in edges && edges[e].relation == relation && Live(edges[e])
            && (x, y) == (edges[e].from, edges[e].to);
        assert Gathered(edges, edges.Keys, relation, e, x, y);
      }
      assert edges.Keys - rest == edges.Keys;
    }
  }

  ghost predicate Gathered(edges: Edges, done: set<EdgeId>, relation: Relation, e: EdgeId, x: NodeId, y: NodeId)
    requires done <= edges.Keys
  {
    e in done && edges[e].relation == relation && Live(edges[e]) && edges[e].from == x && edges[e].to == y
  }

  lemma GatheredOne(edges: Edges, done: set<EdgeId>, relation: Relation, e: EdgeId, before: Adjacency, after: Adjacency)
    requires done <= edges.Keys && e in edges
    requires forall x, y :: y in Next(before, x) <==> exists d :: Gathered(edges, done, relation, d, x, y)
    requires after == if edges[e].relation == relation && Live(edges[e])
                      then before[edges[e].from := Next(before, edges[e].from) + [edges[e].to]] else before
    ensures forall x, y :: y in Next(after, x) <==> exists d :: Gathered(edges, done + {e}, relation, d, x, y)
  {
    forall x, y
      ensures y in Next(after, x) <==> exists d :: Gathered(edges, done + {e}, relation, d, x, y)
    {
      assert y in Next(after, x) <==> y in Next(before, x) || Gathered(edges, done + {e}, relation, e, x, y) by {
        if edges[e].from == x && after != before {
          assert Next(after, x) == Next(before, x) + [edges[e].to];
        }
      }
      if exists d :: Gathered(edges, done, relation, d, x, y) {
        var d :| Gathered(edges, done, relation, d, x, y);
        assert Gathered(edges, done + {e}, relation, d, x, y);
      }
      if exists d :: Gathered(edges, done + {e}, relation, d, x, y) {
        var d :| Gathered(edges, done + {e}, relation, d, x, y);
        assert d != e ==> Gathered(edges, done, relation, d, x, y);
      }
    }
  }

  /** Whole-graph validation finds a cycle in a relation class exactly when its live relationships contain one. */
  method ReportCycles(edges: Edges, relation: Relation) returns (found: seq<NodeId>)
    ensures found != [] <==> !Acyclic(LiveArcs(edges, relation))
    ensures forall x :: x in found ==> OnCycle(LiveArcs(edges, relation), x)
  {
    hide *;
    var adjacency := AdjacencyOf(edges, relation);
    found := FindCycles(adjacency, LiveArcs(edges, relation));
  }
}
