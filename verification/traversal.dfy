/** Bounded breadth-first traversal of the topology. */
module Traversal {
  import opened Types
  import opened Paths
  import opened Graphs
  import opened Indexes
  import opened GraphIndex
  import opened Cycles

  datatype Kind =
    Neighbors | Ancestors | Descendants | ConnectedComponent | PhysicalAttachmentChain | LogicalDependencyChain

  datatype Request = Request(
    kind: Kind, origin: NodeId, relation: Option<Relation>, layer: Option<Layer>, includeNonCurrent: bool,
    maxDepth: nat, maxVisited: nat)

  datatype Step = Step(node: NodeId, depth: nat, via: EdgeId, relation: Relation)

  predicate RelationIn(kind: Kind, r: Relation) {
    match kind
    case Neighbors => true
    case ConnectedComponent => true
    case Ancestors => r == Contains || r == MemberOf || r == HostedBy || r == FabricMembership
    case Descendants => r == Contains || r == MemberOf || r == HostedBy || r == FabricMembership
    case PhysicalAttachmentChain =>
      r == AttachedTo || r == PresentsEndpoint || r == ConnectedTo || r == UplinkTo || r == DownlinkTo || r == HostedBy
    case LogicalDependencyChain => r == BackedBy || r == TunneledOver
  }

  /** Where an edge leads from a node, if it leads away from it at all for this kind of traversal. */
  function NextNode(kind: Kind, e: Edge, current: NodeId): Option<NodeId> {
    match kind
    case Ancestors =>
      if e.relation == Contains then if e.to == current then Some(e.from) else None
      else if e.relation == MemberOf || e.relation == HostedBy || e.relation == FabricMembership then
        if e.from == current then Some(e.to) else None
      else None
    case Descendants =>
      if e.relation == Contains then if e.from == current then Some(e.to) else None
      else if e.relation == MemberOf || e.relation == HostedBy || e.relation == FabricMembership then
        if e.to == current then Some(e.from) else None
      else None
    case LogicalDependencyChain => if e.from == current then Some(e.to) else None
    case _ =>
      if e.from == current && e.to != current then Some(e.to)
      else if e.to == current && e.from != current then Some(e.from)
      else None
  }

  predicate Admitted(r: Request, e: Edge) {
    && Live(e) && (e.lifecycle == Current || r.includeNonCurrent)
    && (r.relation.Some? ==> e.relation == r.relation.value)
    && (r.layer.Some? ==> e.layer == r.layer.value)
    && RelationIn(r.kind, e.relation)
  }

  // ---- What a traversal follows ---------------------------------------------------------

  /** The request leaves the relationship in: it is live, current unless asked otherwise, and of the asked relation
      and layer. */
  ghost predicate Eligible(r: Request, e: Edge) {
    && e.lifecycle !in {Retired, Superseded} && (!r.includeNonCurrent ==> e.lifecycle == Current)
    && r.relation in {None, Some(e.relation)} && r.layer in {None, Some(e.layer)}
  }

  /** Which way, if at all, this kind of traversal goes along a stored relationship: up from a part to what contains
      or hosts it, down from there, from a logical relationship to what it rests on, or both ways. */
  ghost function ArcsOf(kind: Kind, e: Edge): Arcs<NodeId> {
    var along, against := (e.from, e.to), (e.to, e.from);
    var both := {along, against};
    match kind
    case Neighbors => both
    case ConnectedComponent => both
    case Ancestors =>
      if e.relation == Contains then {against}
      else if e.relation in {MemberOf, HostedBy, FabricMembership} then {along}
      else {}
    case Descendants =>
      if e.relation == Contains then {along}
      else if e.relation in {MemberOf, HostedBy, FabricMembership} then {against}
      else {}
    case PhysicalAttachmentChain =>
      if e.relation in {AttachedTo, PresentsEndpoint, ConnectedTo, UplinkTo, DownlinkTo, HostedBy} then both else {}
    case LogicalDependencyChain => if e.relation in {BackedBy, TunneledOver} then {along} else {}
  }

  /** The relationship takes the traversal from one node to another. */
  ghost predicate Follows(r: Request, e: Edge, from: NodeId, to: NodeId) {
    Eligible(r, e) && from != to && (from, to) in ArcsOf(r.kind, e)
  }

  /** The filters and the choice of the next node follow exactly those arcs. */
  lemma NextIsFollowed(r: Request, e: Edge, from: NodeId, to: NodeId)
    ensures Follows(r, e, from, to) <==> Admitted(r, e) && NextNode(r.kind, e, from) == Some(to) && to != from
  {
  }

  /** Helper: a relationship only ever leads between its own two endpoints. */
  lemma FollowsTouches(r: Request, e: Edge, from: NodeId, to: NodeId)
    requires Follows(r, e, from, to)
    ensures Touches(e, from) && Touches(e, to)
  {
  }

  /** Every step the request allows, as arcs. */
  ghost function Steps(edges: Edges, r: Request): Arcs<NodeId> {
    set e, x, y | e in edges && x in EndSet(edges[e]) && y in EndSet(edges[e]) && Follows(r, edges[e], x, y) :: (x, y)
  }

  lemma StepsAreFollowed(edges: Edges, r: Request, x: NodeId, y: NodeId)
    ensures (x, y) in Steps(edges, r) <==> exists e :: e in edges && Follows(r, edges[e], x, y)
  {
    if exists e :: e in edges && Follows(r, edges[e], x, y) {
      var e :| e in edges && Follows(r, edges[e], x, y);
      FollowsTouches(r, edges[e], x, y);
    }
  }

  // ---- Up and down ----------------------------------------------------------------------

  /** The kind of traversal that takes every step the other way. */
  function Opposite(kind: Kind): Kind
    requires kind != LogicalDependencyChain
  {
    match kind
    case Ancestors => Descendants
    case Descendants => Ancestors
    case _ => kind
  }

  lemma StepsOpposite(edges: Edges, r: Request, x: NodeId, y: NodeId)
    requires r.kind != LogicalDependencyChain
    ensures (x, y) in Steps(edges, r) <==> (y, x) in Steps(edges, r.(kind := Opposite(r.kind)))
  {
    hide Eligible, Steps;
    var back := r.(kind := Opposite(r.kind));
    StepsAreFollowed(edges, r, x, y);
    StepsAreFollowed(edges, back, y, x);
    forall e | e in edges
      ensures Follows(r, edges[e], x, y) <==> Follows(back, edges[e], y, x)
    {
      SameEligible(r, edges[e], back.kind);
    }
  }

  lemma SameEligible(r: Request, e: Edge, kind: Kind)
    ensures Eligible(r, e) <==> Eligible(r.(kind := kind), e)
  {
  }

  lemma {:induction false} WalkBack(edges: Edges, r: Request, a: NodeId, b: NodeId, n: nat)
    requires r.kind != LogicalDependencyChain && Walk(Steps(edges, r), a, b, n)
    ensures Walk(Steps(edges, r.(kind := Opposite(r.kind))), b, a, n)
    decreases n
  {
    hide Steps, Opposite;
    if n > 0 {
      var back := Steps(edges, r.(kind := Opposite(r.kind)));
      var c :| (a, c) in Steps(edges, r) && Walk(Steps(edges, r), c, b, n - 1);
      WalkBack(edges, r, c, b, n - 1);
      StepsOpposite(edges, r, a, c);
      WalkOne(back, c, a);
      WalkAppend(back, b, c, n - 1, a, 1);
    }
  }

  /** A node is an ancestor of another, so many levels up, exactly when that one is its descendant as many levels
      down; and whatever is connected or attached is so from either side. */
  lemma DistanceBothWays(edges: Edges, r: Request, a: NodeId, b: NodeId, n: nat)
    requires r.kind != LogicalDependencyChain
    ensures Distance(Steps(edges, r), a, b, n) <==> Distance(Steps(edges, r.(kind := Opposite(r.kind))), b, a, n)
  {
    hide Steps, Walk;
    var back := r.(kind := Opposite(r.kind));
    assert back.(kind := Opposite(back.kind)) == r;
    forall m: nat
      ensures Walk(Steps(edges, r), a, b, m) <==> Walk(Steps(edges, back), b, a, m)
    {
      if Walk(Steps(edges, r), a, b, m) {
        WalkBack(edges, r, a, b, m);
      }
      if Walk(Steps(edges, back), b, a, m) {
        WalkBack(edges, back, b, a, m);
      }
    }
  }

  // ---- Shortest distance ----------------------------------------------------------------

  ghost predicate Near(arcs: Arcs<NodeId>, a: NodeId, b: NodeId, n: nat) {
    exists m: nat :: m <= n && Walk(arcs, a, b, m)
  }

  /** The shortest walk has exactly this many steps. */
  ghost predicate Distance(arcs: Arcs<NodeId>, a: NodeId, b: NodeId, n: nat) {
    Walk(arcs, a, b, n) && forall m: nat :: m < n ==> !Walk(arcs, a, b, m)
  }

  lemma {:induction false} WalkLast(arcs: Arcs<NodeId>, a: NodeId, b: NodeId, n: nat) returns (c: NodeId)
    requires n > 0 && Walk(arcs, a, b, n)
    ensures Walk(arcs, a, c, n - 1) && (c, b) in arcs
    decreases n
  {
    var d :| (a, d) in arcs && Walk(arcs, d, b, n - 1);
    if n == 1 {
      c := a;
    } else {
      c := WalkLast(arcs, d, b, n - 1);
      WalkOne(arcs, a, d);
      WalkAppend(arcs, a, d, 1, c, n - 2);
    }
  }

  lemma OneStepFurther(arcs: Arcs<NodeId>, a: NodeId, x: NodeId, y: NodeId, n: nat)
    requires Distance(arcs, a, x, n) && (x, y) in arcs && !Near(arcs, a, y, n)
    ensures Distance(arcs, a, y, n + 1)
  {
    WalkOne(arcs, x, y);
    WalkAppend(arcs, a, x, n, y, 1);
  }

  lemma NearIsDistance(arcs: Arcs<NodeId>, a: NodeId, b: NodeId, n: nat)
    requires Near(arcs, a, b, n)
    ensures exists m: nat :: m <= n && Distance(arcs, a, b, m)
  {
    if n > 0 && Near(arcs, a, b, n - 1) {
      NearIsDistance(arcs, a, b, n - 1);
    } else {
      assert Distance(arcs, a, b, n);
    }
  }

  // ---- What the search knows ---------------------------------------------------------------

  type Depths = map<NodeId, nat>

  /** A node waiting to be expanded, with its depth. */
  datatype Waiting = Waiting(node: NodeId, depth: nat)

  ghost predicate Exact(arcs: Arcs<NodeId>, origin: NodeId, depths: Depths) {
    forall x :: x in depths ==> Distance(arcs, origin, x, depths[x])
  }

  /** Everything within this distance has been seen. */
  ghost predicate SeenUpTo(arcs: Arcs<NodeId>, origin: NodeId, seen: set<NodeId>, level: nat) {
    forall y :: Near(arcs, origin, y, level) ==> y in seen
  }

  ghost predicate QueueFits(queue: seq<Waiting>, depths: Depths, level: nat) {
    && (forall i :: 0 <= i < |queue| ==> queue[i].node in depths && depths[queue[i].node] == queue[i].depth)
    && (forall i :: 0 <= i < |queue| ==> level <= queue[i].depth <= level + 1)
    && (forall i, j :: 0 <= i < j < |queue| ==> queue[i].depth <= queue[j].depth)
  }

  predicate Waits(queue: seq<Waiting>, x: NodeId) {
    exists i :: 0 <= i < |queue| && queue[i].node == x
  }

  /** Whatever no longer waits, and was not at the depth limit, has had all its steps followed. */
  ghost predicate Followed(arcs: Arcs<NodeId>, queue: seq<Waiting>, depths: Depths, maxDepth: nat) {
    forall x, y :: x in depths && depths[x] < maxDepth && (x, y) in arcs && !Waits(queue, x) ==> y in depths
  }

  /** Each node is listed at most once, and a listed depth is the node's depth. */
  ghost predicate Listed(steps: seq<Step>, depths: Depths) {
    && (forall i :: 0 <= i < |steps| ==> steps[i].node in depths && depths[steps[i].node] == steps[i].depth)
    && (forall i, j :: 0 <= i < j < |steps| ==> steps[i].node != steps[j].node)
  }

  function NodesOf(steps: seq<Step>): set<NodeId> {
    set i | 0 <= i < |steps| :: steps[i].node
  }

  lemma {:induction false} DistinctCount(steps: seq<Step>)
    requires forall i, j :: 0 <= i < j < |steps| ==> steps[i].node != steps[j].node
    ensures |NodesOf(steps)| == |steps|
  {
    if steps != [] {
      var n := |steps| - 1;
      DistinctCount(steps[..n]);
      assert NodesOf(steps) == NodesOf(steps[..n]) + {steps[n].node};
    }
  }

  /** When the next node to expand lies one level further, the whole level behind it has been followed. */
  lemma NextLevelSeen(arcs: Arcs<NodeId>, origin: NodeId, queue: seq<Waiting>, depths: Depths, level: nat,
                      maxDepth: nat)
    requires Exact(arcs, origin, depths) && SeenUpTo(arcs, origin, depths.Keys, level) && level < maxDepth
    requires Followed(arcs, queue, depths, maxDepth)
    requires forall i :: 0 <= i < |queue| ==> queue[i].node in depths && depths[queue[i].node] > level
    ensures SeenUpTo(arcs, origin, depths.Keys, level + 1)
  {
    forall y | Near(arcs, origin, y, level + 1)
      ensures y in depths
    {
      if !Near(arcs, origin, y, level) {
        var m: nat :| m <= level + 1 && Walk(arcs, origin, y, m);
        var c := WalkLast(arcs, origin, y, m);
        assert Near(arcs, origin, c, level);
        assert c in depths && depths[c] <= level;
      }
    }
  }

  // ---- Expanding one node ------------------------------------------------------------------

  ghost predicate StepFrom(edges: Edges, r: Request, current: NodeId, depth: nat, s: Step) {
    && s.via in edges && Follows(r, edges[s.via], current, s.node)
    && s.depth == depth + 1 && s.relation == edges[s.via].relation
  }

  /** Follow every edge at the node, in any order, until the list of visited nodes is full. */
  method Expand(edges: Edges, bucket: set<EdgeId>, r: Request, current: NodeId, depth: nat, room: nat,
                visited: set<NodeId>)
    returns (added: seq<Step>, truncated: bool)
    requires forall e :: e in bucket ==> e in edges
    ensures forall i :: 0 <= i < |added| ==> StepFrom(edges, r, current, depth, added[i]) && added[i].node !in visited
    ensures forall i, j :: 0 <= i < j < |added| ==> added[i].node != added[j].node
    ensures |added| <= room
    ensures !truncated ==> forall e, y :: e in bucket && Follows(r, edges[e], current, y) ==>
        y in visited + NodesOf(added)
    ensures truncated ==> |added| == room
    ensures truncated ==>
              exists e, y :: e in bucket && Follows(r, edges[e], current, y) && y !in visited + NodesOf(added)
  {
    hide Admitted, NextNode, Follows;
    added, truncated := [], false;
    var rest := bucket;
    while rest != {}
      invariant rest <= bucket && |added| <= room
      invariant forall i :: 0 <= i < |added| ==>
          StepFrom(edges, r, current, depth, added[i]) && added[i].node !in visited
      invariant forall i, j :: 0 <= i < j < |added| ==> added[i].node != added[j].node
      invariant forall e, y :: e in bucket - rest && Follows(r, edges[e], current, y) ==> y in visited + NodesOf(added)
      decreases |rest|
    {
      var e :| e in rest;
      rest := rest - {e};
      var next := NextNode(r.kind, edges[e], current);
      assert forall y :: Follows(r, edges[e], current, y)
                         <==> Admitted(r, edges[e]) && next == Some(y) && y != current by {
        forall y { NextIsFollowed(r, edges[e], current, y); }
      }
      if !Admitted(r, edges[e]) || next.None? || next.value == current || next.value in visited + NodesOf(added) {
        continue;
      }
      if |added| >= room {
        truncated := true;
        return;
      }
      NodesOfMore(added, Step(next.value, depth + 1, e, edges[e].relation));
      added := added + [Step(next.value, depth + 1, e, edges[e].relation)];
    }
  }

  lemma NodesOfMore(steps: seq<Step>, s: Step)
    ensures NodesOf(steps + [s]) == NodesOf(steps) + {s.node}
    ensures forall i :: 0 <= i < |steps| ==> steps[i].node in NodesOf(steps)
  {
    var more := steps + [s];
    assert forall i :: 0 <= i < |steps| ==> more[i] == steps[i];
    assert more[|steps|] == s;
  }

  // ---- One step of the search ------------------------------------------------------------------

  function Deeper(depths: Depths, added: seq<Step>): Depths {
    map x | x in depths.Keys + NodesOf(added) :: if x in depths then depths[x] else DepthOf(added, x)
  }

  function DepthOf(added: seq<Step>, x: NodeId): nat {
    if added == [] then 0 else added[0].depth
  }

  function Queued(added: seq<Step>): (q: seq<Waiting>)
    ensures |q| == |added|
  {
    seq(|added|, i requires 0 <= i < |added| => Waiting(added[i].node, added[i].depth))
  }

  /** All that holds between two expansions. */
  ghost predicate Searching(edges: Edges, r: Request, queue: seq<Waiting>, depths: Depths, steps: seq<Step>, level: nat,
                            maxDepth: nat) {
    var arcs := Steps(edges, r);
    && r.origin in depths && depths[r.origin] == 0 && NodesOf(steps) == depths.Keys - {r.origin}
    && Exact(arcs, r.origin, depths) && SeenUpTo(arcs, r.origin, depths.Keys, level)
    && QueueFits(queue, depths, level) && Followed(arcs, queue, depths, maxDepth) && Listed(steps, depths)
    && (forall x :: x in depths ==> depths[x] <= level + 1 && depths[x] <= maxDepth)
  }

  lemma AddedIsExact(edges: Edges, r: Request, depths: Depths, current: NodeId, added: seq<Step>)
    requires current in depths && Exact(Steps(edges, r), r.origin, depths)
    requires SeenUpTo(Steps(edges, r), r.origin, depths.Keys, depths[current])
    requires forall i :: 0 <= i < |added| ==>
        StepFrom(edges, r, current, depths[current], added[i]) && added[i].node !in depths
    ensures Exact(Steps(edges, r), r.origin, Deeper(depths, added))
    ensures forall i :: 0 <= i < |added| ==> Deeper(depths, added)[added[i].node] == depths[current] + 1
  {
    hide Follows, Steps, Distance, Near;
    var arcs, after := Steps(edges, r), Deeper(depths, added);
    forall x | x in after
      ensures Distance(arcs, r.origin, x, after[x])
    {
      if x !in depths {
        var i :| 0 <= i < |added| && added[i].node == x;
        StepsAreFollowed(edges, r, current, x);
        OneStepFurther(arcs, r.origin, current, x, depths[current]);
      }
    }
    forall i | 0 <= i < |added|
      ensures after[added[i].node] == depths[current] + 1
    {
      assert added[i].node in NodesOf(added);
    }
  }

  /** The search may move on to the level of the node it expands next. */
  lemma LevelReached(edges: Edges, r: Request, queue: seq<Waiting>, depths: Depths, steps: seq<Step>, level: nat,
                     maxDepth: nat)
    requires Searching(edges, r, queue, depths, steps, level, maxDepth) && queue != []
    ensures Searching(edges, r, queue, depths, steps, queue[0].depth, maxDepth)
  {
    hide Steps, Exact, SeenUpTo, Followed, Listed;
    if queue[0].depth > level {
      NextLevelSeen(Steps(edges, r), r.origin, queue, depths, level, maxDepth);
    }
  }

  lemma WaitsAfterPop(queue: seq<Waiting>, x: NodeId)
    requires queue != [] && Waits(queue, x) && queue[0].node != x
    ensures Waits(queue[1..], x)
  {
    var i :| 0 <= i < |queue| && queue[i].node == x;
    assert queue[1..][i - 1].node == x;
  }

  lemma PoppedAtLimit(edges: Edges, r: Request, queue: seq<Waiting>, depths: Depths, steps: seq<Step>, maxDepth: nat)
    requires queue != [] && queue[0].depth >= maxDepth
    requires Searching(edges, r, queue, depths, steps, queue[0].depth, maxDepth)
    ensures Searching(edges, r, queue[1..], depths, steps, queue[0].depth, maxDepth)
  {
    hide Steps, Exact, SeenUpTo, Listed;
    var arcs := Steps(edges, r);
    forall x, y | x in depths && depths[x] < maxDepth && (x, y) in arcs && !Waits(queue[1..], x)
      ensures y in depths
    {
      if Waits(queue, x) {
        WaitsAfterPop(queue, x);
      }
    }
  }

  lemma GrownQueueFits(queue: seq<Waiting>, depths: Depths, added: seq<Step>)
    requires queue != [] && QueueFits(queue, depths, queue[0].depth)
    requires forall i :: 0 <= i < |added| ==> added[i].node !in depths && added[i].depth == queue[0].depth + 1
    ensures QueueFits(queue[1..] + Queued(added), Deeper(depths, added), queue[0].depth)
  {
    var more := queue[1..] + Queued(added);
    forall i | 0 <= i < |more|
      ensures more[i].node in Deeper(depths, added) && Deeper(depths, added)[more[i].node] == more[i].depth
      ensures queue[0].depth <= more[i].depth <= queue[0].depth + 1
      ensures i >= |queue| - 1 ==> more[i].depth == queue[0].depth + 1
      ensures i < |queue| - 1 ==> more[i] == queue[i + 1]
    {
      if i >= |queue| - 1 {
        var k := i - (|queue| - 1);
        assert more[i] == Waiting(added[k].node, added[k].depth) && added[k].node in NodesOf(added);
      }
    }
  }

  lemma WaitsGrown(queue: seq<Waiting>, added: seq<Step>)
    requires queue != []
    ensures forall x :: x in NodesOf(added) || (Waits(queue, x) && x != queue[0].node) ==>
        Waits(queue[1..] + Queued(added), x)
  {
    var more := queue[1..] + Queued(added);
    forall x | x in NodesOf(added) || (Waits(queue, x) && x != queue[0].node)
      ensures Waits(more, x)
    {
      if x in NodesOf(added) {
        var i :| 0 <= i < |added| && added[i].node == x;
        assert more[|queue| - 1 + i].node == x;
      } else {
        var i :| 0 <= i < |queue| && queue[i].node == x;
        assert more[i - 1].node == x;
      }
    }
  }

  lemma GrownFollowed(edges: Edges, r: Request, bucket: set<EdgeId>, queue: seq<Waiting>, depths: Depths,
                      added: seq<Step>, maxDepth: nat)
    requires queue != [] && Followed(Steps(edges, r), queue, depths, maxDepth)
    requires forall e :: e in bucket <==> e in edges && Touches(edges[e], queue[0].node)
    requires forall e, y :: e in bucket && Follows(r, edges[e], queue[0].node, y) ==> y in depths.Keys + NodesOf(added)
    ensures Followed(Steps(edges, r), queue[1..] + Queued(added), Deeper(depths, added), maxDepth)
  {
    hide Steps, Follows;
    var arcs, more, after := Steps(edges, r), queue[1..] + Queued(added), Deeper(depths, added);
    WaitsGrown(queue, added);
    forall x, y | x in after && after[x] < maxDepth && (x, y) in arcs && !Waits(more, x)
      ensures y in after
    {
      if x == queue[0].node {
        StepsAreFollowed(edges, r, x, y);
        var e :| e in edges && Follows(r, edges[e], x, y);
        FollowsTouches(r, edges[e], x, y);
      }
    }
  }

  lemma GrownListed(steps: seq<Step>, depths: Depths, added: seq<Step>, depth: nat)
    requires Listed(steps, depths) && forall i :: 0 <= i < |added| ==>
        added[i].node !in depths && added[i].depth == depth
    requires forall i, j :: 0 <= i < j < |added| ==> added[i].node != added[j].node
    ensures Listed(steps + added, Deeper(depths, added)) && NodesOf(steps + added) == NodesOf(steps) + NodesOf(added)
  {
    var all, after := steps + added, Deeper(depths, added);
    forall i | 0 <= i < |all|
      ensures all[i].node in after && after[all[i].node] == all[i].depth
      ensures all[i] == if i < |steps| then steps[i] else added[i - |steps|]
      ensures all[i].node in NodesOf(all)
    {
      if i >= |steps| {
        assert added[i - |steps|].node in NodesOf(added);
      }
    }
    forall i | 0 <= i < |steps|
      ensures steps[i].node in NodesOf(all)
    {
      assert all[i] == steps[i];
    }
    forall i | 0 <= i < |added|
      ensures added[i].node in NodesOf(all)
    {
      assert all[|steps| + i] == added[i];
    }
  }

  /** Expanding a node completely keeps everything the search knows. */
  lemma Grown(edges: Edges, r: Request, bucket: set<EdgeId>, queue: seq<Waiting>, depths: Depths, steps: seq<Step>,
              added: seq<Step>,
              maxDepth: nat)
    requires queue != [] && queue[0].depth < maxDepth
    requires Searching(edges, r, queue, depths, steps, queue[0].depth, maxDepth)
    requires forall e :: e in bucket <==> e in edges && Touches(edges[e], queue[0].node)
    requires forall i :: 0 <= i < |added| ==>
               StepFrom(edges, r, queue[0].node, queue[0].depth, added[i]) && added[i].node !in depths
    requires forall i, j :: 0 <= i < j < |added| ==> added[i].node != added[j].node
    requires forall e, y :: e in bucket && Follows(r, edges[e], queue[0].node, y) ==> y in depths.Keys + NodesOf(added)
    ensures Searching(edges, r, queue[1..] + Queued(added), Deeper(depths, added), steps + added, queue[0].depth,
        maxDepth)
    ensures Deeper(depths, added).Keys == depths.Keys + NodesOf(added)
  {
    hide Steps, Follows, Exact, Followed, Listed, Waits;
    AddedIsExact(edges, r, depths, queue[0].node, added);
    GrownQueueFits(queue, depths, added);
    GrownFollowed(edges, r, bucket, queue, depths, added, maxDepth);
    GrownListed(steps, depths, added, queue[0].depth + 1);
    assert NodesOf(steps + added) == Deeper(depths, added).Keys - {r.origin};
  }

  // ---- The traversal -----------------------------------------------------------------------------

  datatype Limits = Limits(maxDepth: nat, maxVisited: nat)

  /** A bound of zero means one; any other is capped by the limits. */
  function Bound(requested: nat, limit: nat): (bound: nat)
    ensures requested == 0 ==> bound == 1
    ensures requested > 0 ==> bound in {requested, limit} && bound <= requested && bound <= limit
  {
    if requested == 0 then 1 else if requested <= limit then requested else limit
  }

  datatype Result = NoOrigin | OriginNotFound | Completed(steps: seq<Step>, truncated: bool)

  /** The nodes other than the origin within the depth bound. */
  ghost function Qualifying(edges: Edges, r: Request, maxDepth: nat): set<NodeId> {
    set a | a in Steps(edges, r) && a.1 != r.origin && Near(Steps(edges, r), r.origin, a.1, maxDepth) :: a.1
  }

  lemma QualifyingMeans(edges: Edges, r: Request, maxDepth: nat, y: NodeId)
    ensures y in Qualifying(edges, r, maxDepth) <==> y != r.origin && Near(Steps(edges, r), r.origin, y, maxDepth)
  {
    var arcs := Steps(edges, r);
    if y != r.origin && Near(arcs, r.origin, y, maxDepth) {
      var m: nat :| m <= maxDepth && Walk(arcs, r.origin, y, m);
      var c := WalkLast(arcs, r.origin, y, m);
      assert (c, y).1 == y;
    }
  }

  predicate StepLess(a: Step, b: Step) {
    a.depth < b.depth || (a.depth == b.depth && Less(a.node, b.node))
  }

  predicate Sorted(steps: seq<Step>) {
    forall i, j :: 0 <= i < j < |steps| ==> !StepLess(steps[j], steps[i])
  }

  lemma StepLessOrders(a: Step, b: Step, c: Step)
    ensures !(StepLess(a, b) && StepLess(b, a))
    ensures !StepLess(b, a) && !StepLess(c, b) ==> !StepLess(c, a)
  {
    LessTotal(a.node, b.node);
    LessTotal(b.node, c.node);
    LessTotal(a.node, c.node);
    if Less(c.node, a.node) && Less(a.node, b.node) {
      LessTransitive(c.node, a.node, b.node);
    }
  }

  method SortSteps(steps: seq<Step>) returns (sorted: seq<Step>)
    ensures Sorted(sorted) && multiset(sorted) == multiset(steps)
  {
    sorted := [];
    for i := 0 to |steps|
      invariant Sorted(sorted) && multiset(sorted) == multiset(steps[..i])
    {
      assert steps[..i + 1] == steps[..i] + [steps[i]];
      sorted := InsertStep(sorted, steps[i]);
    }
    assert steps[..|steps|] == steps;
  }

  method InsertStep(steps: seq<Step>, s: Step) returns (more: seq<Step>)
    requires Sorted(steps)
    ensures Sorted(more) && multiset(more) == multiset(steps) + multiset{s}
  {
    hide StepLess;
    var k := |steps|;
    while k > 0 && StepLess(s, steps[k - 1])
      invariant 0 <= k <= |steps|
      invariant forall i :: k <= i < |steps| ==> StepLess(s, steps[i])
    {
      k := k - 1;
    }
    more := steps[..k] + [s] + steps[k..];
    assert steps == steps[..k] + steps[k..];
    Inserted(steps, s, k);
  }

  lemma Inserted(steps: seq<Step>, s: Step, k: nat)
    requires Sorted(steps) && k <= |steps| && (k > 0 ==> !StepLess(s, steps[k - 1]))
    requires forall i :: k <= i < |steps| ==> StepLess(s, steps[i])
    ensures Sorted(steps[..k] + [s] + steps[k..])
  {
    hide StepLess;
    var more := steps[..k] + [s] + steps[k..];
    forall i, j | 0 <= i < j < |more|
      ensures !StepLess(more[j], more[i])
    {
      var a := if i < k then i else if i == k then 0 else i - 1;
      var b := if j < k then j else if j == k then 0 else j - 1;
      if i < k && j == k {
        if i < k - 1 {
          StepLessOrders(steps[i], steps[k - 1], s);
        }
      } else if i == k {
        StepLessOrders(s, steps[b], s);
      } else {
        assert more[i] == steps[a] && more[j] == steps[b] && a < b;
      }
    }
  }

  // ---- What the answer means -----------------------------------------------------------------------

  /** The step was taken over an admitted edge from a node one level closer to the origin. */
  ghost predicate CameFrom(edges: Edges, r: Request, s: Step) {
    exists x, d: nat :: StepFrom(edges, r, x, d, s) && Distance(Steps(edges, r), r.origin, x, d)
  }

  ghost predicate Genuine(edges: Edges, r: Request, s: Step, maxDepth: nat) {
    0 < s.depth <= maxDepth && Distance(Steps(edges, r), r.origin, s.node, s.depth) && CameFrom(edges, r, s)
  }

  /** No node is listed twice, every listed depth is a shortest distance, nothing is missing
      unless the list is full, and then nothing closer than a listed node is missing. */
  ghost predicate Answers(edges: Edges, r: Request, steps: seq<Step>, truncated: bool, maxDepth: nat, maxVisited: nat) {
    && |NodesOf(steps)| == |steps|
    && (forall s :: s in steps ==> Genuine(edges, r, s, maxDepth))
    && NodesOf(steps) <= Qualifying(edges, r, maxDepth)
    && (truncated <==> |Qualifying(edges, r, maxDepth)| > maxVisited)
    && (!truncated ==> NodesOf(steps) == Qualifying(edges, r, maxDepth))
    && (truncated ==> |steps| == maxVisited)
    && (forall s, y :: s in steps && y in Qualifying(edges, r, maxDepth) - NodesOf(steps) ==>
          !Near(Steps(edges, r), r.origin, y, s.depth - 1))
  }

  lemma AnswersAnyOrder(edges: Edges, r: Request, steps: seq<Step>, sorted: seq<Step>, truncated: bool, maxDepth: nat,
                        maxVisited: nat)
    requires Answers(edges, r, steps, truncated, maxDepth, maxVisited) && multiset(sorted) == multiset(steps)
    ensures Answers(edges, r, sorted, truncated, maxDepth, maxVisited)
  {
    hide Genuine, Qualifying, Near, Steps;
    assert |sorted| == |multiset(sorted)| == |multiset(steps)| == |steps|;
    assert forall s :: s in sorted <==> s in multiset(sorted);
    assert forall s :: s in steps <==> s in multiset(steps);
    assert NodesOf(sorted) == NodesOf(steps) by {
      forall n
        ensures n in NodesOf(sorted) <==> n in NodesOf(steps)
      {
        if n in NodesOf(sorted) {
          var i :| 0 <= i < |sorted| && sorted[i].node == n;
          assert sorted[i] in steps;
        }
        if n in NodesOf(steps) {
          var i :| 0 <= i < |steps| && steps[i].node == n;
          assert steps[i] in sorted;
        }
      }
    }
  }

  /** Strictly by depth, and strictly by identifier among nodes at one depth. */
  ghost predicate ClosestFirst(steps: seq<Step>) {
    forall i, j :: 0 <= i < j < |steps| ==>
      steps[i].depth < steps[j].depth || (steps[i].depth == steps[j].depth && Less(steps[i].node, steps[j].node))
  }

  lemma SortedIsClosestFirst(steps: seq<Step>)
    requires Sorted(steps) && |NodesOf(steps)| == |steps|
    ensures ClosestFirst(steps)
  {
    forall i, j | 0 <= i < j < |steps|
      ensures steps[i].depth < steps[j].depth
              || (steps[i].depth == steps[j].depth && Less(steps[i].node, steps[j].node))
    {
      CountDistinct(steps, i, j);
      LessTotal(steps[i].node, steps[j].node);
    }
  }

  /** As many nodes as steps means that no two steps share a node. */
  lemma {:induction false} CountDistinct(steps: seq<Step>, i: nat, j: nat)
    requires i < j < |steps| && |NodesOf(steps)| == |steps|
    ensures steps[i].node != steps[j].node
  {
    var n := |steps| - 1;
    assert NodesOf(steps) == NodesOf(steps[..n]) + {steps[n].node};
    NodesAtMost(steps[..n]);
    if j < n {
      CountDistinct(steps[..n], i, j);
    } else {
      assert steps[..n][i] == steps[i];
    }
  }

  lemma {:induction false} NodesAtMost(steps: seq<Step>)
    ensures |NodesOf(steps)| <= |steps|
  {
    if steps != [] {
      var n := |steps| - 1;
      NodesAtMost(steps[..n]);
      assert NodesOf(steps) == NodesOf(steps[..n]) + {steps[n].node};
    }
  }

  lemma SearchedQualify(edges: Edges, r: Request, queue: seq<Waiting>, depths: Depths, steps: seq<Step>, level: nat,
                        maxDepth: nat)
    requires Searching(edges, r, queue, depths, steps, level, maxDepth)
    ensures |NodesOf(steps)| == |steps| && NodesOf(steps) <= Qualifying(edges, r, maxDepth)
    ensures forall s :: s in steps ==>
        0 < s.depth <= level + 1 && s.depth <= maxDepth && Distance(Steps(edges, r), r.origin, s.node, s.depth)
  {
    hide Steps, QueueFits, Followed, SeenUpTo, Walk, Qualifying;
    DistinctCount(steps);
    var arcs := Steps(edges, r);
    forall n | n in NodesOf(steps)
      ensures n in Qualifying(edges, r, maxDepth)
    {
      assert Distance(arcs, r.origin, n, depths[n]);
      QualifyingMeans(edges, r, maxDepth, n);
    }
    forall s | s in steps
      ensures 0 < s.depth <= level + 1 && s.depth <= maxDepth && Distance(arcs, r.origin, s.node, s.depth)
    {
      var i :| 0 <= i < |steps| && steps[i] == s;
      assert s.node in NodesOf(steps);
      ZeroIsOrigin(arcs, r.origin, s.node, s.depth);
    }
  }

  lemma ZeroIsOrigin(arcs: Arcs<NodeId>, a: NodeId, b: NodeId, n: nat)
    requires Distance(arcs, a, b, n) && b != a
    ensures n > 0
  {
  }

  /** When nothing waits any more, everything within the bound has been seen. */
  lemma {:induction false} ExhaustedSeesAll(edges: Edges, r: Request, depths: Depths, steps: seq<Step>, level: nat,
                                            n: nat, maxDepth: nat)
    requires Searching(edges, r, [], depths, steps, level, maxDepth) && n <= maxDepth
    ensures SeenUpTo(Steps(edges, r), r.origin, depths.Keys, n)
  {
    hide Steps, Listed, Walk;
    if n == 0 {
      forall y | Near(Steps(edges, r), r.origin, y, 0)
        ensures y in depths
      {
        assert Near(Steps(edges, r), r.origin, y, level);
      }
    } else {
      ExhaustedSeesAll(edges, r, depths, steps, level, n - 1, maxDepth);
      NextLevelSeen(Steps(edges, r), r.origin, [], depths, n - 1, maxDepth);
    }
  }

  lemma CompleteAnswer(edges: Edges, r: Request, depths: Depths, steps: seq<Step>, level: nat, maxDepth: nat,
                       maxVisited: nat)
    requires Searching(edges, r, [], depths, steps, level, maxDepth) && |steps| <= maxVisited
    requires forall s :: s in steps ==> CameFrom(edges, r, s)
    ensures Answers(edges, r, steps, false, maxDepth, maxVisited)
  {
    hide Steps, QueueFits, Followed, Listed, Walk, Qualifying, Near, CameFrom;
    SearchedQualify(edges, r, [], depths, steps, level, maxDepth);
    ExhaustedSeesAll(edges, r, depths, steps, level, maxDepth, maxDepth);
    forall y | y in Qualifying(edges, r, maxDepth)
      ensures y in NodesOf(steps)
    {
      QualifyingMeans(edges, r, maxDepth, y);
    }
    assert NodesOf(steps) == Qualifying(edges, r, maxDepth);
  }

  /** The list is full and one more node was found: it is exactly one level deeper, and everything closer is listed. */
  lemma TruncatedAnswer(edges: Edges, r: Request, queue: seq<Waiting>, depths: Depths, steps: seq<Step>, level: nat,
                        extra: NodeId,
                        added: seq<Step>, maxDepth: nat, maxVisited: nat)
    requires Searching(edges, r, queue, depths, steps, level, maxDepth) && level < maxDepth
    requires forall i :: 0 <= i < |added| ==> added[i].node !in depths && added[i].depth == level + 1
    requires forall i, j :: 0 <= i < j < |added| ==> added[i].node != added[j].node
    requires forall s :: s in steps + added ==> CameFrom(edges, r, s)
    requires forall i :: 0 <= i < |added| ==> Distance(Steps(edges, r), r.origin, added[i].node, level + 1)
    requires |steps + added| == maxVisited && extra !in depths && extra !in NodesOf(added)
    requires Near(Steps(edges, r), r.origin, extra, level + 1)
    ensures Answers(edges, r, steps + added, true, maxDepth, maxVisited)
  {
    hide Steps, QueueFits, Followed, Walk, Qualifying, Near, CameFrom, Exact, Distance, SeenUpTo, StepFrom, Listed,
         NodesOf,
         Deeper, Genuine;
    var all, arcs := steps + added, Steps(edges, r);
    SearchedQualify(edges, r, queue, depths, steps, level, maxDepth);
    AllGenuine(edges, r, steps, added, level, maxDepth);
    GrownListed(steps, depths, added, level + 1);
    ListedCount(all, Deeper(depths, added));
    AddedQualify(edges, r, added, level, maxDepth);
    NearFurther(arcs, r.origin, extra, level + 1, maxDepth);
    QualifyingMeans(edges, r, maxDepth, extra);
    Larger(NodesOf(all), extra, Qualifying(edges, r, maxDepth));
    OmittedAreFar(edges, r, depths, all, level, maxDepth);
  }

  lemma AllGenuine(edges: Edges, r: Request, steps: seq<Step>, added: seq<Step>, level: nat, maxDepth: nat)
    requires level < maxDepth
    requires forall s :: s in steps + added ==> CameFrom(edges, r, s)
    requires forall s :: s in steps ==> 0 < s.depth <= level + 1 && Distance(Steps(edges, r), r.origin, s.node, s.depth)
    requires forall i :: 0 <= i < |added| ==>
               added[i].depth == level + 1 && Distance(Steps(edges, r), r.origin, added[i].node, level + 1)
    ensures forall s :: s in steps + added ==> Genuine(edges, r, s, maxDepth) && 0 < s.depth <= level + 1
  {
    hide Steps, Distance, CameFrom;
  }

  lemma ListedCount(steps: seq<Step>, depths: Depths)
    requires Listed(steps, depths)
    ensures |NodesOf(steps)| == |steps|
  {
    DistinctCount(steps);
  }

  lemma OmittedAreFar(edges: Edges, r: Request, depths: Depths, all: seq<Step>, level: nat, maxDepth: nat)
    requires SeenUpTo(Steps(edges, r), r.origin, depths.Keys, level) && depths.Keys - {r.origin} <= NodesOf(all)
    requires forall s :: s in all ==> 0 < s.depth <= level + 1
    ensures forall s, y :: s in all && y in Qualifying(edges, r, maxDepth) - NodesOf(all) ==>
              !Near(Steps(edges, r), r.origin, y, s.depth - 1)
  {
    hide Steps, Qualifying, Near, NodesOf;
    forall s, y | s in all && y in Qualifying(edges, r, maxDepth) - NodesOf(all)
      ensures !Near(Steps(edges, r), r.origin, y, s.depth - 1)
    {
      QualifyingMeans(edges, r, maxDepth, y);
      if Near(Steps(edges, r), r.origin, y, s.depth - 1) {
        NearFurther(Steps(edges, r), r.origin, y, s.depth - 1, level);
      }
    }
  }

  lemma AddedQualify(edges: Edges, r: Request, added: seq<Step>, level: nat, maxDepth: nat)
    requires level < maxDepth && forall i :: 0 <= i < |added| ==>
        Distance(Steps(edges, r), r.origin, added[i].node, level + 1)
    ensures NodesOf(added) <= Qualifying(edges, r, maxDepth)
  {
    hide Steps, Qualifying;
    forall n | n in NodesOf(added)
      ensures n in Qualifying(edges, r, maxDepth)
    {
      var i :| 0 <= i < |added| && added[i].node == n;
      assert Distance(Steps(edges, r), r.origin, n, level + 1);
      assert Walk(Steps(edges, r), r.origin, r.origin, 0);
      QualifyingMeans(edges, r, maxDepth, n);
    }
  }

  lemma NearFurther(arcs: Arcs<NodeId>, a: NodeId, b: NodeId, n: int, m: nat)
    requires 0 <= n <= m && Near(arcs, a, b, n)
    ensures Near(arcs, a, b, m)
  {
  }

  lemma Larger(small: set<NodeId>, extra: NodeId, big: set<NodeId>)
    requires small + {extra} <= big && extra !in small
    ensures |big| > |small|
  {
    var rest := big - (small + {extra});
    assert big == (small + {extra}) + rest;
  }

  /** Breadth-first search from the origin over the incident index. */
  method Search(edges: Edges, incident: Buckets<NodeId, EdgeId>, r: Request, maxDepth: nat, maxVisited: nat)
    returns (steps: seq<Step>, truncated: bool)
    requires Files(incident, Pairs(edges, EndSet))
    ensures Answers(edges, r, steps, truncated, maxDepth, maxVisited)
  {
    hide Files, Pairs, Answers, Searching, CameFrom, Steps, NodesOf, Deeper, Queued, Follows, StepFrom, ArcEnds,
         Touches;
    steps, truncated := [], false;
    var visited := {r.origin};
    var queue := [Waiting(r.origin, 0)];
    ghost var depths: Depths, level: nat := map[r.origin := 0], 0;
    ghost var universe := {r.origin} + ArcEnds(Steps(edges, r));
    SearchStarts(edges, r, maxDepth);
    while queue != []
      invariant Searching(edges, r, queue, depths, steps, level, maxDepth)
      invariant visited == depths.Keys && |steps| <= maxVisited
      invariant forall s :: s in steps ==> CameFrom(edges, r, s)
      invariant visited <= universe
      decreases |universe - visited|, |queue|
    {
      var current, depth := queue[0].node, queue[0].depth;
      LevelReached(edges, r, queue, depths, steps, level, maxDepth);
      level := depth;
      if depth >= maxDepth {
        PoppedAtLimit(edges, r, queue, depths, steps, maxDepth);
        queue := queue[1..];
        continue;
      }
      IncidentLookup(edges, incident, current);
      var bucket := if current in incident then incident[current] else {};
      var added;
      added, truncated := Expand(edges, bucket, r, current, depth, maxVisited - |steps|, visited);
      ExpandedSteps(edges, r, queue, depths, steps, added, maxDepth);
      if truncated {
        TruncatedHere(edges, r, bucket, queue, depths, steps, added, maxDepth, maxVisited);
        steps := steps + added;
        return;
      }
      Grown(edges, r, bucket, queue, depths, steps, added, maxDepth);
      StillInside(edges, r, current, depth, added, visited, universe);
      visited := visited + NodesOf(added);
      depths := Deeper(depths, added);
      steps, queue := steps + added, queue[1..] + Queued(added);
    }
    CompleteAnswer(edges, r, depths, steps, level, maxDepth, maxVisited);
  }

  lemma SearchStarts(edges: Edges, r: Request, maxDepth: nat)
    ensures Searching(edges, r, [Waiting(r.origin, 0)], map[r.origin := 0], [], 0, maxDepth)
  {
    hide Steps;
    assert Waits([Waiting(r.origin, 0)], r.origin) by {
      assert [Waiting(r.origin, 0)][0].node == r.origin;
    }
    assert NodesOf([]) == {};
  }

  lemma ExpandedSteps(edges: Edges, r: Request, queue: seq<Waiting>, depths: Depths, steps: seq<Step>,
                      added: seq<Step>, maxDepth: nat)
    requires queue != [] && Searching(edges, r, queue, depths, steps, queue[0].depth, maxDepth)
    requires forall s :: s in steps ==> CameFrom(edges, r, s)
    requires forall i :: 0 <= i < |added| ==> StepFrom(edges, r, queue[0].node, queue[0].depth, added[i])
    ensures forall s :: s in steps + added ==> CameFrom(edges, r, s)
  {
    hide Steps, Distance, StepFrom, Followed, Listed, SeenUpTo;
    assert Distance(Steps(edges, r), r.origin, queue[0].node, queue[0].depth);
    forall s | s in steps + added
      ensures CameFrom(edges, r, s)
    {
      if s !in steps {
        var i :| 0 <= i < |added| && added[i] == s;
        assert StepFrom(edges, r, queue[0].node, queue[0].depth, s);
      }
    }
  }

  lemma TruncatedHere(edges: Edges, r: Request, bucket: set<EdgeId>, queue: seq<Waiting>, depths: Depths,
                      steps: seq<Step>,
                      added: seq<Step>, maxDepth: nat, maxVisited: nat)
    requires queue != [] && queue[0].depth < maxDepth
    requires Searching(edges, r, queue, depths, steps, queue[0].depth, maxDepth)
    requires forall e :: e in bucket ==> e in edges
    requires forall i :: 0 <= i < |added| ==>
               StepFrom(edges, r, queue[0].node, queue[0].depth, added[i]) && added[i].node !in depths
    requires forall i, j :: 0 <= i < j < |added| ==> added[i].node != added[j].node
    requires forall s :: s in steps + added ==> CameFrom(edges, r, s)
    requires |steps| + |added| == maxVisited
    requires exists e, y :: e in bucket && Follows(r, edges[e], queue[0].node, y) && y !in depths.Keys + NodesOf(added)
    ensures Answers(edges, r, steps + added, true, maxDepth, maxVisited)
  {
    hide Steps, Distance, Follows, Followed, Listed, Answers, CameFrom, NodesOf, Deeper, Walk;
    var level := queue[0].depth;
    var e, extra :| e in bucket && Follows(r, edges[e], queue[0].node, extra) && extra !in depths.Keys + NodesOf(added);
    AddedIsExact(edges, r, depths, queue[0].node, added);
    StepsAreFollowed(edges, r, queue[0].node, extra);
    DeeperDistances(edges, r, depths, added, level);
    OneStepNear(Steps(edges, r), r.origin, queue[0].node, extra, level);
    TruncatedAnswer(edges, r, queue, depths, steps, level, extra, added, maxDepth, maxVisited);
  }

  lemma DeeperDistances(edges: Edges, r: Request, depths: Depths, added: seq<Step>, level: nat)
    requires Exact(Steps(edges, r), r.origin, Deeper(depths, added))
    requires forall i :: 0 <= i < |added| ==> added[i].node in Deeper(depths, added) ==>
        Deeper(depths, added)[added[i].node] == level + 1
    ensures forall i :: 0 <= i < |added| ==> Distance(Steps(edges, r), r.origin, added[i].node, level + 1)
  {
    hide Steps, Distance;
    forall i | 0 <= i < |added|
      ensures Distance(Steps(edges, r), r.origin, added[i].node, level + 1)
    {
      assert added[i].node in NodesOf(added);
    }
  }

  lemma OneStepNear(arcs: Arcs<NodeId>, a: NodeId, x: NodeId, y: NodeId, n: nat)
    requires Distance(arcs, a, x, n) && (x, y) in arcs
    ensures Near(arcs, a, y, n + 1)
  {
    WalkOne(arcs, x, y);
    WalkAppend(arcs, a, x, n, y, 1);
  }

  lemma StillInside(edges: Edges, r: Request, current: NodeId, depth: nat, added: seq<Step>, visited: set<NodeId>,
                    universe: set<NodeId>)
    requires universe == {r.origin} + ArcEnds(Steps(edges, r)) && visited <= universe
    requires forall i :: 0 <= i < |added| ==> StepFrom(edges, r, current, depth, added[i]) && added[i].node !in visited
    ensures visited + NodesOf(added) <= universe
    ensures |universe - (visited + NodesOf(added))| <= |universe - visited|
    ensures added != [] ==> |universe - (visited + NodesOf(added))| < |universe - visited|
  {
    hide Steps, Follows;
    forall n | n in NodesOf(added)
      ensures n in universe
    {
      var i :| 0 <= i < |added| && added[i].node == n;
      StepsAreFollowed(edges, r, current, n);
      ArcEndsHold(Steps(edges, r), current, n);
    }
    var before, after := universe - visited, universe - (visited + NodesOf(added));
    assert before == after + NodesOf(added);
    if added != [] {
      assert added[0].node in NodesOf(added) && added[0].node !in after && added[0].node in before;
      Larger(after, added[0].node, before);
    } else {
      assert NodesOf(added) == {} && before == after;
    }
  }

  lemma AnswersCount(edges: Edges, r: Request, steps: seq<Step>, truncated: bool, maxDepth: nat, maxVisited: nat)
    requires Answers(edges, r, steps, truncated, maxDepth, maxVisited)
    ensures |NodesOf(steps)| == |steps|
  {
    hide Steps, NodesOf, Genuine, Qualifying, Near;
  }

  /** Everything reachable within the bounds, or as much of it as fits, closest first. */
  method Traverse(nodes: Nodes, edges: Edges, incident: Buckets<NodeId, EdgeId>, r: Request,
                  limits: Limits) returns (result: Result)
    requires Files(incident, Pairs(edges, EndSet))
    ensures r.origin == "" ==> result == NoOrigin
    ensures r.origin != "" && r.origin !in nodes ==> result == OriginNotFound
    ensures r.origin != "" && r.origin in nodes ==>
              && result.Completed? && ClosestFirst(result.steps)
              && Answers(edges, r, result.steps, result.truncated,
                         Bound(r.maxDepth, limits.maxDepth), Bound(r.maxVisited, limits.maxVisited))
  {
    hide Files, Pairs, Answers, Sorted, ClosestFirst, NodesOf;
    if r.origin == "" {
      return NoOrigin;
    }
    var maxDepth, maxVisited := Bound(r.maxDepth, limits.maxDepth), Bound(r.maxVisited, limits.maxVisited);
    if r.origin !in nodes {
      return OriginNotFound;
    }
    var found, truncated := Search(edges, incident, r, maxDepth, maxVisited);
    var sorted := SortSteps(found);
    AnswersAnyOrder(edges, r, found, sorted, truncated, maxDepth, maxVisited);
    AnswersCount(edges, r, sorted, truncated, maxDepth, maxVisited);
    SortedIsClosestFirst(sorted);
    return Completed(sorted, truncated);
  }
}
