/** Snapshots: read under a shared lock, validated and numbered under the
    exclusive one, retried when something landed between. */
module Snapshots {
  import opened Types
  import opened Graphs
  import opened Authority
  import opened Mutations
  import opened Reconcile
  import opened Runs
  import opened StampLaws
  import opened ValidityLaws

  datatype Scope = Scope(whole: bool, domain: DomainId, relation: Option<Relation>, layer: Option<Layer>)

  predicate NodeInScope(n: Node, scope: Scope) {
    scope.whole || n.domain == scope.domain
  }

  predicate EdgeInScope(e: Edge, scope: Scope) {
    && (scope.whole || e.domain == scope.domain || (e.crossDomain && e.secondary == scope.domain))
    && (scope.relation.Some? ==> e.relation == scope.relation.value)
    && (scope.layer.Some? ==> e.layer == scope.layer.value)
  }

  function NodesIn(g: Graph, scope: Scope): Nodes {
    map n | n in g.nodes && NodeInScope(g.nodes[n], scope) :: g.nodes[n]
  }

  function EdgesIn(g: Graph, scope: Scope): Edges {
    map e | e in g.edges && EdgeInScope(g.edges[e], scope) :: g.edges[e]
  }

  /** The scope of one domain, with nothing filtered out. */
  function DomainOnly(domain: DomainId): Scope {
    Scope(false, domain, None, None)
  }

  /** The snapshots of the declared scopes divide the nodes among them, each node in the one of its own domain; an edge
      is in the ones of the scopes it is kept in; a filter by relation or layer leaves exactly the edges that have it;
      and the snapshot of everything is everything. */
  lemma ScopesDivide(g: Graph, scope: Scope)
    ensures forall d, n :: n in NodesIn(g, DomainOnly(d)) <==> n in g.nodes && g.nodes[n].domain == d
    ensures forall d, e :: e in EdgesIn(g, DomainOnly(d)) <==> e in g.edges && d in ScopesOf(g.edges[e])
    ensures forall e :: e in EdgesIn(g, scope) <==>
              && e in EdgesIn(g, scope.(relation := None, layer := None))
              && scope.relation in {None, Some(g.edges[e].relation)} && scope.layer in {None, Some(g.edges[e].layer)}
    ensures NodesIn(g, scope) == NodesIn(g, scope.(relation := None, layer := None))
    ensures forall d :: var all := Scope(true, d, None, None);
                        NodesIn(g, all) == g.nodes && EdgesIn(g, all) == g.edges
    ensures forall n :: n in NodesIn(g, scope) ==> n in g.nodes && NodesIn(g, scope)[n] == g.nodes[n]
    ensures forall e :: e in EdgesIn(g, scope) ==> e in g.edges && EdgesIn(g, scope)[e] == g.edges[e]
  {
    forall e: Edge {
      FilteredExactly(e, scope);
    }
  }

  lemma FilteredExactly(e: Edge, scope: Scope)
    ensures EdgeInScope(e, scope) <==>
            && EdgeInScope(e, scope.(relation := None, layer := None))
            && scope.relation in {None, Some(e.relation)} && scope.layer in {None, Some(e.layer)}
  {
    assert scope.relation in {None, Some(e.relation)} <==> scope.relation.None? || scope.relation.value == e.relation;
    assert scope.layer in {None, Some(e.layer)} <==> scope.layer.None? || scope.layer.value == e.layer;
  }

  /** In a consistent graph the snapshot of a scope leaves no edge that stays in it without its endpoints. */
  lemma ScopeIsClosed(env: Env, g: Graph, d: DomainId, e: EdgeId)
    requires Consistent(env, g) && e in EdgesIn(g, DomainOnly(d)) && !g.edges[e].crossDomain
    ensures g.edges[e].from in NodesIn(g, DomainOnly(d)) && g.edges[e].to in NodesIn(g, DomainOnly(d))
  {
    hide RelationsObeyed, NodesStand, RegistryBacks, HierarchiesAcyclic, KeysUnique, SlotsHeldOnce, SupportsHold;
    ScopesDivide(g, DomainOnly(d));
    assert {g.nodes[g.edges[e].from].domain, g.nodes[g.edges[e].to].domain} <= {d};
  }

  datatype Snapshot = Snapshot(
    ordinal: Counter, generation: Counter, epoch: Counter, scope: Scope, nodes: Nodes, edges: Edges, digest: string)

  /** The digest is some function of the scoped content alone. */
  type Digest = (Scope, Nodes, Edges) -> string

  function Content(s: State, scope: Scope, digest: Digest): Snapshot {
    var nodes, edges := NodesIn(s.graph, scope), EdgesIn(s.graph, scope);
    Snapshot(0, s.graph.generation, s.epoch, scope, nodes, edges, digest(scope, nodes, edges))
  }

  /** The snapshot as if it had been built in one piece in the given state. */
  function Taken(s: State, scope: Scope, digest: Digest): Snapshot {
    Content(s, scope, digest).(ordinal := Bump(s.graph.ordinal))
  }

  lemma SameStampSameContent(states: seq<State>, ops: seq<Op>, i: nat, j: nat, scope: Scope, digest: Digest)
    requires Run(states, ops) && i <= j < |states| && NoResidueBetween(states, ops, i, j)
    requires SameStamp(states[i], states[j])
    ensures Content(states[i], scope, digest) == Content(states[j], scope, digest)
  {
    hide Step, LeavesResidue;
    StampDeterminesTopology(states, ops, i, j);
  }

  lemma SameStampWithin(states: seq<State>, ops: seq<Op>, lo: nat, i: nat, j: nat, scope: Scope, digest: Digest)
    requires Run(states, ops) && lo <= i <= j < |states| && NoResidueBetween(states, ops, lo, j)
    requires SameStamp(states[i], states[j])
    ensures Content(states[i], scope, digest) == Content(states[j], scope, digest)
  {
    hide Step, LeavesResidue, Content;
    SameStampSameContent(states, ops, i, j, scope, digest);
  }

  const ATTEMPTS: nat := 8

  /** The moments a snapshot looks at the runtime: shared and
      exclusive sections in turn, then the serialised fallback. */
  ghost predicate Moments(states: seq<State>, times: seq<nat>) {
    |times| == 2 * ATTEMPTS + 1
    && (forall i, j :: 0 <= i < j < |times| ==> times[i] <= times[j])
    && (forall i :: 0 <= i < |times| ==> times[i] < |states|)
  }

  /** The moment that numbers the snapshot: the first exclusive section that
      finds the stamp of its shared section, or the fallback. */
  ghost function Lands(states: seq<State>, times: seq<nat>, attempt: nat): (at: nat)
    requires Moments(states, times) && attempt <= ATTEMPTS
    ensures at in times && times[0] <= at <= times[2 * ATTEMPTS]
    decreases ATTEMPTS - attempt
  {
    if attempt == ATTEMPTS then times[2 * ATTEMPTS]
    else if SameStamp(states[times[2 * attempt]], states[times[2 * attempt + 1]]) then times[2 * attempt + 1]
    else Lands(states, times, attempt + 1)
  }

  class History {
    var snapshots: seq<Snapshot>
    const capacity: nat

    constructor (capacity: nat)
      ensures this.capacity == capacity && snapshots == []
    {
      this.capacity := capacity;
      snapshots := [];
    }

    /** Keep the newest snapshots, as many as the history may hold. */
    method Remember(s: Snapshot)
      modifies this
      ensures |snapshots| == if |old(snapshots)| + 1 <= capacity then |old(snapshots)| + 1 else capacity
      ensures snapshots == (old(snapshots) + [s])[|old(snapshots)| + 1 - |snapshots|..]
    {
      snapshots := snapshots + [s];
      ghost var all := snapshots;
      ghost var dropped := 0;
      while |snapshots| > capacity && snapshots != []
        invariant dropped <= |all| && snapshots == all[dropped..] && (dropped > 0 ==> |snapshots| >= capacity)
        decreases |snapshots|
      {
        snapshots := snapshots[1..];
        dropped := dropped + 1;
      }
    }

    /** Whatever runs between its sections, a snapshot is exactly the runtime as of the
        exclusive section that numbers it, and numbering it is that step of the run. */
    method Take(scope: Scope, digest: Digest, states: seq<State>, ghost ops: seq<Op>, times: seq<nat>)
      returns (snapshot: Snapshot, at: nat)
      requires Run(states, ops) && Moments(states, times)
      requires Lands(states, times, 0) < |ops| && ops[Lands(states, times, 0)].NumberingSnapshot?
      requires NoResidueBetween(states, ops, times[0], Lands(states, times, 0))
      modifies this
      ensures at == Lands(states, times, 0) && ops[at].NumberingSnapshot?
      ensures snapshot == Taken(states[at], scope, digest) && snapshot.ordinal == states[at + 1].graph.ordinal
      ensures capacity > 0 ==> snapshots != [] && snapshots[|snapshots| - 1] == snapshot
    {
      hide LeavesResidue, Step, Content, Run, NoResidueBetween, Moments, Lands;
      RunLength(states, ops);
      MomentsLength(states, times);
      for attempt := 0 to ATTEMPTS
        invariant Lands(states, times, 0) == Lands(states, times, attempt)
      {
        AttemptFacts(states, times, attempt);
        var seen := states[times[2 * attempt]];
        var now := states[times[2 * attempt + 1]];
        if now.graph.generation == seen.graph.generation && now.epoch == seen.epoch {
          at := times[2 * attempt + 1];
          SameStampWithin(states, ops, times[0], times[2 * attempt], at, scope, digest);
          snapshot := Content(seen, scope, digest).(ordinal := Bump(now.graph.ordinal));
          NumberedBy(states, ops, at);
          Remember(snapshot);
          return;
        }
      }
      at := times[2 * ATTEMPTS];
      snapshot := Taken(states[at], scope, digest);
      NumberedBy(states, ops, at);
      Remember(snapshot);
    }
  }

  lemma MomentsLength(states: seq<State>, times: seq<nat>)
    requires Moments(states, times)
    ensures |times| == 2 * ATTEMPTS + 1 && times[2 * ATTEMPTS] < |states|
    ensures Lands(states, times, ATTEMPTS) == times[2 * ATTEMPTS]
  {
  }

  lemma AttemptFacts(states: seq<State>, times: seq<nat>, attempt: nat)
    requires Moments(states, times) && attempt < ATTEMPTS
    ensures times[0] <= times[2 * attempt] <= times[2 * attempt + 1] < |states|
    ensures Lands(states, times, attempt)
            == if SameStamp(states[times[2 * attempt]], states[times[2 * attempt + 1]]) then times[2 * attempt + 1]
               else Lands(states, times, attempt + 1)
  {
  }

  lemma RunLength(states: seq<State>, ops: seq<Op>)
    requires Run(states, ops)
    ensures |states| == |ops| + 1
  {
    hide Step;
  }

  lemma NumberedBy(states: seq<State>, ops: seq<Op>, at: nat)
    requires Run(states, ops) && at < |ops| && ops[at].NumberingSnapshot?
    ensures states[at + 1].graph.ordinal == Bump(states[at].graph.ordinal)
  {
    hide Mutate, Publish;
  }

  /** Numbering a snapshot is a step of the run; while the counter can
      advance, a later snapshot has a larger ordinal. */
  lemma OrdinalsIncrease(states: seq<State>, ops: seq<Op>, i: nat, j: nat, scope: Scope, digest: Digest)
    requires Run(states, ops) && i < j < |ops| && ops[i].NumberingSnapshot? && ops[j].NumberingSnapshot?
    ensures Taken(states[i], scope, digest).ordinal <= Taken(states[j], scope, digest).ordinal
    ensures CanAdvance(states[j].graph.ordinal) ==>
              Taken(states[i], scope, digest).ordinal < Taken(states[j], scope, digest).ordinal
  {
    hide Mutate, Publish, NodesIn, EdgesIn;
    RunsGoForward(states, ops, i + 1, j);
  }

  // ---- Checking a snapshot against the runtime ---------------------------------------------------

  datatype Currency = UpToDate | OlderGeneration | NewerGeneration | DifferentEpoch | DigestMismatch

  function CheckSnapshot(s: State, snapshot: Snapshot, digest: Digest): Currency {
    if snapshot.epoch != s.epoch then DifferentEpoch
    else if snapshot.digest != Content(s, snapshot.scope, digest).digest then DigestMismatch
    else if snapshot.generation < s.graph.generation then OlderGeneration
    else if snapshot.generation > s.graph.generation then NewerGeneration
    else UpToDate
  }

  /** Whatever snapshot is checked, of this runtime or not, each verdict is given exactly for its reason: another epoch
      before other content, and other content before another generation. */
  lemma VerdictsExplained(s: State, snapshot: Snapshot, digest: Digest)
    ensures var v := CheckSnapshot(s, snapshot, digest);
            var nodes, edges := NodesIn(s.graph, snapshot.scope), EdgesIn(s.graph, snapshot.scope);
            var alike := snapshot.epoch == s.epoch && snapshot.digest == digest(snapshot.scope, nodes, edges);
            && (v == UpToDate <==> alike && snapshot.generation == s.graph.generation)
            && (v == OlderGeneration <==> alike && snapshot.generation < s.graph.generation)
            && (v == NewerGeneration <==> alike && snapshot.generation > s.graph.generation)
            && (v == DifferentEpoch <==> snapshot.epoch != s.epoch)
            && (v == DigestMismatch <==> snapshot.epoch == s.epoch && !alike)
  {
    hide NodesIn, EdgesIn;
  }

  /** A snapshot is reported current exactly while the runtime still carries its stamp, and
      then it shows what is there; it is never reported to be from the future. */
  lemma SnapshotCurrency(states: seq<State>, ops: seq<Op>, i: nat, j: nat, scope: Scope, digest: Digest)
    requires Run(states, ops) && i <= j < |states| && NoResidueBetween(states, ops, i, j)
    ensures var snapshot := Taken(states[i], scope, digest);
            && CheckSnapshot(states[j], snapshot, digest) != NewerGeneration
            && (CheckSnapshot(states[j], snapshot, digest) == UpToDate <==> SameStamp(states[i], states[j]))
            && (CheckSnapshot(states[j], snapshot, digest) == UpToDate ==>
                  && snapshot.nodes == NodesIn(states[j].graph, scope)
                  && snapshot.edges == EdgesIn(states[j].graph, scope))
  {
    hide Step, LeavesResidue, NodesIn, EdgesIn;
    RunsGoForward(states, ops, i, j);
    if SameStamp(states[i], states[j]) {
      SameStampSameContent(states, ops, i, j, scope, digest);
    }
  }
}
