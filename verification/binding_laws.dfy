/** A relationship never silently inherits a newer incarnation of an
    endpoint: what is current is bound to what is there. */
module BindingLaws {
  import opened Types
  import opened Graphs
  import opened Authority
  import opened Mutations
  import opened MutationLaws
  import opened Reconcile
  import opened Runs

  predicate Bound(nodes: Nodes, e: Edge) {
    && e.from in nodes && e.to in nodes
    && e.fromGeneration == nodes[e.from].entityGeneration && e.toGeneration == nodes[e.to].entityGeneration
  }

  /** Every current relationship carries the entity generations its endpoints have now. */
  ghost predicate Bindings(nodes: Nodes, edges: Edges) {
    forall e :: e in edges && edges[e].lifecycle == Current ==> Bound(nodes, edges[e])
  }

  ghost predicate StateBound(s: State) {
    Bindings(s.graph.nodes, s.graph.edges)
  }

  lemma FinishBound(s: State, nodes: Nodes, edges: Edges, lookups: Lookups, undone: Lookups, persisted: bool)
    requires StateBound(s) && Bindings(nodes, edges)
    ensures StateBound(Finish(s, nodes, edges, lookups, undone, persisted).state)
  {
    hide Bindings;
  }

  /** One edge changes: the result is bound unless it is made current without being so. */
  lemma OneEdgeBound(nodes: Nodes, edges: Edges, id: EdgeId, e: Edge)
    requires Bindings(nodes, edges) && (e.lifecycle == Current ==> Bound(nodes, e))
    ensures Bindings(nodes, edges[id := e])
  {
  }

  lemma FinishEdgeBound(s: State, id: EdgeId, e: Edge, persisted: bool)
    requires StateBound(s) && id in s.graph.edges && (e.lifecycle == Current ==> Bound(s.graph.nodes, e))
    ensures StateBound(FinishEdge(s, id, e, persisted).state)
  {
    hide StateBound, Bound, Enlist, Delist, Finish;
    var filed := Relist(s.graph.lookups, s.graph.edges[id], e);
    StateEdgeBound(s, id, e);
    FinishBound(s, s.graph.nodes, s.graph.edges[id := e], filed, Relist(filed, e, s.graph.edges[id]), persisted);
  }

  lemma StateEdgeBound(s: State, id: EdgeId, e: Edge)
    requires StateBound(s) && (e.lifecycle == Current ==> Bound(s.graph.nodes, e))
    ensures Bindings(s.graph.nodes, s.graph.edges[id := e])
  {
    hide Bound, Bindings;
    OneEdgeBound(s.graph.nodes, s.graph.edges, id, e);
  }

  /** A node takes another generation, and none of its relationships is current any more. */
  lemma RenewedNodeBound(nodes: Nodes, edges: Edges, n: Node, after: Edges)
    requires Bindings(nodes, edges) && after.Keys == edges.Keys
    requires forall e :: e in edges ==> after[e] == edges[e] || after[e].lifecycle != Current
    requires forall e :: e in edges && Touches(edges[e], n.id) && after[e].lifecycle == Current ==>
               n.id in nodes && nodes[n.id].entityGeneration == n.entityGeneration
    ensures Bindings(nodes[n.id := n], after)
  {
  }

  lemma RefreshBound(s: State, n: Node, moved: bool, persisted: bool)
    requires StateBound(s) && n.id in s.graph.nodes
    requires moved <==> s.graph.nodes[n.id].entityGeneration != n.entityGeneration
    ensures StateBound(Refresh(s, n, moved, persisted).state)
  {
    hide Finish, FenceIncident, Bindings, FencedIds, Refiled, FiledBack;
    var g := s.graph;
    var edges := if moved then FenceIncident(g.edges, n.id, n.entityGeneration) else g.edges;
    FencedNotCurrent(g.edges, n.id, n.entityGeneration);
    RenewedNodeBound(g.nodes, g.edges, n, edges);
    if moved {
      var ids := FencedIds(g.edges, n.id, n.entityGeneration);
      var filed := Refiled(g.lookups, g.edges, ids);
      FinishBound(s, g.nodes[n.id := n], edges, filed, FiledBack(filed, g.edges, ids), persisted);
    } else {
      FinishBound(s, g.nodes[n.id := n], edges, g.lookups, g.lookups, persisted);
    }
  }

  lemma AddNodeBound(s: State, env: Env, c: Context, r: Request, persisted: bool)
    requires Shaped(s.graph) && StateBound(s) && r.AddNode?
    ensures StateBound(DoAddNode(s, env, c, r, persisted).state)
  {
    hide CheckAuthority, AuthorityOutcome, MetadataOk, Shaped, EntityClassOf, Finish, Refresh, Bindings;
    var g := s.graph;
    if Lookup(env, r.entity).Some? {
      var record := Lookup(env, r.entity).value;
      var id := if r.nodeId.Some? then r.nodeId.value else env.nodeIdOf(r.entity);
      if id in g.nodes {
        NodeFacts(g, id);
        RefreshBound(s, RefreshedNode(g, g.nodes[id], r, record),
                     g.nodes[id].entityGeneration != record.generation, persisted);
      } else {
        NoEdgeAtNewNode(g, id);
        var n := NewNode(g, c, id, r, record);
        RenewedNodeBound(g.nodes, g.edges, n, g.edges);
        FinishBound(s, g.nodes[id := n], g.edges, g.lookups, g.lookups, persisted);
      }
    }
  }

  lemma FencedNotCurrent(edges: Edges, n: NodeId, generation: Counter)
    ensures var after := FenceIncident(edges, n, generation);
            && after.Keys == edges.Keys
            && forall e :: e in edges ==> (after[e] == edges[e] || after[e].lifecycle != Current)
                                          && (Touches(edges[e], n) ==> after[e].lifecycle != Current)
  {
  }

  lemma ReissuedNotCurrent(edges: Edges, n: NodeId, generation: Counter)
    ensures var after := ReissueIncident(edges, n, generation);
            && after.Keys == edges.Keys
            && forall e :: e in edges ==> (after[e] == edges[e] || after[e].lifecycle != Current)
                                          && (Touches(edges[e], n) ==> after[e].lifecycle != Current)
  {
  }

  lemma NoEdgeAtNewNode(g: Graph, n: NodeId)
    requires Shaped(g) && n !in g.nodes
    ensures forall e :: e in g.edges ==> !Touches(g.edges[e], n)
  {
    hide AcyclicWhereRequired, EntitiesUnique, EdgesNormalized;
  }

  lemma RemoveNodeBound(s: State, c: Context, r: Request, persisted: bool)
    requires StateBound(s) && r.RemoveNode?
    ensures StateBound(DoRemoveNode(s, c, r, persisted).state)
  {
    hide CheckAuthority, AuthorityOutcome, Finish, Bindings, Delisted;
    var g, ids := s.graph, IncidentIds(s.graph.edges, r.node);
    var left := Delisted(g.lookups, g.edges, ids);
    WithoutNodeBound(g.nodes, g.edges, r.node);
    FinishBound(s, g.nodes - {r.node}, WithoutIncident(g.edges, r.node), left, FiledBack(left, g.edges, ids),
                persisted);
  }

  lemma WithoutNodeBound(nodes: Nodes, edges: Edges, n: NodeId)
    requires Bindings(nodes, edges)
    ensures Bindings(nodes - {n}, WithoutIncident(edges, n))
  {
  }

  lemma ApplyCandidateBound(s: State, c: Context, k: Candidate, persisted: bool)
    requires Shaped(s.graph) && StateBound(s) && k.from in s.graph.nodes && k.to in s.graph.nodes
    requires !Swapped(k.relation, k.from, k.to)
    ensures StateBound(ApplyCandidate(s, c, k, persisted).state)
  {
    hide Finish, FinishEdge, ValidateCandidate, SameStatement, Shaped, Bindings, EndpointsMatch, Enlist, Delist;
    var g := s.graph;
    var key := MakeKey(k.relation, k.from, k.to, k.domain);
    var e := NewEdge(g, c, k, RealEvidence, OperatorDeclaration);
    OneEdgeBound(g.nodes, g.edges, k.id, e);
    FinishBound(s, g.nodes, g.edges[k.id := e], Enlist(g.lookups, e), Delist(Enlist(g.lookups, e), e), persisted);
    FewerBound(g.nodes, g.edges, k.id);
    if k.id in g.edges && KeyOf(g.edges[k.id]) == key {
      SameEndpoints(g, k);
      FinishEdgeBound(s, k.id, RestatedEdge(g, g.edges[k.id], k), persisted);
    }
  }

  lemma SameEndpoints(g: Graph, k: Candidate)
    requires Shaped(g) && k.id in g.edges && !Swapped(k.relation, k.from, k.to)
    requires KeyOf(g.edges[k.id]) == MakeKey(k.relation, k.from, k.to, k.domain)
    ensures g.edges[k.id].from == k.from && g.edges[k.id].to == k.to
  {
    hide AcyclicWhereRequired, EntitiesUnique, EndpointsExist, Less;
  }

  lemma AddRelationshipBound(s: State, env: Env, c: Context, r: Request, persisted: bool)
    requires Shaped(s.graph) && StateBound(s) && r.AddRelationship?
    ensures StateBound(DoAddRelationship(s, env, c, r, persisted).state)
  {
    hide AddGuard, Asked, ApplyCandidate, StateBound, Shaped;
    if AddGuard(s, env, c, r) == Ok {
      AskedIsWellPlaced(s.graph, env, r);
      ApplyCandidateBound(s, c, Asked(s.graph, env, r).value, persisted);
    }
  }

  lemma ChangeEvidenceBound(s: State, env: Env, c: Context, id: EdgeId, evidence: Counter, lifecycle: Lifecycle,
                            expected: Counter,
                            expectedEdge: Counter, metadata: Option<Metadata>, persisted: bool)
    requires StateBound(s)
    ensures StateBound(ChangeEvidence(s, env, c, id, evidence, lifecycle, expected, expectedEdge, metadata,
        persisted).state)
  {
    hide CheckAuthority, AuthorityOutcome, RegistryMoved, FinishEdge, Bindings;
    var g := s.graph;
    if id in g.edges && (lifecycle == Current ==> CurrentnessBlocked(g, env, g.edges[id]) == Ok) {
      FinishEdgeBound(s, id, WithEvidence(g, c, g.edges[id], evidence, lifecycle, metadata), persisted);
    }
  }

  lemma SupersedeBound(s: State, c: Context, r: Request, persisted: bool)
    requires StateBound(s) && r.Supersede?
    ensures StateBound(DoSupersede(s, c, r, persisted).state)
  {
    hide CheckAuthority, AuthorityOutcome, FinishEdge, Bindings;
    if r.edge in s.graph.edges {
      FinishEdgeBound(s, r.edge, SupersededEdge(s.graph.edges[r.edge], r.replacement), persisted);
    }
  }

  lemma RetireBound(s: State, c: Context, r: Request, persisted: bool)
    requires StateBound(s) && r.Retire?
    ensures StateBound(DoRetire(s, c, r, persisted).state)
  {
    hide CheckAuthority, AuthorityOutcome, FinishEdge, Bindings;
    if r.edge in s.graph.edges {
      FinishEdgeBound(s, r.edge, RetiredEdge(s.graph.edges[r.edge]), persisted);
    }
  }

  lemma EdgeRequestBound(s: State, env: Env, c: Context, r: Request, persisted: bool)
    requires StateBound(s) && (r.UpdateEvidence? || r.Revalidate? || r.Supersede? || r.Retire?)
    ensures StateBound(Mutate(s, env, c, r, persisted).state)
  {
    hide StateBound, ChangeEvidence, DoSupersede, DoRetire, MetadataOk;
    match r
    case UpdateEvidence(edge, evidence, lifecycle, expected, expectedEdge, replace, metadata) =>
      ChangeEvidenceBound(s, env, c, edge, evidence, lifecycle, expected, expectedEdge,
                          if replace then Some(metadata) else None, persisted);
    case Revalidate(edge, evidence, expected) =>
      ChangeEvidenceBound(s, env, c, edge, evidence, Current, expected, 0, None, persisted);
    case Supersede(_, _, _) => SupersedeBound(s, c, r, persisted);
    case Retire(_, _) => RetireBound(s, c, r, persisted);
  }

  lemma MoveBound(s: State, env: Env, c: Context, r: Request, persisted: bool)
    requires StateBound(s) && r.MoveAttachment?
    ensures StateBound(DoMoveAttachment(s, env, c, r, persisted).state)
  {
    hide MoveGuard, Finish, Bindings, Enlist, Delist;
    var g := s.graph;
    if MoveGuard(s, env, c, r) == Ok {
      GuardsFindTheirTargets(s, env, c, r);
      FewerBound(g.nodes, g.edges, MovedCandidate(env, r, g.edges[r.edge]).id);
      var e := g.edges[r.edge];
      var k := MovedCandidate(env, r, e);
      MoveFrom(s, env, c, r);
      var e' := SupersededEdge(e, Some(k.id));
      var created := NewEdge(g, c, k, RealEvidence, OperatorDeclaration);
      OneEdgeBound(g.nodes, g.edges, r.edge, e');
      OneEdgeBound(g.nodes, g.edges[r.edge := e'], k.id, created);
      var filed := Enlist(Relist(g.lookups, e, e'), created);
      FinishBound(s, g.nodes, g.edges[r.edge := e'][k.id := created], filed, Relist(Delist(filed, created), e', e),
                  persisted);
    }
  }

  lemma MoveFrom(s: State, env: Env, c: Context, r: Request)
    requires r.MoveAttachment? && MoveGuard(s, env, c, r) == Ok && r.edge in s.graph.edges
    ensures s.graph.edges[r.edge].from in s.graph.nodes && r.target in s.graph.nodes
  {
    hide CheckAuthority, MetadataOk, ValidateCandidate;
  }

  lemma FewerBound(nodes: Nodes, edges: Edges, id: EdgeId)
    requires Bindings(nodes, edges)
    ensures Bindings(nodes, edges - {id})
  {
  }

  lemma ReplaceBound(s: State, env: Env, c: Context, r: Request, persisted: bool)
    requires Shaped(s.graph) && StateBound(s) && r.ReplaceEndpoint? && !LeavesBinding(s, env, c, r, persisted)
    ensures StateBound(DoReplaceEndpoint(s, env, c, r, persisted).state)
  {
    hide ReplaceGuard, Bindings, Shaped, ReissueIncident, Refiled, FiledBack, ReissuedIds;
    var g := s.graph;
    if ReplaceGuard(s, env, c, r) == Ok {
      GuardsFindTheirTargets(s, env, c, r);
      NodeFacts(g, r.node);
      var bound := BoundNode(env, g.nodes[r.node], r);
      var n := bound.(generation := Bump(g.nodes[r.node].generation), validated := g.generation);
      ReissuedNotCurrent(g.edges, r.node, bound.entityGeneration);
      RenewedNodeBound(g.nodes, g.edges, n, ReissueIncident(g.edges, r.node, bound.entityGeneration));
      var ids := ReissuedIds(g.edges, r.node);
      var filed := Refiled(g.lookups, g.edges, ids);
      FinishBound(s, g.nodes[r.node := n], ReissueIncident(g.edges, r.node, bound.entityGeneration), filed,
                  FiledBack(filed, g.edges, ids), persisted);
      assert bound == g.nodes[r.node] ==> g.nodes[r.node := bound] == g.nodes;
    }
  }

  lemma MutationBound(s: State, env: Env, c: Context, r: Request, persisted: bool)
    requires Shaped(s.graph) && StateBound(s)
    requires r.ReplaceEndpoint? ==> !LeavesBinding(s, env, c, r, persisted)
    ensures StateBound(Mutate(s, env, c, r, persisted).state)
  {
    hide StateBound, Shaped, LeavesBinding, DoAddNode, DoRemoveNode, DoAddRelationship, DoUpdateEvidence,
         ChangeEvidence, DoSupersede,
         DoRetire, DoMoveAttachment, DoReplaceEndpoint;
    if r.AddNode? {
      AddNodeBound(s, env, c, r, persisted);
    } else if r.RemoveNode? {
      RemoveNodeBound(s, c, r, persisted);
    } else if r.AddRelationship? {
      AddRelationshipBound(s, env, c, r, persisted);
    } else if r.MoveAttachment? {
      MoveBound(s, env, c, r, persisted);
    } else if r.ReplaceEndpoint? {
      ReplaceBound(s, env, c, r, persisted);
    } else {
      EdgeRequestBound(s, env, c, r, persisted);
    }
  }

  lemma PublicationBound(s: State, op: Op)
    requires StateBound(s) && op.Publication?
    ensures StateBound(Step(s, op))
  {
    hide Reconciled, PublishGuard, NodeValid, KeysUnique, SlotsExclusive, AcyclicWhereRequired, EndpointsPermitted,
         LayerPermitted,
         ScopeValid;
  }

  lemma FencingBound(s: State, op: Op)
    requires StateBound(s) && (op.FencingPublisher? || op.FencingBoot?)
    ensures StateBound(Step(s, op))
  {
    hide Mutate, Publish, ParentWalk, CommitDemotion, Bindings;
    var g := s.graph;
    if op.FencingPublisher? {
      DemotedBound(g, PublisherIds(g.edges, op.publisher), DemotePublisher(g.edges, op.publisher), op.persisted);
    } else {
      DemotedBound(g, BootIds(g.edges, op.boot), DemoteBoot(g.edges, op.boot), op.persisted);
    }
  }

  lemma AuthorityBound(s: State, op: Op)
    requires StateBound(s) && !op.Mutation? && !op.Publication?
    ensures StateBound(Step(s, op))
  {
    hide Mutate, Publish, ParentWalk, FencePublisher, FenceBoot, Bindings, Refiled, FiledBack;
    if op.FencingPublisher? || op.FencingBoot? {
      FencingBound(s, op);
    } else if op.AdvancingEpoch? {
      DemotedBound(s.graph, PublishedIds(s.graph.edges), DemotePublished(s.graph.edges), true);
    }
  }

  lemma DemotedBound(g: Graph, ids: set<EdgeId>, demoted: Edges, persisted: bool)
    requires Bindings(g.nodes, g.edges) && SomeDemoted(g.edges, demoted)
    ensures Bindings(g.nodes, demoted)
    ensures var after := CommitDemotion(g, ids, demoted, persisted).0; Bindings(after.nodes, after.edges)
  {
    hide Refiled, FiledBack;
  }

  /** The step is an endpoint replacement that fails and leaves its new binding behind. */
  ghost predicate BindsWithoutCommit(s: State, op: Op) {
    op.Mutation? && op.request.ReplaceEndpoint? && LeavesBinding(s, op.env, op.context, op.request, op.persisted)
  }

  lemma StepBound(s: State, op: Op)
    requires Coherent(s) && StateBound(s) && !BindsWithoutCommit(s, op)
    ensures StateBound(Step(s, op))
  {
    hide StateBound, Shaped, LeavesBinding, Mutate, Publish, FencePublisher, FenceBoot, AdvanceEpoch, Register,
         DefineDomain, DefineRule;
    if op.Mutation? {
      MutationBound(s, op.env, op.context, op.request, op.persisted);
    } else if op.Publication? {
      PublicationBound(s, op);
    } else {
      AuthorityBound(s, op);
    }
  }

  /** In every state of every run that no failed endpoint replacement precedes, what is
      current is bound to the entity generations its endpoints have now. */
  lemma {:induction false} RunsKeepBindings(states: seq<State>, ops: seq<Op>, i: nat)
    requires Run(states, ops) && Coherent(states[0]) && StateBound(states[0]) && i < |states|
    requires forall k :: 0 <= k < i ==> !BindsWithoutCommit(states[k], ops[k])
    ensures StateBound(states[i])
  {
    hide Coherent, Step, StateBound, BindsWithoutCommit;
    if i > 0 {
      RunsKeepBindings(states, ops, i - 1);
      RunsStayCoherent(states, ops, i - 1);
      StepBound(states[i - 1], ops[i - 1]);
    }
  }
}
