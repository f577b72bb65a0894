/** What every run keeps about names and scopes: nothing is nameless,
    rules are about declared scopes, nesting has no cycle. */
module NamingLaws {
  import opened Types
  import opened Paths
  import opened Graphs
  import opened Authority
  import opened AuthorityLaws
  import opened Mutations
  import opened MutationLaws
  import opened Reconcile
  import opened DraftLaws
  import opened PublishLaws
  import opened Runs
  import opened StampLaws

  ghost predicate NodesNamed(nodes: Nodes) {
    forall n :: n in nodes ==> n != "" && nodes[n].id != "" && nodes[n].entity != ""
  }

  ghost predicate EdgesNamed(edges: Edges) {
    forall e :: e in edges ==> e != "" && edges[e].relationship != ""
  }

  ghost predicate ScopesNamed(domains: map<DomainId, DomainDefinition>, rules: seq<CrossDomainRule>) {
    && (forall d :: d in domains ==> d != "" && domains[d].id == d)
    && (forall r :: r in rules ==> r.from in domains && r.to in domains)
  }

  /** Nothing in the graph goes by the empty name, and rules are about declared scopes. */
  ghost predicate Named(g: Graph) {
    NodesNamed(g.nodes) && EdgesNamed(g.edges) && ScopesNamed(g.domains, g.rules)
  }

  // ---- Scopes change only by declaration ------------------------------------------------------

  lemma MutationKeepsScopes(s: State, env: Env, c: Context, r: Request, persisted: bool)
    ensures var out := Mutate(s, env, c, r, persisted).state.graph;
            out.domains == s.graph.domains && out.rules == s.graph.rules
  {
    hide Mutate, DoMoveAttachment, DoReplaceEndpoint, DoAddRelationship, LeavesResidue;
    MutateIs(s, env, c, r, persisted);
    if r.MoveAttachment? {
      MoveStamped(s, env, c, r, persisted);
    } else if r.AddRelationship? {
      AddRelationshipStamped(s, env, c, r, persisted);
    } else if r.ReplaceEndpoint? {
      ReplaceStamped(s, env, c, r, persisted);
    } else {
      MutationStamped(s, env, c, r, persisted);
    }
  }

  lemma StepKeepsScopes(s: State, op: Op)
    ensures !op.DefiningDomain? ==> Step(s, op).graph.domains == s.graph.domains
    ensures !op.DefiningRule? ==> Step(s, op).graph.rules == s.graph.rules
  {
    hide Mutate, Publish, DemotePublisher, DemoteBoot, DemotePublished, ParentWalk, Refiled, FiledBack;
    if op.Mutation? {
      MutationKeepsScopes(s, op.env, op.context, op.request, op.persisted);
    } else if op.Publication? {
      PublishAllOrNothing(s, op.env, op.context, op.publication, op.nodes, op.edges, op.persisted);
    }
  }

  // ---- Nesting -----------------------------------------------------------------------------------

  /** Going up from scope to parent never comes back. */
  ghost predicate Nested(s: State) {
    "" !in s.graph.domains && Acyclic(ParentArcs(s.graph.domains))
  }

  /** In every state of every run the nesting of scopes has no cycle. */
  lemma {:induction false} RunsStayNested(states: seq<State>, ops: seq<Op>, i: nat)
    requires Run(states, ops) && Nested(states[0]) && i < |states|
    ensures Nested(states[i])
  {
    hide Mutate, Publish, Register, FencePublisher, FenceBoot, AdvanceEpoch, DefineDomain, DefineRule;
    if i > 0 {
      RunsStayNested(states, ops, i - 1);
      StepKeepsScopes(states[i - 1], ops[i - 1]);
      if ops[i - 1].DefiningDomain? {
        NestingStaysAcyclic(states[i - 1], ops[i - 1].env, ops[i - 1].definition);
      }
    }
  }

  // ---- Names: mutations ----------------------------------------------------------------------------

  ghost predicate StateNamed(s: State) {
    NodesNamed(s.graph.nodes) && EdgesNamed(s.graph.edges)
  }

  lemma FinishNamed(s: State, nodes: Nodes, edges: Edges, lookups: Lookups, undone: Lookups, persisted: bool)
    requires StateNamed(s) && NodesNamed(nodes) && EdgesNamed(edges)
    ensures StateNamed(Finish(s, nodes, edges, lookups, undone, persisted).state)
  {
    hide NodesNamed, EdgesNamed;
  }

  lemma FinishEdgeNamed(s: State, id: EdgeId, e: Edge, persisted: bool)
    requires StateNamed(s) && id in s.graph.edges && e.relationship != ""
    ensures StateNamed(FinishEdge(s, id, e, persisted).state)
  {
    hide NodesNamed, Finish, Enlist, Delist;
    var filed := Relist(s.graph.lookups, s.graph.edges[id], e);
    FinishNamed(s, s.graph.nodes, s.graph.edges[id := e], filed, Relist(filed, e, s.graph.edges[id]), persisted);
  }

  lemma FencedNamed(edges: Edges, n: NodeId, generation: Counter)
    requires EdgesNamed(edges)
    ensures EdgesNamed(FenceIncident(edges, n, generation)) && EdgesNamed(ReissueIncident(edges, n, generation))
  {
  }

  lemma RefreshNamed(s: State, n: Node, moved: bool, persisted: bool)
    requires StateNamed(s) && n.id != "" && n.entity != ""
    ensures StateNamed(Refresh(s, n, moved, persisted).state)
  {
    hide FenceIncident, Finish, EdgesNamed, FencedIds, Refiled, FiledBack;
    var g := s.graph;
    FencedNamed(g.edges, n.id, n.entityGeneration);
    var ids := FencedIds(g.edges, n.id, n.entityGeneration);
    var filed := Refiled(g.lookups, g.edges, ids);
    FinishNamed(s, g.nodes[n.id := n], g.edges, g.lookups, g.lookups, persisted);
    FinishNamed(s, g.nodes[n.id := n], FenceIncident(g.edges, n.id, n.entityGeneration), filed,
                FiledBack(filed, g.edges, ids), persisted);
  }

  lemma AddNodeNamed(s: State, env: Env, c: Context, r: Request, persisted: bool)
    requires StateNamed(s) && r.AddNode?
    ensures StateNamed(DoAddNode(s, env, c, r, persisted).state)
  {
    hide CheckAuthority, AuthorityOutcome, MetadataOk, Refresh, Finish, EdgesNamed, EntityClassOf;
    var g := s.graph;
    if Lookup(env, r.entity).Some? {
      var record := Lookup(env, r.entity).value;
      var id := if r.nodeId.Some? then r.nodeId.value else env.nodeIdOf(r.entity);
      if id != "" && r.entity != "" {
        if id in g.nodes {
          RefreshNamed(s, RefreshedNode(g, g.nodes[id], r, record), g.nodes[id].entityGeneration != record.generation,
                       persisted);
        } else {
          FinishNamed(s, g.nodes[id := NewNode(g, c, id, r, record)], g.edges, g.lookups, g.lookups, persisted);
        }
      }
    }
  }

  lemma ApplyCandidateNamed(s: State, c: Context, k: Candidate, persisted: bool)
    requires StateNamed(s) && k.from in s.graph.nodes && k.to in s.graph.nodes
    ensures StateNamed(ApplyCandidate(s, c, k, persisted).state)
  {
    hide ValidateCandidate, SameStatement, EndpointsMatch, NodesNamed, MakeKey, KeyOf, Finish, FinishEdge, Enlist,
         Delist;
    var g := s.graph;
    if k.id != "" && k.relationship != "" {
      var e := NewEdge(g, c, k, RealEvidence, OperatorDeclaration);
      FinishNamed(s, g.nodes, g.edges[k.id := e], Enlist(g.lookups, e), Delist(Enlist(g.lookups, e), e), persisted);
      if k.id in g.edges {
        FinishEdgeNamed(s, k.id, RestatedEdge(g, g.edges[k.id], k), persisted);
      }
    }
  }

  lemma AddRelationshipNamed(s: State, env: Env, c: Context, r: Request, persisted: bool)
    requires StateNamed(s) && r.AddRelationship?
    ensures StateNamed(DoAddRelationship(s, env, c, r, persisted).state)
  {
    hide AddGuard, Asked, ApplyCandidate, StateNamed;
    if AddGuard(s, env, c, r) == Ok {
      ApplyCandidateNamed(s, c, Asked(s.graph, env, r).value, persisted);
    }
  }

  lemma ChangeEvidenceNamed(s: State, env: Env, c: Context, id: EdgeId, evidence: Counter, lifecycle: Lifecycle,
                            expected: Counter, expectedEdge: Counter, metadata: Option<Metadata>, persisted: bool)
    requires StateNamed(s)
    ensures StateNamed(ChangeEvidence(s, env, c, id, evidence, lifecycle, expected, expectedEdge, metadata,
                                      persisted).state)
  {
    hide CheckAuthority, AuthorityOutcome, CurrentnessBlocked, NodesNamed, FinishEdge;
    if id in s.graph.edges {
      FinishEdgeNamed(s, id, WithEvidence(s.graph, c, s.graph.edges[id], evidence, lifecycle, metadata), persisted);
    }
  }

  lemma ClosingNamed(s: State, c: Context, r: Request, persisted: bool)
    requires StateNamed(s)
    ensures r.Supersede? ==> StateNamed(DoSupersede(s, c, r, persisted).state)
    ensures r.Retire? ==> StateNamed(DoRetire(s, c, r, persisted).state)
  {
    hide CheckAuthority, AuthorityOutcome, NodesNamed, FinishEdge;
    if r.Supersede? && r.edge in s.graph.edges {
      FinishEdgeNamed(s, r.edge, SupersededEdge(s.graph.edges[r.edge], r.replacement), persisted);
    } else if r.Retire? && r.edge in s.graph.edges {
      FinishEdgeNamed(s, r.edge, RetiredEdge(s.graph.edges[r.edge]), persisted);
    }
  }

  lemma RemoveNodeNamed(s: State, c: Context, r: Request, persisted: bool)
    requires StateNamed(s) && r.RemoveNode?
    ensures StateNamed(DoRemoveNode(s, c, r, persisted).state)
  {
    hide CheckAuthority, AuthorityOutcome, NodesNamed, EdgesNamed, Finish, Delisted, FiledBack;
    var g, ids := s.graph, IncidentIds(s.graph.edges, r.node);
    var left := Delisted(g.lookups, g.edges, ids);
    FewerNamed(g.nodes, g.edges, r.node);
    FinishNamed(s, g.nodes - {r.node}, WithoutIncident(g.edges, r.node), left, FiledBack(left, g.edges, ids),
                persisted);
  }

  lemma EdgeRequestNamed(s: State, env: Env, c: Context, r: Request, persisted: bool)
    requires StateNamed(s)
    requires r.UpdateEvidence? || r.Revalidate? || r.Supersede? || r.Retire? || r.RemoveNode?
    ensures StateNamed(Mutate(s, env, c, r, persisted).state)
  {
    hide MetadataOk, ChangeEvidence, DoSupersede, DoRetire, DoRemoveNode, StateNamed;
    match r
    case UpdateEvidence(edge, evidence, lifecycle, expected, expectedEdge, replace, metadata) =>
      ChangeEvidenceNamed(s, env, c, edge, evidence, lifecycle, expected, expectedEdge,
                          if replace then Some(metadata) else None, persisted);
    case Revalidate(edge, evidence, expected) =>
      ChangeEvidenceNamed(s, env, c, edge, evidence, Current, expected, 0, None, persisted);
    case RemoveNode(_, _, _) => RemoveNodeNamed(s, c, r, persisted);
    case _ => ClosingNamed(s, c, r, persisted);
  }

  lemma FewerNamed(nodes: Nodes, edges: Edges, n: NodeId)
    requires NodesNamed(nodes) && EdgesNamed(edges)
    ensures NodesNamed(nodes - {n}) && EdgesNamed(WithoutIncident(edges, n))
  {
  }

  lemma MoveNamed(s: State, env: Env, c: Context, r: Request, persisted: bool)
    requires StateNamed(s) && r.MoveAttachment?
    ensures StateNamed(DoMoveAttachment(s, env, c, r, persisted).state)
  {
    hide MoveGuard, NodesNamed, MovedCandidate, Enlist, Delist;
    GuardsFindTheirTargets(s, env, c, r);
    if MoveGuard(s, env, c, r) == Ok {
      MovedIsNamed(s, env, c, r);
    }
  }

  lemma MovedIsNamed(s: State, env: Env, c: Context, r: Request)
    requires r.MoveAttachment? && r.edge in s.graph.edges && MoveGuard(s, env, c, r) == Ok
    ensures var k := MovedCandidate(env, r, s.graph.edges[r.edge]);
            k.id != "" && k.relationship != "" && k.from in s.graph.nodes && k.to in s.graph.nodes
  {
    hide CheckAuthority, MetadataOk, AttachmentConflict, EndpointsPermitted;
  }

  lemma ReplaceNamed(s: State, env: Env, c: Context, r: Request, persisted: bool)
    requires StateNamed(s) && r.ReplaceEndpoint?
    ensures StateNamed(DoReplaceEndpoint(s, env, c, r, persisted).state)
  {
    hide CheckAuthority, ReissueIncident, EdgesNamed, Refiled, FiledBack, ReissuedIds;
    if r.node in s.graph.nodes {
      FencedNamed(s.graph.edges, r.node, BoundNode(env, s.graph.nodes[r.node], r).entityGeneration);
    }
  }

  lemma MutationNamed(s: State, env: Env, c: Context, r: Request, persisted: bool)
    requires StateNamed(s)
    ensures StateNamed(Mutate(s, env, c, r, persisted).state)
  {
    hide DoAddNode, DoRemoveNode, DoAddRelationship, DoUpdateEvidence, ChangeEvidence, DoSupersede, DoRetire,
         DoMoveAttachment, DoReplaceEndpoint, StateNamed;
    if r.AddNode? {
      AddNodeNamed(s, env, c, r, persisted);
    } else if r.AddRelationship? {
      AddRelationshipNamed(s, env, c, r, persisted);
    } else if r.MoveAttachment? {
      MoveNamed(s, env, c, r, persisted);
    } else if r.ReplaceEndpoint? {
      ReplaceNamed(s, env, c, r, persisted);
    } else {
      EdgeRequestNamed(s, env, c, r, persisted);
    }
  }

  // ---- Names: publications ---------------------------------------------------------------------------

  ghost predicate DraftNamed(d: Draft) {
    d.Draft? ==> (forall n :: n in d.g.nodes ==> n != "" && d.g.nodes[n].id != "") && EdgesNamed(d.g.edges)
  }

  lemma NodeEntryNamed(env: Env, c: Context, p: Header, d: Draft, o: ObservedNode)
    requires d.Draft? && DraftNamed(d) && ObservedId(env, o) != ""
    ensures DraftNamed(NodeEntry(env, c, p, d, o))
  {
    hide Lookup, NodeSettled, FindEntity, ReissueIncident, EdgesNamed, Refiled, ReissuedIds;
    if o.present && Lookup(env, o.entity).Some? {
      FencedNamed(d.g.edges, ObservedId(env, o), Lookup(env, o.entity).value.generation);
    }
  }

  lemma {:induction false} NodeEntriesNamed(env: Env, c: Context, p: Header, d: Draft, os: seq<ObservedNode>)
    requires DraftNamed(d) && forall o :: o in os ==> ObservedId(env, o) != ""
    ensures DraftNamed(NodeEntries(env, c, p, d, os))
  {
    hide NodeEntry, DraftNamed;
    if os != [] {
      var before := NodeEntries(env, c, p, d, os[..|os| - 1]);
      NodeEntriesNamed(env, c, p, d, os[..|os| - 1]);
      if before.Draft? {
        NodeEntryNamed(env, c, p, before, os[|os| - 1]);
      }
    }
  }

  lemma PresentEdgeNamed(env: Env, c: Context, p: Header, d: Draft, k: Candidate)
    requires d.Draft? && DraftNamed(d)
    ensures DraftNamed(PresentEdge(env, c, p, d, k))
  {
    hide ValidateCandidate, SameStatement, MakeKey, KeyOf, Enlist, Delist;
    var isNew := FindKey(d.g, MakeKey(k.relation, k.from, k.to, k.domain)).None?;
    if ValidateCandidate(d.g, k, isNew) == Ok {
      ValidCandidateFacts(d.g, k, isNew);
    }
  }

  lemma EdgeEntryNamed(env: Env, c: Context, p: Header, d: Draft, o: ObservedEdge)
    requires d.Draft? && DraftNamed(d)
    ensures DraftNamed(EdgeEntry(env, c, p, d, o))
  {
    hide PresentEdge, ObservedCandidate, MakeKey;
    if ResolveLayer(o.relation, o.layer).Some? {
      var noted := d.(keys := d.keys + {ObservedKey(p, o)});
      PresentEdgeNamed(env, c, p, noted, ObservedCandidate(env, p, o, ResolveLayer(o.relation, o.layer).value));
    }
  }

  lemma {:induction false} EdgeEntriesNamed(env: Env, c: Context, p: Header, d: Draft, os: seq<ObservedEdge>)
    requires DraftNamed(d)
    ensures DraftNamed(EdgeEntries(env, c, p, d, os))
  {
    hide EdgeEntry, DraftNamed;
    if os != [] {
      EdgeEntriesNamed(env, c, p, d, os[..|os| - 1]);
      var before := EdgeEntries(env, c, p, d, os[..|os| - 1]);
      if before.Draft? {
        EdgeEntryNamed(env, c, p, before, os[|os| - 1]);
      }
    }
  }

  lemma {:induction false} AbsencesNamed(p: Header, d: Draft, names: seq<RelId>)
    requires DraftNamed(d)
    ensures DraftNamed(Absences(p, d, names))
  {
    hide KeyOf, Delist, Enlist;
    if names != [] {
      AbsencesNamed(p, d, names[..|names| - 1]);
    }
  }

  lemma ReconciledNamed(env: Env, c: Context, p: Reconcile.Publication, g: Graph, nodes: seq<ObservedNode>,
                        edges: seq<ObservedEdge>)
    requires NodesNamed(g.nodes) && EdgesNamed(g.edges) && forall o :: o in nodes ==> ObservedId(env, o) != ""
    ensures DraftNamed(Reconciled(env, c, p, g, nodes, edges))
  {
    hide NodeEntries, EdgeEntries, Absences, Delisted;
    NodeEntriesNamed(env, c, p.head, FirstDraft(g), nodes);
    var a := NodeEntries(env, c, p.head, FirstDraft(g), nodes);
    EdgeEntriesNamed(env, c, p.head, a, edges);
    AbsencesNamed(p.head, EdgeEntries(env, c, p.head, a, edges), p.absences);
  }

  /** Every node entry has an identifier, its own or a derived one. */
  ghost predicate EntriesNamed(op: Op) {
    op.Publication? ==> forall o :: o in op.nodes ==> ObservedId(op.env, o) != ""
  }

  lemma PublicationNamed(s: State, op: Op)
    requires op.Publication? && Named(s.graph) && EntriesNamed(op)
    ensures Named(Step(s, op).graph)
  {
    hide Reconciled, EdgeValid, KeysUnique, SlotsExclusive, AcyclicWhereRequired, CheckAuthority, WellFormed,
         EdgesNamed,
         ScopesNamed, EntityClassOf, Record;
    var Publication(env, c, p, nodes, edges, persisted) := op;
    ReconciledOnlyTopology(env, c, p, s.graph, nodes, edges);
    ReconciledNamed(env, c, p, s.graph, nodes, edges);
  }

  // ---- Names: every step, every run --------------------------------------------------------------------

  lemma DemotedNamed(before: Edges, after: Edges)
    requires EdgesNamed(before) && SomeDemoted(before, after)
    ensures EdgesNamed(after)
  {
  }

  lemma CommittedDemotionNamed(g: Graph, ids: set<EdgeId>, demoted: Edges, persisted: bool)
    requires Named(g) && SomeDemoted(g.edges, demoted)
    ensures Named(CommitDemotion(g, ids, demoted, persisted).0)
  {
    hide NodesNamed, EdgesNamed, ScopesNamed, SomeDemoted, Refiled, FiledBack;
    DemotedNamed(g.edges, demoted);
  }

  lemma FencingNamed(s: State, op: Op)
    requires Named(s.graph) && (op.FencingPublisher? || op.FencingBoot?)
    ensures Named(Step(s, op).graph)
  {
    hide Mutate, Publish, ParentWalk, DemotePublisher, DemoteBoot, CommitDemotion, Named, SomeDemoted;
    var g := s.graph;
    if op.FencingPublisher? {
      DemotesSome(g.edges, op.publisher, "");
      CommittedDemotionNamed(g, PublisherIds(g.edges, op.publisher), DemotePublisher(g.edges, op.publisher),
                             op.persisted);
    } else {
      DemotesSome(g.edges, "", op.boot);
      CommittedDemotionNamed(g, BootIds(g.edges, op.boot), DemoteBoot(g.edges, op.boot), op.persisted);
    }
  }

  lemma AuthorityStepNamed(s: State, op: Op)
    requires Named(s.graph) && !op.Mutation? && !op.Publication? && !op.FencingPublisher? && !op.FencingBoot?
    ensures Named(Step(s, op).graph)
  {
    hide Mutate, Publish, ParentWalk, FencePublisher, FenceBoot, DemotePublished, NodesNamed, EdgesNamed, SomeDemoted,
         Refiled, FiledBack;
    if op.AdvancingEpoch? {
      DemotesSome(s.graph.edges, "", "");
      DemotedNamed(s.graph.edges, DemotePublished(s.graph.edges));
    }
  }

  lemma StepNamed(s: State, op: Op)
    requires Named(s.graph) && EntriesNamed(op)
    ensures Named(Step(s, op).graph)
  {
    hide Mutate, Publish, Register, FencePublisher, FenceBoot, AdvanceEpoch, DefineDomain, DefineRule, NodesNamed,
         EdgesNamed, ScopesNamed;
    if op.Mutation? {
      MutationKeepsScopes(s, op.env, op.context, op.request, op.persisted);
      MutationNamed(s, op.env, op.context, op.request, op.persisted);
    } else if op.Publication? {
      PublicationNamed(s, op);
    } else if op.FencingPublisher? || op.FencingBoot? {
      FencingNamed(s, op);
    } else {
      AuthorityStepNamed(s, op);
    }
  }

  /** In every state of every run whose node entries have identifiers, nothing goes by the empty name. */
  lemma {:induction false} RunsStayNamed(states: seq<State>, ops: seq<Op>, i: nat)
    requires Run(states, ops) && Named(states[0].graph) && i < |states|
    requires forall k :: 0 <= k < i ==> EntriesNamed(ops[k])
    ensures Named(states[i].graph)
  {
    hide Step, Named, EntriesNamed;
    if i > 0 {
      RunsStayNamed(states, ops, i - 1);
      StepNamed(states[i - 1], ops[i - 1]);
    }
  }
}
