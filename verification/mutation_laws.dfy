/** What every single-entity mutation keeps. */
module MutationLaws {
  import opened Types
  import opened Graphs
  import opened Authority
  import opened Mutations

  // ---- Small steps that keep a graph in order ----------------------------------------

  /** The graph stays shaped, and what was used once is used once. */
  ghost predicate KeepsOrder(g: Graph, h: Graph) {
    Shaped(h) && KeepsUnique(g.edges, h.edges)
  }

  /** Edges that keep their shape over nodes that keep their identity. */
  lemma ReshapedStaysShaped(g: Graph, nodes: Nodes, edges: Edges, generation: Counter)
    requires Shaped(g) && Reshaped(g.edges, edges)
    requires NodesFiled(nodes) && EntitiesUnique(nodes) && NodeScopesDeclared(nodes, g.domains.Keys)
    requires g.nodes.Keys <= nodes.Keys
    ensures Shaped(g.(nodes := nodes, edges := edges, generation := generation))
  {
    ReshapedKeepsEdges(g.edges, edges);
    assert forall e :: e in edges ==> SameShape(g.edges[e], edges[e]);
  }

  /** One edge keeps its shape; it may be renamed, to a name nothing else holds. */
  lemma OneEdgeKeepsOrder(g: Graph, id: EdgeId, e: Edge, generation: Counter)
    requires Shaped(g) && id in g.edges && SameShape(g.edges[id], e) && Ages(g.edges[id].lifecycle, e.lifecycle)
    requires g.edges[id].relationship == e.relationship
             || forall d :: d in g.edges && d != id ==> g.edges[d].relationship != e.relationship
    ensures KeepsOrder(g, g.(edges := g.edges[id := e], generation := generation))
    ensures EdgesAge(g.edges, g.edges[id := e])
  {
    hide EntitiesUnique, AcyclicWhereRequired;
    assert Reshaped(g.edges, g.edges[id := e]);
    ReshapedKeepsEdges(g.edges, g.edges[id := e]);
    ReshapedStaysShaped(g, g.nodes, g.edges[id := e], generation);
  }

  /** A new edge whose key is free; its name may be free or not. */
  lemma FiledEdgeStaysShaped(g: Graph, e: Edge, generation: Counter)
    requires Shaped(g) && e.id !in g.edges && Live(e) && !Swapped(e.relation, e.from, e.to)
    requires e.from in g.nodes && e.to in g.nodes
    requires e.domain in g.domains && (e.crossDomain ==> e.secondary in g.domains)
    requires !WouldCycle(g.edges, e.relation, e.from, e.to)
    ensures Shaped(g.(edges := g.edges[e.id := e], generation := generation))
    ensures EdgesAge(g.edges, g.edges[e.id := e])
  {
    hide EntitiesUnique, AcyclicWhereRequired, WouldCycle;
    NewEdgeStaysAcyclic(g.edges, e);
  }

  lemma FenceReshapes(edges: Edges, n: NodeId, generation: Counter)
    ensures Reshaped(edges, FenceIncident(edges, n, generation))
    ensures SameNames(edges, FenceIncident(edges, n, generation))
    ensures Reshaped(edges, ReissueIncident(edges, n, generation))
    ensures SameNames(edges, ReissueIncident(edges, n, generation))
  {
  }

  lemma ReshapedKeepsUnique(before: Edges, after: Edges)
    requires Reshaped(before, after) && SameNames(before, after)
    ensures KeepsUnique(before, after)
  {
    hide KeysUnique, RelationshipsUnique, AcyclicWhereRequired, EdgesFiled, EdgesNormalized, Reshaped;
    ReshapedKeepsEdges(before, after);
  }

  /** Filing or refreshing one node, while its edges keep their shape. */
  lemma PutNodeKeepsOrder(g: Graph, n: Node, edges: Edges, generation: Counter)
    requires Shaped(g) && n.domain in g.domains
    requires forall m :: m in g.nodes && m != n.id ==> g.nodes[m].entity != n.entity
    requires Reshaped(g.edges, edges) && SameNames(g.edges, edges)
    ensures KeepsOrder(g, g.(nodes := g.nodes[n.id := n], edges := edges, generation := generation))
  {
    hide AcyclicWhereRequired, EndpointsExist, EdgesNormalized, EdgeScopesDeclared, EdgesFiled, KeepsUnique, Reshaped,
         SameNames;
    ReshapedKeepsUnique(g.edges, edges);
    ReshapedStaysShaped(g, g.nodes[n.id := n], edges, generation);
  }

  lemma NodeFacts(g: Graph, n: NodeId)
    requires Shaped(g) && n in g.nodes
    ensures g.nodes[n].id == n && g.nodes[n].domain in g.domains
    ensures forall m :: m in g.nodes && m != n ==> g.nodes[m].entity != g.nodes[n].entity
  {
    hide AcyclicWhereRequired, EndpointsExist, EdgesNormalized, EdgeScopesDeclared, EdgesFiled;
  }

  lemma EdgeFacts(g: Graph, id: EdgeId)
    requires Shaped(g) && id in g.edges
    ensures g.edges[id].id == id
  {
    hide AcyclicWhereRequired, EntitiesUnique, NodesFiled, EndpointsExist, EdgesNormalized;
  }

  lemma FewerKeepsOrder(g: Graph, id: EdgeId)
    requires Shaped(g)
    ensures KeepsOrder(g, g.(edges := g.edges - {id}))
  {
    hide KeysUnique, RelationshipsUnique, AcyclicWhereRequired;
    FewerEdgesStaySound(g.edges, g.edges - {id});
  }

  lemma FewerNodesStaySound(g: Graph, n: NodeId)
    requires NodesFiled(g.nodes) && EntitiesUnique(g.nodes) && NodeScopesDeclared(g.nodes, g.domains.Keys)
    requires EndpointsExist(g.nodes, g.edges) && EdgeScopesDeclared(g.edges, g.domains.Keys)
    ensures var nodes, edges := g.nodes - {n}, WithoutIncident(g.edges, n);
            && NodesFiled(nodes) && EntitiesUnique(nodes) && NodeScopesDeclared(nodes, g.domains.Keys)
            && EndpointsExist(nodes, edges) && EdgeScopesDeclared(edges, g.domains.Keys)
  {
  }

  lemma RemovedNodeKeepsOrder(g: Graph, n: NodeId, generation: Counter)
    requires Shaped(g)
    ensures KeepsOrder(g, g.(nodes := g.nodes - {n}, edges := WithoutIncident(g.edges, n), generation := generation))
  {
    hide KeysUnique, RelationshipsUnique, AcyclicWhereRequired, EdgesFiled, EdgesNormalized, NodesFiled, EntitiesUnique,
         NodeScopesDeclared, EdgeScopesDeclared, EndpointsExist;
    FewerEdgesStaySound(g.edges, WithoutIncident(g.edges, n));
    FewerNodesStaySound(g, n);
  }

  // ---- The laws, operation by operation -----------------------------------------------

  /** The graph stays shaped, no edge is revived, and only the graph may have changed. */
  ghost predicate Lawful(s: State, after: State) {
    Shaped(after.graph) && EdgesAge(s.graph.edges, after.graph.edges) && after == s.(graph := after.graph)
    && after.graph
       == s.graph.(nodes := after.graph.nodes, edges := after.graph.edges, lookups := after.graph.lookups,
                   generation := after.graph.generation)
  }

  /** Moreover, what was used once is used once. */
  ghost predicate Orderly(s: State, after: State) {
    Lawful(s, after) && KeepsUnique(s.graph.edges, after.graph.edges)
  }

  lemma StandingStillIsOrderly(s: State)
    requires Shaped(s.graph)
    ensures Orderly(s, s)
  {
    hide Shaped, KeysUnique, RelationshipsUnique;
  }

  /** What the lookups find has no part in the shape of a graph. */
  lemma ShapedAnyLookups(g: Graph)
    ensures forall l :: Shaped(g.(lookups := l)) <==> Shaped(g)
  {
    hide AcyclicWhereRequired, EntitiesUnique, EndpointsExist, EdgesNormalized, EdgeScopesDeclared, NodeScopesDeclared,
         NodesFiled, EdgesFiled;
  }

  /** Finishing with a graph in order is orderly, whether or not it becomes durable. */
  lemma FinishOrderly(s: State, nodes: Nodes, edges: Edges, lookups: Lookups, undone: Lookups, persisted: bool)
    requires Shaped(s.graph) && EdgesAge(s.graph.edges, edges)
    requires KeepsOrder(s.graph, s.graph.(nodes := nodes, edges := edges, generation := Bump(s.graph.generation)))
    ensures Orderly(s, Finish(s, nodes, edges, lookups, undone, persisted).state)
  {
    hide Shaped, KeysUnique, RelationshipsUnique;
    ShapedAnyLookups(s.graph);
    ShapedAnyLookups(s.graph.(nodes := nodes, edges := edges, generation := Bump(s.graph.generation)));
  }

  lemma AddNodeOrderly(s: State, env: Env, c: Context, r: Request, persisted: bool)
    requires Shaped(s.graph) && r.AddNode?
    ensures Orderly(s, DoAddNode(s, env, c, r, persisted).state)
  {
    hide CheckAuthority, AuthorityOutcome, MetadataOk, FenceIncident, Shaped, EntityClassOf, NewNode, RefreshedNode,
         Reshaped, SameNames, EdgesAge, Finish, Refresh, Orderly, KeepsOrder;
    StandingStillIsOrderly(s);
    var g := s.graph;
    if Lookup(env, r.entity).Some? && r.domain in g.domains {
      var record := Lookup(env, r.entity).value;
      var id := if r.nodeId.Some? then r.nodeId.value else env.nodeIdOf(r.entity);
      FenceReshapes(g.edges, id, record.generation);
      ReshapedAges(g.edges, FenceIncident(g.edges, id, record.generation));
      Unreshaped(g.edges);
      ReshapedAges(g.edges, g.edges);
      if id in g.nodes && g.nodes[id].entity == r.entity {
        var n := RefreshedNode(g, g.nodes[id], r, record);
        NodeFacts(g, id);
        NodeNames(g, c, id, r, record);
        var edges := if g.nodes[id].entityGeneration != record.generation
                     then FenceIncident(g.edges, id, record.generation) else g.edges;
        PutNodeKeepsOrder(g, n, edges, Bump(g.generation));
        RefreshOrderly(s, n, g.nodes[id].entityGeneration != record.generation, persisted);
      } else if id !in g.nodes && FindEntity(g.nodes, r.entity).None? {
        NodeNames(g, c, id, r, record);
        PutNodeKeepsOrder(g, NewNode(g, c, id, r, record), g.edges, Bump(g.generation));
        FinishOrderly(s, g.nodes[id := NewNode(g, c, id, r, record)], g.edges, g.lookups, g.lookups, persisted);
      }
    }
  }

  lemma RefreshOrderly(s: State, n: Node, moved: bool, persisted: bool)
    requires Shaped(s.graph)
    requires var edges := if moved then FenceIncident(s.graph.edges, n.id, n.entityGeneration) else s.graph.edges;
             && EdgesAge(s.graph.edges, edges)
             && KeepsOrder(s.graph, s.graph.(nodes := s.graph.nodes[n.id := n], edges := edges,
                                             generation := Bump(s.graph.generation)))
    ensures Orderly(s, Refresh(s, n, moved, persisted).state)
  {
    hide Shaped, Orderly, KeepsOrder, EdgesAge, FenceIncident, Finish;
    var g := s.graph;
    if moved {
      var ids := FencedIds(g.edges, n.id, n.entityGeneration);
      var filed := Refiled(g.lookups, g.edges, ids);
      FinishOrderly(s, g.nodes[n.id := n], FenceIncident(g.edges, n.id, n.entityGeneration), filed,
                    FiledBack(filed, g.edges, ids), persisted);
    } else {
      FinishOrderly(s, g.nodes[n.id := n], g.edges, g.lookups, g.lookups, persisted);
    }
  }

  lemma NodeNames(g: Graph, c: Context, id: NodeId, r: Request, record: EntityRecord)
    requires r.AddNode?
    ensures var n := NewNode(g, c, id, r, record); n.id == id && n.entity == r.entity && n.domain == r.domain
    ensures forall m :: var n := RefreshedNode(g, m, r, record);
                        && n.id == m.id && n.entity == m.entity && n.domain == m.domain
                        && n.entityGeneration == record.generation
  {
  }

  lemma ReshapedAges(before: Edges, after: Edges)
    requires Reshaped(before, after)
    ensures EdgesAge(before, after)
  {
  }

  lemma Unreshaped(edges: Edges)
    ensures Reshaped(edges, edges) && SameNames(edges, edges)
  {
  }

  lemma RemoveNodeOrderly(s: State, c: Context, r: Request, persisted: bool)
    requires Shaped(s.graph) && r.RemoveNode?
    ensures Orderly(s, DoRemoveNode(s, c, r, persisted).state)
  {
    hide CheckAuthority, AuthorityOutcome, Shaped, Orderly, KeepsOrder, Finish, EdgesAge, WithoutIncident, Delisted;
    StandingStillIsOrderly(s);
    RemovedNodeKeepsOrder(s.graph, r.node, Bump(s.graph.generation));
    var g, ids := s.graph, IncidentIds(s.graph.edges, r.node);
    var left := Delisted(g.lookups, g.edges, ids);
    RemovedAge(g.edges, r.node);
    FinishOrderly(s, g.nodes - {r.node}, WithoutIncident(g.edges, r.node), left, FiledBack(left, g.edges, ids),
                  persisted);
  }

  lemma RemovedAge(edges: Edges, n: NodeId)
    ensures EdgesAge(edges, WithoutIncident(edges, n))
  {
  }

  // ---- Adding a relationship --------------------------------------------------------------

  /** No other edge is stored for the relationship the candidate describes. */
  ghost predicate KeyOnlyFor(edges: Edges, k: Candidate) {
    forall d :: d in edges && d != k.id ==> KeyOf(edges[d]) != MakeKey(k.relation, k.from, k.to, k.domain)
  }

  /** No other edge goes by the candidate's name. */
  ghost predicate NameOnlyFor(edges: Edges, k: Candidate) {
    forall d :: d in edges && d != k.id ==> edges[d].relationship != k.relationship
  }

  lemma RestatedStaysShaped(g: Graph, k: Candidate, generation: Counter)
    requires Shaped(g) && k.from in g.nodes && k.to in g.nodes && k.id in g.edges && Live(g.edges[k.id])
    ensures var e := RestatedEdge(g, g.edges[k.id], k);
            && e.id == k.id && EdgesAge(g.edges, g.edges[k.id := e]) && Reshaped(g.edges, g.edges[k.id := e])
            && Shaped(g.(edges := g.edges[k.id := e], generation := generation))
  {
    hide EntitiesUnique, AcyclicWhereRequired, EndpointsExist, EdgesNormalized, NodesFiled, NodeScopesDeclared;
    var after := g.edges[k.id := RestatedEdge(g, g.edges[k.id], k)];
    assert Reshaped(g.edges, after);
    ReshapedKeepsEdges(g.edges, after);
    ReshapedStaysShaped(g, g.nodes, after, generation);
  }

  lemma NewEdgeStaysShaped(g: Graph, c: Context, k: Candidate, generation: Counter)
    requires Shaped(g) && k.from in g.nodes && k.to in g.nodes && !Swapped(k.relation, k.from, k.to) && k.id !in g.edges
    requires k.domain in g.domains && (k.crossDomain ==> k.secondary in g.domains)
    requires ValidateCandidate(g, k, true) == Ok
    ensures var e := NewEdge(g, c, k, RealEvidence, OperatorDeclaration);
            && e.id == k.id && EdgesAge(g.edges, g.edges[k.id := e])
            && Shaped(g.(edges := g.edges[k.id := e], generation := generation))
  {
    hide Shaped, WouldCycle, AttachmentConflict, EndpointsPermitted, LayerPermitted, Less;
    FiledEdgeStaysShaped(g, NewEdge(g, c, k, RealEvidence, OperatorDeclaration), generation);
  }

  /** An edge put in place of one with its key, or of none, stands for a relationship once
      exactly when no other edge does, and goes by a name of its own exactly when no other edge has it. */
  lemma PutEdgeUnique(edges: Edges, k: Candidate, e: Edge)
    requires e.relationship == k.relationship && KeyOf(e) == MakeKey(k.relation, k.from, k.to, k.domain)
    ensures KeysUnique(edges) ==> (KeysUnique(edges[k.id := e]) <==> KeyOnlyFor(edges, k))
    ensures RelationshipsUnique(edges) ==> (RelationshipsUnique(edges[k.id := e]) <==> NameOnlyFor(edges, k))
  {
    hide KeyOf, MakeKey;
    var after := edges[k.id := e];
    assert after[k.id] == e && forall d :: d in edges && d != k.id ==> d in after && after[d] == edges[d];
  }

  /** What a step does to uniqueness: nothing, unless it commits. */
  ghost predicate UniqueExactly(before: Edges, after: Edges, sparesKeys: bool, sparesNames: bool) {
    && (KeysUnique(before) ==> (KeysUnique(after) <==> sparesKeys))
    && (RelationshipsUnique(before) ==> (RelationshipsUnique(after) <==> sparesNames))
  }

  lemma OrderlyIsUnique(s: State, after: State)
    requires Orderly(s, after)
    ensures Lawful(s, after) && UniqueExactly(s.graph.edges, after.graph.edges, true, true)
  {
    hide Lawful, KeysUnique, RelationshipsUnique;
  }

  /** The identity and validation checks have passed, and something is to be stored. */
  lemma PutCandidateLawful(s: State, k: Candidate, e: Edge, lookups: Lookups, undone: Lookups, persisted: bool)
    requires Shaped(s.graph) && EdgesAge(s.graph.edges, s.graph.edges[k.id := e])
    requires Shaped(s.graph.(edges := s.graph.edges[k.id := e], generation := Bump(s.graph.generation)))
    requires e.relationship == k.relationship && KeyOf(e) == MakeKey(k.relation, k.from, k.to, k.domain)
    ensures var out := Finish(s, s.graph.nodes, s.graph.edges[k.id := e], lookups, undone, persisted);
            && Lawful(s, out.state)
            && UniqueExactly(s.graph.edges, out.state.graph.edges,
                             out.verdict == Committed ==> KeyOnlyFor(s.graph.edges, k),
                             out.verdict == Committed ==> NameOnlyFor(s.graph.edges, k))
  {
    hide Shaped, KeysUnique, RelationshipsUnique, KeyOf, MakeKey, KeyOnlyFor, NameOnlyFor, EdgesAge;
    ShapedAnyLookups(s.graph);
    ShapedAnyLookups(s.graph.(edges := s.graph.edges[k.id := e], generation := Bump(s.graph.generation)));
    SameAge(s.graph.edges);
    PutEdgeUnique(s.graph.edges, k, e);
  }

  lemma SameAge(edges: Edges)
    ensures EdgesAge(edges, edges)
  {
  }

  lemma FailedFilingLawful(s: State, id: EdgeId)
    requires Shaped(s.graph) && id in s.graph.edges
    ensures Orderly(s, FailedFiling(s, id).state)
  {
    hide Shaped, KeysUnique, RelationshipsUnique, EdgesAge;
    FewerKeepsOrder(s.graph, id);
    FewerAge(s.graph.edges, id);
    ShapedAnyLookups(s.graph.(edges := s.graph.edges - {id}));
  }

  lemma KeyOfRestated(g: Graph, k: Candidate)
    requires k.from in g.nodes && k.to in g.nodes && k.id in g.edges
    ensures KeyOf(RestatedEdge(g, g.edges[k.id], k)) == KeyOf(g.edges[k.id])
    ensures RestatedEdge(g, g.edges[k.id], k).relationship == k.relationship
  {
    hide MakeKey;
  }

  lemma KeyOfNew(g: Graph, c: Context, k: Candidate)
    requires k.from in g.nodes && k.to in g.nodes
    ensures KeyOf(NewEdge(g, c, k, RealEvidence, OperatorDeclaration)) == MakeKey(k.relation, k.from, k.to, k.domain)
    ensures NewEdge(g, c, k, RealEvidence, OperatorDeclaration).relationship == k.relationship
    ensures NewEdge(g, c, k, RealEvidence, OperatorDeclaration).id == k.id
  {
    hide MakeKey;
  }

  /** Storing a relationship keeps the graph shaped, and duplicates a key or a name exactly
      when it commits although another edge, which the lookup does not find, has it. */
  lemma ApplyCandidateLawful(s: State, c: Context, k: Candidate, persisted: bool)
    requires Shaped(s.graph) && k.from in s.graph.nodes && k.to in s.graph.nodes && !Swapped(k.relation, k.from, k.to)
    requires k.domain in s.graph.domains && (k.crossDomain ==> k.secondary in s.graph.domains)
    ensures var out := ApplyCandidate(s, c, k, persisted);
            && Lawful(s, out.state)
            && UniqueExactly(s.graph.edges, out.state.graph.edges,
                             out.verdict == Committed ==> KeyOnlyFor(s.graph.edges, k),
                             out.verdict == Committed ==> NameOnlyFor(s.graph.edges, k))
  {
    hide Shaped, Orderly, Lawful, Finish, ValidateCandidate, SameStatement, EndpointsMatch, RestatedEdge, NewEdge,
         MakeKey, KeyOf, EdgesAge, UniqueExactly, KeyOnlyFor, NameOnlyFor, Enlist, Delist;
    StandingStillIsOrderly(s);
    OrderlyIsUnique(s, s);
    var g := s.graph;
    var key := MakeKey(k.relation, k.from, k.to, k.domain);
    var byKey := FindKey(g, key);
    if byKey.Some? && byKey.value == k.id && Live(g.edges[k.id]) {
      RestatedStaysShaped(g, k, Bump(g.generation));
      KeyOfRestated(g, k);
      var e := RestatedEdge(g, g.edges[k.id], k);
      var filed := Relist(g.lookups, g.edges[k.id], e);
      PutCandidateLawful(s, k, e, filed, Relist(filed, e, g.edges[k.id]), persisted);
    } else if byKey.None? && k.id in g.edges {
      FailedFilingLawful(s, k.id);
      OrderlyIsUnique(s, FailedFiling(s, k.id).state);
    } else if byKey.None? && ValidateCandidate(g, k, true) == Ok {
      NewEdgeStaysShaped(g, c, k, Bump(g.generation));
      KeyOfNew(g, c, k);
      var e := NewEdge(g, c, k, RealEvidence, OperatorDeclaration);
      PutCandidateLawful(s, k, e, Enlist(g.lookups, e), Delist(Enlist(g.lookups, e), e), persisted);
    }
  }

  lemma AskedIsWellPlaced(g: Graph, env: Env, r: Request)
    requires Shaped(g) && r.AddRelationship? && Asked(g, env, r).Some?
    ensures var k := Asked(g, env, r).value;
            && k.relation == r.relation && !Swapped(k.relation, k.from, k.to)
            && k.domain in g.domains && (k.crossDomain ==> k.secondary in g.domains)
  {
    hide AcyclicWhereRequired, EdgesFiled, EndpointsExist, EdgesNormalized, EdgeScopesDeclared, EntitiesUnique,
         NodesFiled, Less;
  }

  /** No edge, not even the one that moves, stands for the relationship with the target. */
  ghost predicate MovedKeyFree(g: Graph, r: Request)
    requires r.MoveAttachment?
  {
    r.edge in g.edges ==>
      forall d :: d in g.edges ==>
        KeyOf(g.edges[d]) != MakeKey(AttachedTo, g.edges[r.edge].from, r.target, g.edges[r.edge].domain)
  }

  /** Nothing holds the name that is derived for the relationship with the target. */
  ghost predicate MovedNameFree(g: Graph, env: Env, r: Request)
    requires r.MoveAttachment?
  {
    r.edge in g.edges ==>
      forall d :: d in g.edges ==> g.edges[d].relationship != MovedCandidate(env, r, g.edges[r.edge]).relationship
  }

  ghost predicate MoveIsClean(g: Graph, env: Env, r: Request)
    requires r.MoveAttachment?
  {
    MovedKeyFree(g, r) && MovedNameFree(g, env, r)
  }

  /** A committed request duplicates a relationship when an edge that the lookup does not find, or the moved edge
      itself, already stands for it. */
  ghost predicate SparesKeys(s: State, env: Env, r: Request, verdict: Verdict) {
    verdict == Committed ==>
      && (r.MoveAttachment? ==> MovedKeyFree(s.graph, r))
      && (r.AddRelationship? && Asked(s.graph, env, r).Some? ==>
            KeyOnlyFor(s.graph.edges, Asked(s.graph, env, r).value))
  }

  /** A committed request duplicates a name when an edge that the lookup does not find, or that a move does not look
      for, already goes by it. */
  ghost predicate SparesNames(s: State, env: Env, r: Request, verdict: Verdict) {
    verdict == Committed ==>
      && (r.MoveAttachment? ==> MovedNameFree(s.graph, env, r))
      && (r.AddRelationship? && Asked(s.graph, env, r).Some? ==>
            NameOnlyFor(s.graph.edges, Asked(s.graph, env, r).value))
  }

  lemma AddRelationshipLawful(s: State, env: Env, c: Context, r: Request, persisted: bool)
    requires Shaped(s.graph) && r.AddRelationship?
    ensures var out := DoAddRelationship(s, env, c, r, persisted);
            && Lawful(s, out.state)
            && UniqueExactly(s.graph.edges, out.state.graph.edges, SparesKeys(s, env, r, out.verdict),
                             SparesNames(s, env, r, out.verdict))
  {
    hide AddGuard, Asked, ApplyCandidate, Shaped, Lawful, UniqueExactly, KeyOnlyFor, NameOnlyFor;
    StandingStillIsOrderly(s);
    OrderlyIsUnique(s, s);
    if AddGuard(s, env, c, r) == Ok {
      AskedIsWellPlaced(s.graph, env, r);
      ApplyCandidateLawful(s, c, Asked(s.graph, env, r).value, persisted);
    }
  }

  /** A committed addition keeps the graph sound exactly when no other edge stands for the relationship or goes by the
      name; whatever does so is missed by the lookups. */
  lemma AddSoundExactlyWhenNothingMissed(s: State, env: Env, c: Context, r: Request, persisted: bool)
    requires Sound(s.graph) && r.AddRelationship?
    requires DoAddRelationship(s, env, c, r, persisted).verdict == Committed
    ensures Asked(s.graph, env, r).Some?
    ensures var k := Asked(s.graph, env, r).value;
            && (Sound(DoAddRelationship(s, env, c, r, persisted).state.graph)
                <==> KeyOnlyFor(s.graph.edges, k) && NameOnlyFor(s.graph.edges, k))
            && (forall d :: d in s.graph.edges && d != k.id ==>
                  FindKey(s.graph, MakeKey(k.relation, k.from, k.to, k.domain)) != Some(d)
                  && FindRelationship(s.graph, k.relationship) != Some(d))
  {
    hide AddGuard, Asked, Shaped, KeysUnique, RelationshipsUnique, EdgesAge, KeyOnlyFor, NameOnlyFor, ApplyCandidate;
    AddRelationshipLawful(s, env, c, r, persisted);
    CommittedAddMisses(s, c, Asked(s.graph, env, r).value, persisted);
  }

  lemma CommittedAddMisses(s: State, c: Context, k: Candidate, persisted: bool)
    requires k.from in s.graph.nodes && k.to in s.graph.nodes
    requires ApplyCandidate(s, c, k, persisted).verdict == Committed
    ensures forall d :: d != k.id ==>
              FindKey(s.graph, MakeKey(k.relation, k.from, k.to, k.domain)) != Some(d)
              && FindRelationship(s.graph, k.relationship) != Some(d)
  {
    hide FindKey, FindRelationship, MakeKey, KeyOf, ValidateCandidate, SameStatement, EndpointsMatch, FinishEdge,
         FinishNewEdge, FailedFiling;
  }

  /** Adding a relationship erases an edge although it does not commit: the edge has the identifier and the key that
      were asked for, the lookup does not find it, and everything else was in order. */
  ghost predicate ErasesUnlisted(s: State, env: Env, c: Context, r: Request)
    requires r.AddRelationship?
  {
    && AddGuard(s, env, c, r) == Ok
    && var g, k := s.graph, Asked(s.graph, env, r).value;
       var key := MakeKey(k.relation, k.from, k.to, k.domain);
       var byRelationship := FindRelationship(g, k.relationship);
       && k.id in g.edges && KeyOf(g.edges[k.id]) == key && FindKey(g, key).None?
       && (byRelationship.None? || byRelationship.value == k.id)
       && ValidateCandidate(g, k, true) == Ok
  }

  /** Nothing but the lookups differs. */
  ghost predicate OnlyLookups(s: State, t: State) {
    t == WithLookups(s, t.graph.lookups)
  }

  /** An addition that does not commit leaves the topology alone exactly when it does not erase an unlisted edge. */
  lemma AddIsAtomicExactlyWhenListed(s: State, env: Env, c: Context, r: Request, persisted: bool)
    requires r.AddRelationship?
    ensures var out := DoAddRelationship(s, env, c, r, persisted);
            && (ErasesUnlisted(s, env, c, r) ==> out.verdict.Refused?)
            && (out.verdict != Committed ==> (OnlyLookups(s, out.state) <==> !ErasesUnlisted(s, env, c, r)))
  {
    hide AddGuard, Asked, SameStatement, RestatedEdge, NewEdge, KeyOf, MakeKey, EndpointsMatch, AttachmentConflict,
         WouldCycle, Enlist, Delist;
    if ErasesUnlisted(s, env, c, r) {
      var k := Asked(s.graph, env, r).value;
      assert k.id !in s.graph.edges - {k.id};
    }
  }

  /** Replacing one edge by one of the same shape and name. */
  lemma FinishOneEdge(s: State, id: EdgeId, e: Edge, persisted: bool)
    requires Shaped(s.graph) && id in s.graph.edges && SameShape(s.graph.edges[id], e)
    requires Ages(s.graph.edges[id].lifecycle, e.lifecycle) && s.graph.edges[id].relationship == e.relationship
    ensures Orderly(s, FinishEdge(s, id, e, persisted).state)
  {
    hide Shaped, Orderly, KeepsOrder, EdgesAge, Finish, Enlist, Delist;
    OneEdgeKeepsOrder(s.graph, id, e, Bump(s.graph.generation));
    var filed := Relist(s.graph.lookups, s.graph.edges[id], e);
    FinishOrderly(s, s.graph.nodes, s.graph.edges[id := e], filed, Relist(filed, e, s.graph.edges[id]), persisted);
  }

  lemma ChangeEvidenceOrderly(s: State, env: Env, c: Context, id: EdgeId, evidence: Counter, lifecycle: Lifecycle,
                              expected: Counter, expectedEdge: Counter, metadata: Option<Metadata>, persisted: bool)
    requires Shaped(s.graph)
    ensures Orderly(s, ChangeEvidence(s, env, c, id, evidence, lifecycle, expected, expectedEdge, metadata,
                                      persisted).state)
  {
    hide CheckAuthority, AuthorityOutcome, MetadataOk, CurrentnessBlocked, FinishEdge, Orderly, Shaped;
    StandingStillIsOrderly(s);
    if id in s.graph.edges && !Dead(s.graph.edges[id].lifecycle) {
      FinishOneEdge(s, id, WithEvidence(s.graph, c, s.graph.edges[id], evidence, lifecycle, metadata), persisted);
    }
  }

  lemma SupersedeOrderly(s: State, c: Context, r: Request, persisted: bool)
    requires Shaped(s.graph) && r.Supersede?
    ensures Orderly(s, DoSupersede(s, c, r, persisted).state)
  {
    hide CheckAuthority, AuthorityOutcome, FinishEdge, Orderly, Shaped;
    StandingStillIsOrderly(s);
    if r.edge in s.graph.edges && s.graph.edges[r.edge].lifecycle != Lifecycle.Retired {
      FinishOneEdge(s, r.edge, SupersededEdge(s.graph.edges[r.edge], r.replacement), persisted);
    }
  }

  lemma RetireOrderly(s: State, c: Context, r: Request, persisted: bool)
    requires Shaped(s.graph) && r.Retire?
    ensures Orderly(s, DoRetire(s, c, r, persisted).state)
  {
    hide CheckAuthority, AuthorityOutcome, FinishEdge, Orderly, Shaped;
    StandingStillIsOrderly(s);
    if r.edge in s.graph.edges {
      FinishOneEdge(s, r.edge, RetiredEdge(s.graph.edges[r.edge]), persisted);
    }
  }

  // ---- Moving an attachment --------------------------------------------------------------

  lemma GuardsFindTheirTargets(s: State, env: Env, c: Context, r: Request)
    ensures r.MoveAttachment? && MoveGuard(s, env, c, r) == Ok ==> r.edge in s.graph.edges && r.target in s.graph.nodes
    ensures r.ReplaceEndpoint? && ReplaceGuard(s, env, c, r) == Ok ==> r.node in s.graph.nodes
  {
    hide CheckAuthority, MetadataOk, ValidateCandidate;
  }

  /** What passing the guard tells about the two edges of a move. */
  lemma MovedEdgeFits(s: State, env: Env, c: Context, r: Request)
    requires Shaped(s.graph) && r.MoveAttachment? && MoveGuard(s, env, c, r) == Ok && r.edge in s.graph.edges
    ensures var e := s.graph.edges[r.edge];
            var k := MovedCandidate(env, r, e);
            && e.id == r.edge && e.lifecycle == Current && e.relation == AttachedTo && e.domain in s.graph.domains
            && k.from == e.from && k.to == r.target && k.domain == e.domain && k.relation == AttachedTo
            && k.from in s.graph.nodes && k.to in s.graph.nodes && !k.crossDomain && k.id != "" && k.relationship != ""
  {
    hide CheckAuthority, MetadataOk, AcyclicWhereRequired, Less, EntitiesUnique, NodesFiled, NodeScopesDeclared,
         EdgesNormalized, AttachmentConflict, EndpointsPermitted, FindKey;
  }

  /** The graph a move makes: shaped whatever its target and name are. */
  lemma MovedStaysShaped(g: Graph, id: EdgeId, e: Edge, generation: Counter)
    requires Shaped(g) && id in g.edges && Live(g.edges[id])
    requires e.id !in g.edges && e.lifecycle == Current && e.relation == AttachedTo && !e.crossDomain
    requires e.from in g.nodes && e.to in g.nodes && e.domain in g.domains
    ensures var after := g.edges[id := SupersededEdge(g.edges[id], Some(e.id))][e.id := e];
            Shaped(g.(edges := after, generation := generation)) && EdgesAge(g.edges, after)
  {
    hide Shaped, Less;
    var superseded := SupersededEdge(g.edges[id], Some(e.id));
    OneEdgeKeepsOrder(g, id, superseded, generation);
    FiledEdgeStaysShaped(g.(edges := g.edges[id := superseded], generation := generation), e, generation);
  }

  /** A move duplicates a key or a name exactly when some edge had it before. */
  lemma MovedUnique(g: Graph, id: EdgeId, e: Edge)
    requires id in g.edges && e.id !in g.edges
    ensures var after := g.edges[id := SupersededEdge(g.edges[id], Some(e.id))][e.id := e];
            UniqueExactly(g.edges, after, forall d :: d in g.edges ==> KeyOf(g.edges[d]) != KeyOf(e),
                          forall d :: d in g.edges ==> g.edges[d].relationship != e.relationship)
  {
    hide MakeKey;
    var after := g.edges[id := SupersededEdge(g.edges[id], Some(e.id))][e.id := e];
    assert after[e.id] == e;
    assert forall d :: d in g.edges ==> d in after && KeyOf(after[d]) == KeyOf(g.edges[d])
                                        && after[d].relationship == g.edges[d].relationship;
  }

  /** A move, clean or not, keeps the graph shaped and revives nothing; it duplicates a key or a name
      exactly when it commits although an edge has it. */
  lemma MoveLawful(s: State, env: Env, c: Context, r: Request, persisted: bool)
    requires Shaped(s.graph) && r.MoveAttachment?
    ensures var out := DoMoveAttachment(s, env, c, r, persisted);
            && Lawful(s, out.state)
            && UniqueExactly(s.graph.edges, out.state.graph.edges, SparesKeys(s, env, r, out.verdict),
                             SparesNames(s, env, r, out.verdict))
  {
    hide MoveGuard, MovedNameFree, MovedKeyFree, Shaped, MovedCandidate, KeyOf, MakeKey, KeysUnique,
         RelationshipsUnique, EdgesAge, Enlist, Delist;
    var g := s.graph;
    ShapedAnyLookups(g);
    SameAge(g.edges);
    if MoveGuard(s, env, c, r) == Ok {
      GuardsFindTheirTargets(s, env, c, r);
      var e := g.edges[r.edge];
      var k := MovedCandidate(env, r, e);
      MovedEdgeFits(s, env, c, r);
      if k.id in g.edges {
        FewerKeepsOrder(g, k.id);
        FewerAge(g.edges, k.id);
        ShapedAnyLookups(g.(edges := g.edges - {k.id}));
      } else if CanAdvance(g.generation) && persisted {
        CommittedMoveLawful(s, env, c, r);
      }
    }
  }

  lemma CommittedMoveLawful(s: State, env: Env, c: Context, r: Request)
    requires Shaped(s.graph) && r.MoveAttachment? && MoveGuard(s, env, c, r) == Ok && r.edge in s.graph.edges
    requires MovedCandidate(env, r, s.graph.edges[r.edge]).id !in s.graph.edges && CanAdvance(s.graph.generation)
    ensures var out := DoMoveAttachment(s, env, c, r, true);
            && Lawful(s, out.state)
            && UniqueExactly(s.graph.edges, out.state.graph.edges, MovedKeyFree(s.graph, r),
                             MovedNameFree(s.graph, env, r))
  {
    hide MoveGuard, Shaped, MovedCandidate, KeyOf, MakeKey, EdgesAge, Enlist, Delist, UniqueExactly;
    var g := s.graph;
    var k := MovedCandidate(env, r, g.edges[r.edge]);
    MovedEdgeFits(s, env, c, r);
    var created := NewEdge(g, c, k, RealEvidence, OperatorDeclaration);
    KeyOfNew(g, c, k);
    MovedStaysShaped(g, r.edge, created, g.generation + 1);
    var after := g.edges[r.edge := SupersededEdge(g.edges[r.edge], Some(k.id))][k.id := created];
    ShapedAnyLookups(g.(edges := after, generation := g.generation + 1));
    MovedUnique(g, r.edge, created);
  }

  lemma FewerAge(edges: Edges, id: EdgeId)
    ensures EdgesAge(edges, edges - {id})
  {
  }

  /** A committed move keeps the graph sound exactly when it is clean. */
  lemma MoveSoundExactlyWhenClean(s: State, env: Env, c: Context, r: Request, persisted: bool)
    requires Sound(s.graph) && r.MoveAttachment?
    requires DoMoveAttachment(s, env, c, r, persisted).verdict == Committed
    ensures Sound(DoMoveAttachment(s, env, c, r, persisted).state.graph) <==> MoveIsClean(s.graph, env, r)
  {
    hide MoveGuard, Shaped, MovedCandidate, MovedNameFree, MovedKeyFree, KeysUnique, RelationshipsUnique, EdgesAge;
    MoveLawful(s, env, c, r, persisted);
  }

  /** A move erases an edge although it does not commit: its guard
      passed, and the identifier of the new edge is taken. */
  ghost predicate ErasesHolder(s: State, env: Env, c: Context, r: Request)
    requires r.MoveAttachment?
  {
    && r.edge in s.graph.edges && MoveGuard(s, env, c, r) == Ok
    && MovedCandidate(env, r, s.graph.edges[r.edge]).id in s.graph.edges
  }

  /** A move that does not commit leaves the topology alone exactly when it does not erase the holder of its
      identifier. */
  lemma MoveIsAtomicExactlyWhenIdFree(s: State, env: Env, c: Context, r: Request, persisted: bool)
    requires r.MoveAttachment?
    ensures var out := DoMoveAttachment(s, env, c, r, persisted);
            && (ErasesHolder(s, env, c, r) ==> out.verdict.Refused?)
            && (out.verdict != Committed ==> (OnlyLookups(s, out.state) <==> !ErasesHolder(s, env, c, r)))
  {
    hide MoveGuard, NewEdge, Enlist, Delist, KeyOf;
    GuardsFindTheirTargets(s, env, c, r);
    if MoveGuard(s, env, c, r) == Ok {
      var k := MovedCandidate(env, r, s.graph.edges[r.edge]);
      assert k.id !in s.graph.edges - {k.id};
    }
  }

  // ---- Replacing an endpoint ----------------------------------------------------------------

  lemma ReplaceEndpointOrderly(s: State, env: Env, c: Context, r: Request, persisted: bool)
    requires Shaped(s.graph) && r.ReplaceEndpoint?
    ensures Orderly(s, DoReplaceEndpoint(s, env, c, r, persisted).state)
  {
    hide CheckAuthority, ReissueIncident, Shaped, KeepsUnique, Orderly, Reshaped, SameNames, EdgesAge, Refiled,
         FiledBack;
    StandingStillIsOrderly(s);
    var g := s.graph;
    var out := DoReplaceEndpoint(s, env, c, r, persisted).state;
    if out != s {
      NodeFacts(g, r.node);
      FenceReshapes(g.edges, r.node, BoundNode(env, g.nodes[r.node], r).entityGeneration);
      ReshapedAges(g.edges, ReissueIncident(g.edges, r.node, BoundNode(env, g.nodes[r.node], r).entityGeneration));
      Unreshaped(g.edges);
      ReshapedAges(g.edges, g.edges);
      PutNodeKeepsOrder(g, out.graph.nodes[r.node], out.graph.edges, out.graph.generation);
      ShapedAnyLookups(g.(nodes := g.nodes[r.node := out.graph.nodes[r.node]], edges := out.graph.edges,
                          generation := out.graph.generation));
      OrderlyFrom(s, out);
    }
  }

  lemma OrderlyFrom(s: State, out: State)
    requires KeepsOrder(s.graph, out.graph) && EdgesAge(s.graph.edges, out.graph.edges) && out == s.(graph := out.graph)
    requires out.graph
             == s.graph.(nodes := out.graph.nodes, edges := out.graph.edges, lookups := out.graph.lookups,
                         generation := out.graph.generation)
    ensures Orderly(s, out)
  {
    hide Shaped, KeepsUnique, EdgesAge;
  }

  /** A replacement binds the node to something new although it does not commit: its
      guard passed, the node is not already newer, the write failed or the generation
      cannot advance, and the binding differs from the stored one. */
  ghost predicate LeavesBinding(s: State, env: Env, c: Context, r: Request, persisted: bool)
    requires r.ReplaceEndpoint?
  {
    && r.node in s.graph.nodes && ReplaceGuard(s, env, c, r) == Ok
    && var n := s.graph.nodes[r.node];
       && !(!r.rebind && r.newGeneration != 0 && r.newGeneration <= n.entityGeneration)
       && (!CanAdvance(s.graph.generation) || !persisted)
       && BoundNode(env, n, r) != n
  }

  /** A replacement that does not commit leaves the topology alone exactly when it leaves no new binding behind. */
  lemma ReplaceIsAtomicExactlyWhenUnbound(s: State, env: Env, c: Context, r: Request, persisted: bool)
    requires r.ReplaceEndpoint?
    ensures var out := DoReplaceEndpoint(s, env, c, r, persisted);
            && (LeavesBinding(s, env, c, r, persisted) ==> out.verdict.Refused?)
            && (out.verdict != Committed ==> (OnlyLookups(s, out.state) <==> !LeavesBinding(s, env, c, r, persisted)))
  {
    hide CheckAuthority, ReplaceGuard, ReissueIncident, Refiled, FiledBack;
    GuardsFindTheirTargets(s, env, c, r);
    if ReplaceGuard(s, env, c, r) == Ok {
      var n := s.graph.nodes[r.node];
      var bound := BoundNode(env, n, r);
      if bound == n {
        assert s.graph.nodes[r.node := bound] == s.graph.nodes;
      } else {
        assert s.graph.nodes[r.node := bound][r.node] != n;
      }
    }
  }

  // ---- Every mutation --------------------------------------------------------------------------

  lemma OrderlyMutation(s: State, env: Env, c: Context, r: Request, persisted: bool)
    requires Shaped(s.graph) && !r.MoveAttachment? && !r.AddRelationship?
    ensures Orderly(s, Mutate(s, env, c, r, persisted).state)
  {
    hide Orderly, Shaped;
    match r
    case AddNode(_, _, _, _, _, _, _) => AddNodeOrderly(s, env, c, r, persisted);
    case RemoveNode(_, _, _) => RemoveNodeOrderly(s, c, r, persisted);
    case UpdateEvidence(edge, evidence, lifecycle, expected, expectedEdge, replace, metadata) =>
      StandingStillIsOrderly(s);
      ChangeEvidenceOrderly(s, env, c, edge, evidence, lifecycle, expected, expectedEdge,
                            if replace then Some(metadata) else None, persisted);
    case Revalidate(edge, evidence, expected) =>
      ChangeEvidenceOrderly(s, env, c, edge, evidence, Current, expected, 0, None, persisted);
    case Supersede(_, _, _) => SupersedeOrderly(s, c, r, persisted);
    case Retire(_, _) => RetireOrderly(s, c, r, persisted);
    case ReplaceEndpoint(_, _, _, _, _, _) => ReplaceEndpointOrderly(s, env, c, r, persisted);
  }

  /** Whatever is asked, the graph stays shaped, dead edges stay dead, and only the graph changes; relationships and
      names stay unique exactly when no committed move or addition duplicates them. */
  lemma MutationLawful(s: State, env: Env, c: Context, r: Request, persisted: bool)
    requires Shaped(s.graph)
    ensures var out := Mutate(s, env, c, r, persisted);
            && Lawful(s, out.state)
            && UniqueExactly(s.graph.edges, out.state.graph.edges, SparesKeys(s, env, r, out.verdict),
                             SparesNames(s, env, r, out.verdict))
  {
    hide Lawful, Shaped, UniqueExactly, MovedNameFree, MovedKeyFree, KeyOnlyFor, NameOnlyFor, DoMoveAttachment,
         DoAddRelationship, Asked;
    if r.MoveAttachment? {
      MoveLawful(s, env, c, r, persisted);
    } else if r.AddRelationship? {
      AddRelationshipLawful(s, env, c, r, persisted);
    } else {
      OrderlyMutation(s, env, c, r, persisted);
      OrderlyIsUnique(s, Mutate(s, env, c, r, persisted).state);
    }
  }
}
