/** Exactly which steps leave an edge that is not found by its key or by its name. */
module LookupLaws {
  import opened Types
  import opened Graphs
  import opened Authority
  import opened Mutations
  import opened MutationLaws
  import opened Reconcile
  import opened DraftLaws
  import opened PublishLaws
  import opened FrameLaws
  import opened EntryLaws
  import opened DraftNames
  import opened SnapshotLaws
  import opened NamesLaws
  import opened Runs
  import Orders

  ghost predicate AllListed(l: Lookups, edges: Edges) {
    forall e :: e in edges ==> Listed(l, edges[e])
  }

  lemma CompleteIsListed(g: Graph)
    requires EdgesFiled(g.edges)
    ensures Complete(g) <==> AllListed(g.lookups, g.edges)
  {
    hide KeyOf;
  }

  /** Filing a key and a name that no other edge has leaves the others listed. */
  lemma EnlistedAll(l: Lookups, edges: Edges, e: Edge)
    requires EdgesFiled(edges)
    requires forall d :: d in edges && d != e.id ==>
               Listed(l, edges[d]) && KeyOf(edges[d]) != KeyOf(e) && edges[d].relationship != e.relationship
    ensures AllListed(Enlist(l, e), edges[e.id := e])
  {
    hide KeyOf;
  }

  /** Withdrawing one edge leaves the others listed. */
  lemma DelistedOthers(l: Lookups, e: Edge)
    ensures forall d: Edge :: d.id != e.id ==> (Listed(Delist(l, e), d) <==> Listed(l, d))
  {
    hide KeyOf;
  }

  /** Filing some edges anew lists these, and leaves the others listed. */
  lemma {:induction false} RelistedAll(l: Lookups, edges: Edges, order: seq<EdgeId>)
    requires EdgesFiled(edges) && KeysUnique(edges) && RelationshipsUnique(edges)
    requires forall e :: e in edges && e !in order ==> Listed(l, edges[e])
    ensures AllListed(Relisted(l, edges, order), edges)
  {
    hide KeyOf;
    forall e | e in edges
      ensures Listed(Relisted(l, edges, order), edges[e])
    {
      RelistedOne(l, edges, order, e);
    }
  }

  lemma {:induction false} RelistedOne(l: Lookups, edges: Edges, order: seq<EdgeId>, e: EdgeId)
    requires EdgesFiled(edges) && KeysUnique(edges) && RelationshipsUnique(edges)
    requires e in edges && (e in order || Listed(l, edges[e]))
    ensures Listed(Relisted(l, edges, order), edges[e])
  {
    hide KeyOf;
    if order != [] {
      var init, last := order[..|order| - 1], order[|order| - 1];
      if e != last {
        assert e in order ==> e in init;
        RelistedOne(l, edges, init, e);
      }
    }
  }

  /** Filing any set of edges anew, in either direction, once or once more, keeps all listed. */
  lemma RefiledAll(l: Lookups, edges: Edges, ids: set<EdgeId>)
    requires EdgesFiled(edges) && KeysUnique(edges) && RelationshipsUnique(edges)
    requires forall e :: e in edges && e !in ids ==> Listed(l, edges[e])
    ensures AllListed(Refiled(l, edges, ids), edges) && AllListed(FiledBack(l, edges, ids), edges)
  {
    hide Listed, KeysUnique, RelationshipsUnique;
    var order := Orders.Sorted(ids);
    var back := Orders.Reversed(order);
    forall e | e in ids
      ensures e in order && e in back
    {
      var i :| 0 <= i < |order| && order[i] == e;
      assert back[|order| - 1 - i] == e;
    }
    RelistedAll(l, edges, order);
    RelistedAll(l, edges, back);
  }

  lemma AlikeListed(l: Lookups, before: Edges, after: Edges)
    requires Reshaped(before, after) && SameNames(before, after)
    ensures AllListed(l, before) <==> AllListed(l, after)
    ensures EdgesFiled(before) ==> EdgesFiled(after)
  {
    hide MakeKey, EdgesAge;
    forall e | e in before
      ensures Listed(l, before[e]) <==> Listed(l, after[e])
      ensures before[e].id == after[e].id
    {
      assert SameShape(before[e], after[e]);
    }
  }

  // ---- Mutations ---------------------------------------------------------------------------

  /** Whether or not it becomes durable. */
  ghost predicate EitherWayListed(s: State, edges: Edges, lookups: Lookups, undone: Lookups) {
    EdgesFiled(edges) && AllListed(lookups, edges) && AllListed(undone, s.graph.edges)
  }

  lemma FinishListed(s: State, nodes: Nodes, edges: Edges, lookups: Lookups, undone: Lookups, persisted: bool)
    requires EdgesFiled(s.graph.edges) && EitherWayListed(s, edges, lookups, undone)
    ensures Complete(Finish(s, nodes, edges, lookups, undone, persisted).state.graph)
  {
    hide AllListed, Complete;
    var out := Finish(s, nodes, edges, lookups, undone, persisted).state.graph;
    CompleteIsListed(out);
  }

  /** Some edges are replaced by alike ones, each filed anew. */
  lemma RefiledFinish(s: State, nodes: Nodes, edges: Edges, ids: set<EdgeId>, persisted: bool)
    requires EdgesFiled(s.graph.edges) && Complete(s.graph)
    requires Reshaped(s.graph.edges, edges) && SameNames(s.graph.edges, edges)
    ensures var filed := Refiled(s.graph.lookups, s.graph.edges, ids);
            Complete(Finish(s, nodes, edges, filed, FiledBack(filed, s.graph.edges, ids), persisted).state.graph)
    ensures Complete(Finish(s, nodes, s.graph.edges, s.graph.lookups, s.graph.lookups, persisted).state.graph)
  {
    hide Listed, KeysUnique, RelationshipsUnique, Complete, Reshaped, SameNames, Finish, Refiled, FiledBack;
    var g := s.graph;
    CompleteIsUnique(g);
    CompleteIsListed(g);
    var filed := Refiled(g.lookups, g.edges, ids);
    RefiledAll(g.lookups, g.edges, ids);
    RefiledAll(filed, g.edges, ids);
    AlikeListed(filed, g.edges, edges);
    FinishListed(s, nodes, edges, filed, FiledBack(filed, g.edges, ids), persisted);
    FinishListed(s, nodes, g.edges, g.lookups, g.lookups, persisted);
  }

  lemma AddNodeListed(s: State, env: Env, c: Context, r: Request, persisted: bool)
    requires Shaped(s.graph) && Complete(s.graph) && r.AddNode?
    ensures Complete(DoAddNode(s, env, c, r, persisted).state.graph)
  {
    hide CheckAuthority, AuthorityOutcome, MetadataOk, FenceIncident, FencedIds, Complete, Finish, Shaped,
         EntityClassOf, NewNode, RefreshedNode, Reshaped, SameNames, Refiled, FiledBack;
    var g := s.graph;
    ShapedEdges(g);
    if Lookup(env, r.entity).Some? {
      var record := Lookup(env, r.entity).value;
      var id := if r.nodeId.Some? then r.nodeId.value else env.nodeIdOf(r.entity);
      Unreshaped(g.edges);
      RefiledFinish(s, g.nodes[id := NewNode(g, c, id, r, record)], g.edges, {}, persisted);
      if id in g.nodes {
        var n := RefreshedNode(g, g.nodes[id], r, record);
        FenceReshapes(g.edges, n.id, n.entityGeneration);
        RefiledFinish(s, g.nodes[n.id := n], FenceIncident(g.edges, n.id, n.entityGeneration),
                      FencedIds(g.edges, n.id, n.entityGeneration), persisted);
      }
    }
  }

  lemma RemoveNodeListed(s: State, c: Context, r: Request, persisted: bool)
    requires Shaped(s.graph) && Complete(s.graph) && r.RemoveNode?
    ensures Complete(DoRemoveNode(s, c, r, persisted).state.graph)
  {
    hide CheckAuthority, AuthorityOutcome, Complete, Finish, Shaped, WithoutIncident, Delisted, FiledBack, IncidentIds,
         AllListed;
    var g, ids := s.graph, IncidentIds(s.graph.edges, r.node);
    var left := Delisted(g.lookups, g.edges, ids);
    ShapedEdges(g);
    WithdrawnListed(g, r.node);
    FinishListed(s, g.nodes - {r.node}, WithoutIncident(g.edges, r.node), left, FiledBack(left, g.edges, ids),
                 persisted);
  }

  lemma WithdrawnListed(g: Graph, n: NodeId)
    requires EdgesFiled(g.edges) && Complete(g)
    ensures var ids, rest := IncidentIds(g.edges, n), WithoutIncident(g.edges, n);
            var left := Delisted(g.lookups, g.edges, ids);
            EdgesFiled(rest) && AllListed(left, rest) && AllListed(FiledBack(left, g.edges, ids), g.edges)
  {
    hide KeyOf, KeysUnique, RelationshipsUnique, Complete, FiledBack;
    CompleteIsUnique(g);
    CompleteIsListed(g);
    var ids := IncidentIds(g.edges, n);
    var left := Delisted(g.lookups, g.edges, ids);
    assert forall e :: e in g.edges && e !in ids ==> Listed(left, g.edges[e]);
    RefiledAll(left, g.edges, ids);
  }

  /** One edge is replaced by one with its identifier and key; it may be renamed, to a name nothing else holds. */
  lemma FinishEdgeListed(s: State, id: EdgeId, e: Edge, persisted: bool)
    requires Shaped(s.graph) && Complete(s.graph) && id in s.graph.edges
    requires e.id == id && KeyOf(e) == KeyOf(s.graph.edges[id])
    requires forall d :: d in s.graph.edges && d != id ==> s.graph.edges[d].relationship != e.relationship
    ensures Complete(FinishEdge(s, id, e, persisted).state.graph)
  {
    hide KeyOf, Complete, Finish, Shaped, Enlist, Delist, Listed;
    var g := s.graph;
    ShapedEdges(g);
    CompleteIsListed(g);
    CompleteIsUnique(g);
    var e0 := g.edges[id];
    assert e0.id == id;
    var filed := Relist(g.lookups, e0, e);
    DelistedOthers(g.lookups, e0);
    EnlistedAll(Delist(g.lookups, e0), g.edges, e);
    var edges := g.edges[id := e];
    DelistedOthers(filed, e);
    assert forall d :: d in g.edges && d != id ==> Listed(filed, edges[d]);
    EnlistedAll(Delist(filed, e), g.edges, e0);
    assert g.edges[id := e0] == g.edges;
    FinishListed(s, g.nodes, edges, filed, Relist(filed, e, e0), persisted);
  }

  /** The same, where the edge keeps its name. */
  lemma FinishAlikeListed(s: State, id: EdgeId, e: Edge, persisted: bool)
    requires Shaped(s.graph) && Complete(s.graph) && id in s.graph.edges && SameShape(s.graph.edges[id], e)
    requires e.relationship == s.graph.edges[id].relationship
    ensures Complete(FinishEdge(s, id, e, persisted).state.graph)
  {
    hide Complete, Shaped, FinishEdge, MakeKey;
    EdgeFacts(s.graph, id);
    CompleteIsUnique(s.graph);
    FinishEdgeListed(s, id, e, persisted);
  }

  lemma EvidenceListed(s: State, env: Env, c: Context, id: EdgeId, evidence: Counter, lifecycle: Lifecycle,
                       expected: Counter, expectedEdge: Counter, metadata: Option<Metadata>, persisted: bool)
    requires Shaped(s.graph) && Complete(s.graph)
    ensures Complete(ChangeEvidence(s, env, c, id, evidence, lifecycle, expected, expectedEdge, metadata,
                                    persisted).state.graph)
  {
    hide CheckAuthority, AuthorityOutcome, CurrentnessBlocked, FinishEdge, Complete, Shaped;
    if id in s.graph.edges {
      FinishAlikeListed(s, id, WithEvidence(s.graph, c, s.graph.edges[id], evidence, lifecycle, metadata), persisted);
    }
  }

  lemma ClosingListed(s: State, c: Context, r: Request, persisted: bool)
    requires Shaped(s.graph) && Complete(s.graph)
    ensures r.Supersede? ==> Complete(DoSupersede(s, c, r, persisted).state.graph)
    ensures r.Retire? ==> Complete(DoRetire(s, c, r, persisted).state.graph)
  {
    hide CheckAuthority, AuthorityOutcome, FinishEdge, Complete, Shaped;
    if r.Supersede? && r.edge in s.graph.edges {
      FinishAlikeListed(s, r.edge, SupersededEdge(s.graph.edges[r.edge], r.replacement), persisted);
    } else if r.Retire? && r.edge in s.graph.edges {
      FinishAlikeListed(s, r.edge, RetiredEdge(s.graph.edges[r.edge]), persisted);
    }
  }

  lemma ReplaceListed(s: State, env: Env, c: Context, r: Request, persisted: bool)
    requires Shaped(s.graph) && Complete(s.graph) && r.ReplaceEndpoint?
    ensures Complete(DoReplaceEndpoint(s, env, c, r, persisted).state.graph)
  {
    hide ReplaceGuard, ReissueIncident, Refiled, FiledBack, ReissuedIds, Complete, Shaped, Reshaped, SameNames, Finish;
    GuardsFindTheirTargets(s, env, c, r);
    if ReplaceGuard(s, env, c, r) == Ok {
      var g := s.graph;
      var bound := BoundNode(env, g.nodes[r.node], r);
      ShapedEdges(g);
      FenceReshapes(g.edges, r.node, bound.entityGeneration);
      var nodes := g.nodes[r.node := bound.(generation := Bump(g.nodes[r.node].generation), validated := g.generation)];
      RefiledFinish(s, nodes, ReissueIncident(g.edges, r.node, bound.entityGeneration),
                    ReissuedIds(g.edges, r.node), persisted);
      CompleteAnyNodes(DoReplaceEndpoint(s, env, c, r, persisted).state.graph);
    }
  }

  lemma CompleteAnyNodes(g: Graph)
    ensures forall nodes :: Complete(g.(nodes := nodes)) <==> Complete(g)
    ensures forall n: Counter :: Complete(g.(generation := n)) <==> Complete(g)
    ensures forall n: Counter :: Complete(g.(ordinal := n)) <==> Complete(g)
    ensures forall domains :: Complete(g.(domains := domains)) <==> Complete(g)
    ensures forall rules :: Complete(g.(rules := rules)) <==> Complete(g)
  {
    hide KeyOf;
  }

  // ---- Additions --------------------------------------------------------------------------------

  /** Where everything is found, what the lookups of a candidate miss is not there. */
  lemma MissedIsFree(g: Graph, k: Candidate)
    requires Complete(g)
    ensures FindKey(g, MakeKey(k.relation, k.from, k.to, k.domain)).None? ==>
              forall d :: d in g.edges ==> KeyOf(g.edges[d]) != MakeKey(k.relation, k.from, k.to, k.domain)
    ensures var found := FindRelationship(g, k.relationship);
            found.None? || found.value == k.id ==>
              forall d :: d in g.edges && d != k.id ==> g.edges[d].relationship != k.relationship
  {
    hide KeyOf, MakeKey;
  }

  /** A new edge whose key and name are free. */
  lemma FinishNewListed(s: State, e: Edge, persisted: bool)
    requires Shaped(s.graph) && Complete(s.graph) && e.id !in s.graph.edges
    requires forall d :: d in s.graph.edges ==>
               KeyOf(s.graph.edges[d]) != KeyOf(e) && s.graph.edges[d].relationship != e.relationship
    ensures Complete(FinishNewEdge(s, e, persisted).state.graph)
  {
    hide KeyOf, Complete, Finish, Shaped, Enlist, Delist, Listed;
    var g := s.graph;
    ShapedEdges(g);
    CompleteIsListed(g);
    EnlistedAll(g.lookups, g.edges, e);
    var filed, edges := Enlist(g.lookups, e), g.edges[e.id := e];
    assert forall d :: d in g.edges ==> edges[d] == g.edges[d] && edges[d].id != e.id && Listed(filed, edges[d]);
    DelistedOthers(filed, e);
    FinishListed(s, g.nodes, edges, filed, Delist(filed, e), persisted);
  }

  lemma ApplyCandidateListed(s: State, c: Context, k: Candidate, persisted: bool)
    requires Shaped(s.graph) && Complete(s.graph) && k.from in s.graph.nodes && k.to in s.graph.nodes
    ensures Complete(ApplyCandidate(s, c, k, persisted).state.graph)
  {
    hide Shaped, Complete, ValidateCandidate, SameStatement, EndpointsMatch, RestatedEdge, NewEdge, MakeKey, KeyOf,
         FinishEdge, FinishNewEdge, FailedFiling;
    var g := s.graph;
    var byKey := FindKey(g, MakeKey(k.relation, k.from, k.to, k.domain));
    var byRelationship := FindRelationship(g, k.relationship);
    MissedIsFree(g, k);
    if byRelationship.None? || byRelationship.value == k.id {
      if byKey.None? && k.id !in g.edges {
        KeyOfNew(g, c, k);
        FinishNewListed(s, NewEdge(g, c, k, RealEvidence, OperatorDeclaration), persisted);
      } else if byKey.Some? && byKey.value == k.id {
        KeyOfRestated(g, k);
        RestatedId(g, k);
        FinishEdgeListed(s, k.id, RestatedEdge(g, g.edges[k.id], k), persisted);
      }
    }
  }

  lemma RestatedId(g: Graph, k: Candidate)
    requires Shaped(g) && k.from in g.nodes && k.to in g.nodes && k.id in g.edges
    ensures RestatedEdge(g, g.edges[k.id], k).id == k.id
  {
    hide Shaped;
    EdgeFacts(g, k.id);
  }

  lemma AddRelationshipListed(s: State, env: Env, c: Context, r: Request, persisted: bool)
    requires Shaped(s.graph) && Complete(s.graph) && r.AddRelationship?
    ensures Complete(DoAddRelationship(s, env, c, r, persisted).state.graph)
  {
    hide AddGuard, Asked, ApplyCandidate, Shaped, Complete;
    if AddGuard(s, env, c, r) == Ok {
      ApplyCandidateListed(s, c, Asked(s.graph, env, r).value, persisted);
    }
  }

  // ---- Moves --------------------------------------------------------------------------------------

  /** A move leaves everything found unless it takes a name or a key over: one that commits from any edge, one that is
      undone from any edge but the moved one, which is filed back. */
  ghost predicate MoveSpares(s: State, env: Env, c: Context, r: Request, verdict: Verdict)
    requires r.MoveAttachment?
  {
    r.edge in s.graph.edges && MoveGuard(s, env, c, r) == Ok ==>
      var k := MovedCandidate(env, r, s.graph.edges[r.edge]);
      k.id in s.graph.edges
      || if verdict == Committed then MoveIsClean(s.graph, env, r)
         else forall d :: d in s.graph.edges && d != r.edge ==> s.graph.edges[d].relationship != k.relationship
  }

  /** Where everything is found, the guard of a move lets no edge but the moved one have the new key. */
  lemma MovedKeyHeldOnlyBy(s: State, env: Env, c: Context, r: Request)
    requires Complete(s.graph) && r.MoveAttachment? && r.edge in s.graph.edges && MoveGuard(s, env, c, r) == Ok
    ensures var key := MakeKey(AttachedTo, s.graph.edges[r.edge].from, r.target, s.graph.edges[r.edge].domain);
            forall d :: d in s.graph.edges && d != r.edge ==> KeyOf(s.graph.edges[d]) != key
  {
    hide KeyOf, MakeKey, CheckAuthority, MetadataOk, ValidateCandidate, MovedCandidate;
  }

  /** Superseding leaves an edge listed as it was. */
  lemma SupersededListed(l: Lookups, edges: Edges, id: EdgeId, other: EdgeId)
    requires EdgesFiled(edges) && KeysUnique(edges) && RelationshipsUnique(edges) && AllListed(l, edges)
    requires id in edges
    ensures var e, e' := edges[id], SupersededEdge(edges[id], Some(other));
            && e'.id == id && KeyOf(e') == KeyOf(e) && e'.relationship == e.relationship
            && AllListed(Relist(l, e, e'), edges) && AllListed(Relist(l, e, e'), edges[id := e'])
  {
    hide MakeKey, Enlist, Delist, Listed;
    var e, e' := edges[id], SupersededEdge(edges[id], Some(other));
    DelistedOthers(l, e);
    assert forall d :: d in edges && d != id ==>
        edges[d].id != e.id && KeyOf(edges[d]) != KeyOf(e) && edges[d].relationship != e.relationship;
    EnlistedAll(Delist(l, e), edges, e');
    AlikeListedOne(Relist(l, e, e'), e, e');
    var after := edges[id := e'];
    forall d | d in edges
      ensures Listed(Relist(l, e, e'), edges[d])
    {
      assert after[d] == if d == id then e' else edges[d];
    }
  }

  lemma AlikeListedOne(l: Lookups, e: Edge, e': Edge)
    requires e'.id == e.id && KeyOf(e') == KeyOf(e) && e'.relationship == e.relationship
    ensures Listed(l, e) <==> Listed(l, e')
  {
    hide KeyOf;
  }

  lemma FailedMoveListed(s: State, moved: EdgeId, id: EdgeId)
    requires Shaped(s.graph) && Complete(s.graph) && moved in s.graph.edges && id in s.graph.edges
    ensures Complete(FailedMove(s, moved, id).state.graph)
  {
    hide KeyOf, Enlist, Delist, Listed, Shaped, Complete, KeysUnique, RelationshipsUnique;
    var g := s.graph;
    var e, e' := g.edges[moved], SupersededEdge(g.edges[moved], Some(id));
    ShapedEdges(g);
    CompleteIsListed(g);
    CompleteIsUnique(g);
    SupersededListed(g.lookups, g.edges, moved, id);
    var rest := g.edges - {id};
    var last := if id == moved then e' else g.edges[id];
    var left := Delist(Relist(g.lookups, e, e'), last);
    DelistedOthers(Relist(g.lookups, e, e'), last);
    assert AllListed(left, rest);
    if id != moved {
      DelistedOthers(left, e');
      OthersDiffer(g.edges, moved);
      EnlistedAll(Delist(left, e'), rest, e);
      assert rest[moved := e] == rest;
    }
    CompleteIsListed(FailedMove(s, moved, id).state.graph);
  }

  lemma OthersDiffer(edges: Edges, id: EdgeId)
    requires EdgesFiled(edges) && KeysUnique(edges) && RelationshipsUnique(edges) && id in edges
    ensures forall d :: d in edges && d != id ==>
              && edges[d].id != id && KeyOf(edges[d]) != KeyOf(edges[id])
              && edges[d].relationship != edges[id].relationship
  {
    hide KeyOf;
  }

  /** What has been taken over is not listed. */
  lemma TakenOver(l: Lookups, e: Edge, d: Edge)
    requires d.id != e.id && (KeyOf(d) == KeyOf(e) || d.relationship == e.relationship)
    ensures !Listed(Enlist(l, e), d) && !Listed(Delist(Enlist(l, e), e), d)
  {
    hide KeyOf;
  }

  /** Undoing a move of something whose new key and name are held by the moved edge at most. */
  lemma FinishMoveListed(s: State, moved: EdgeId, e: Edge, persisted: bool)
    requires Shaped(s.graph) && Complete(s.graph) && moved in s.graph.edges && e.id !in s.graph.edges
    requires forall d :: d in s.graph.edges && d != moved ==> KeyOf(s.graph.edges[d]) != KeyOf(e)
    ensures var out := FinishMove(s, moved, e, persisted);
            var clean := forall d :: d in s.graph.edges && (out.verdict == Committed || d != moved) ==>
              KeyOf(s.graph.edges[d]) != KeyOf(e) && s.graph.edges[d].relationship != e.relationship;
            Complete(out.state.graph) <==> clean
  {
    hide KeyOf, Enlist, Delist, Listed, Shaped, Complete, KeysUnique, RelationshipsUnique;
    var g := s.graph;
    var e0, e1 := g.edges[moved], SupersededEdge(g.edges[moved], Some(e.id));
    ShapedEdges(g);
    CompleteIsListed(g);
    CompleteIsUnique(g);
    SupersededListed(g.lookups, g.edges, moved, e.id);
    var out := FinishMove(s, moved, e, persisted);
    CompleteIsListed(out.state.graph);
    if out.verdict == Committed {
      CommittedMoveListed(Relist(g.lookups, e0, e1), g.edges[moved := e1], e);
      CommittedHolders(g.edges, moved, e);
    } else {
      UndoneMoveListed(Relist(g.lookups, e0, e1), g.edges, moved, e1, e);
    }
  }

  lemma CommittedHolders(edges: Edges, moved: EdgeId, e: Edge)
    requires moved in edges && EdgesFiled(edges)
    ensures var after := edges[moved := SupersededEdge(edges[moved], Some(e.id))];
            && EdgesFiled(after)
            && forall d :: d in edges ==>
                  KeyOf(after[d]) == KeyOf(edges[d]) && after[d].relationship == edges[d].relationship
  {
    hide MakeKey;
  }

  lemma CommittedMoveListed(l: Lookups, edges: Edges, e: Edge)
    requires EdgesFiled(edges) && AllListed(l, edges) && e.id !in edges
    ensures AllListed(Enlist(l, e), edges[e.id := e])
            <==> forall d :: d in edges ==> KeyOf(edges[d]) != KeyOf(e) && edges[d].relationship != e.relationship
  {
    hide KeyOf, Listed, Enlist;
    if d :| d in edges && (KeyOf(edges[d]) == KeyOf(e) || edges[d].relationship == e.relationship) {
      TakenOver(l, e, edges[d]);
      assert edges[e.id := e][d] == edges[d];
    } else {
      EnlistedAll(l, edges, e);
    }
  }

  lemma UndoneMoveListed(l: Lookups, edges: Edges, moved: EdgeId, e1: Edge, e: Edge)
    requires EdgesFiled(edges) && KeysUnique(edges) && RelationshipsUnique(edges) && AllListed(l, edges)
    requires moved in edges && e.id !in edges && e1.id == moved
    requires KeyOf(e1) == KeyOf(edges[moved]) && e1.relationship == edges[moved].relationship
    ensures AllListed(Relist(Delist(Enlist(l, e), e), e1, edges[moved]), edges)
            <==> forall d :: d in edges && d != moved ==>
                   KeyOf(edges[d]) != KeyOf(e) && edges[d].relationship != e.relationship
  {
    hide KeyOf, Listed, Enlist, Delist, KeysUnique, RelationshipsUnique;
    OthersDiffer(edges, moved);
    var undone := Delist(Enlist(l, e), e);
    DelistedOthers(undone, e1);
    if d :| d in edges && d != moved && (KeyOf(edges[d]) == KeyOf(e) || edges[d].relationship == e.relationship) {
      TakenOver(l, e, edges[d]);
      Unaffected(Delist(undone, e1), edges[moved], edges[d]);
    } else {
      forall d | d in edges && d != moved
        ensures Listed(undone, edges[d])
      {
        Unaffected(l, e, edges[d]);
        DelistedOthers(Enlist(l, e), e);
      }
      EnlistedAll(Delist(undone, e1), edges, edges[moved]);
      assert edges[moved := edges[moved]] == edges;
    }
  }

  /** Filing an edge leaves one with another key and another name listed as it was. */
  lemma Unaffected(l: Lookups, e: Edge, d: Edge)
    requires KeyOf(d) != KeyOf(e) && d.relationship != e.relationship
    ensures Listed(Enlist(l, e), d) <==> Listed(l, d)
  {
    hide KeyOf;
  }

  /** From a graph in which everything is found, a move leads to another exactly when it takes nothing over. */
  lemma MoveListed(s: State, env: Env, c: Context, r: Request, persisted: bool)
    requires Shaped(s.graph) && Complete(s.graph) && r.MoveAttachment?
    ensures var out := DoMoveAttachment(s, env, c, r, persisted);
            Complete(out.state.graph) <==> MoveSpares(s, env, c, r, out.verdict)
  {
    hide MoveGuard, Shaped, Complete, MovedCandidate, KeyOf, MakeKey, FinishMove, FailedMove, NewEdge;
    GuardsFindTheirTargets(s, env, c, r);
    if MoveGuard(s, env, c, r) == Ok {
      var g := s.graph;
      var k := MovedCandidate(env, r, g.edges[r.edge]);
      if k.id in g.edges {
        FailedMoveListed(s, r.edge, k.id);
      } else {
        MovedEdgeFits(s, env, c, r);
        KeyOfNew(g, c, k);
        MovedKeyHeldOnlyBy(s, env, c, r);
        FinishMoveListed(s, r.edge, NewEdge(g, c, k, RealEvidence, OperatorDeclaration), persisted);
      }
    }
  }

  /** From a graph in which everything is found, a mutation leads to another, unless it is a move that takes a name
      or a key over. */
  lemma MutationKeepsLookups(s: State, env: Env, c: Context, r: Request, persisted: bool)
    requires Shaped(s.graph) && Complete(s.graph)
    ensures var out := Mutate(s, env, c, r, persisted);
            Complete(out.state.graph) <==> (r.MoveAttachment? ==> MoveSpares(s, env, c, r, out.verdict))
  {
    hide Complete, Shaped, MoveSpares, DoAddNode, DoRemoveNode, DoAddRelationship, DoUpdateEvidence, ChangeEvidence,
         DoSupersede, DoRetire, DoMoveAttachment, DoReplaceEndpoint;
    match r
    case AddNode(_, _, _, _, _, _, _) => AddNodeListed(s, env, c, r, persisted);
    case RemoveNode(_, _, _) => RemoveNodeListed(s, c, r, persisted);
    case AddRelationship(_, _, _, _, _, _, _, _, _, _, _, _, _, _) => AddRelationshipListed(s, env, c, r, persisted);
    case UpdateEvidence(_, _, _, _, _, _, _) => UpdateListed(s, env, c, r, persisted);
    case Revalidate(edge, evidence, expected) =>
      EvidenceListed(s, env, c, edge, evidence, Current, expected, 0, None, persisted);
    case MoveAttachment(_, _, _, _, _, _, _, _, _) => MoveListed(s, env, c, r, persisted);
    case ReplaceEndpoint(_, _, _, _, _, _) => ReplaceListed(s, env, c, r, persisted);
    case _ => ClosingListed(s, c, r, persisted);
  }

  lemma UpdateListed(s: State, env: Env, c: Context, r: Request, persisted: bool)
    requires Shaped(s.graph) && Complete(s.graph) && r.UpdateEvidence?
    ensures Complete(DoUpdateEvidence(s, env, c, r, persisted).state.graph)
  {
    hide Complete, Shaped, ChangeEvidence, MetadataOk;
    EvidenceListed(s, env, c, r.edge, r.evidence, r.lifecycle, r.expected, r.expectedEdge,
                   if r.replaceMetadata then Some(r.metadata) else None, persisted);
  }

  // ---- Demotion ------------------------------------------------------------------------------------

  lemma DemotionListed(g: Graph, ids: set<EdgeId>, demoted: Edges, persisted: bool)
    requires Shaped(g) && Complete(g) && SomeDemoted(g.edges, demoted)
    ensures Complete(CommitDemotion(g, ids, demoted, persisted).0)
    ensures Complete(Undemoted(g, ids))
    ensures forall n: Counter ::
              Complete(g.(edges := demoted, lookups := Refiled(g.lookups, g.edges, ids), generation := n))
  {
    hide Listed, KeysUnique, RelationshipsUnique, Complete, Reshaped, SameNames, Refiled, FiledBack, SomeDemoted,
         Shaped, AllListed;
    ShapedEdges(g);
    CompleteIsUnique(g);
    CompleteIsListed(g);
    DemotionReshapes(g.edges, demoted);
    var filed := Refiled(g.lookups, g.edges, ids);
    ListedIsListed(g);
    RefiledAll(g.lookups, g.edges, ids);
    ListedIsListed(g.(lookups := filed));
    RefiledAll(filed, g.edges, ids);
    AlikeListed(filed, g.edges, demoted);
    CompleteIsListed(Undemoted(g, ids));
    var h := g.(edges := demoted, lookups := filed);
    CompleteIsListed(h);
    CompleteAnyNodes(h);
  }

  lemma ListedIsListed(g: Graph)
    requires AllListed(g.lookups, g.edges)
    ensures forall e :: e in g.edges ==> Listed(g.lookups, g.edges[e])
  {
  }

  lemma FencingKeepsLookups(s: State, op: Op)
    requires Shaped(s.graph) && Complete(s.graph) && (op.FencingPublisher? || op.FencingBoot?)
    ensures Complete(Step(s, op).graph)
  {
    hide Shaped, Complete, CommitDemotion, SomeDemoted, Mutate, Publish, DemotePublisher, DemoteBoot;
    var g := s.graph;
    if op.FencingPublisher? {
      DemotesSome(g.edges, op.publisher, "");
      DemotionListed(g, PublisherIds(g.edges, op.publisher), DemotePublisher(g.edges, op.publisher), op.persisted);
    } else {
      DemotesSome(g.edges, "", op.boot);
      DemotionListed(g, BootIds(g.edges, op.boot), DemoteBoot(g.edges, op.boot), op.persisted);
    }
  }

  lemma AuthorityKeepsLookups(s: State, op: Op)
    requires Shaped(s.graph) && Complete(s.graph) && !op.Mutation? && !op.Publication?
    ensures Complete(Step(s, op).graph)
  {
    hide Shaped, Complete, SomeDemoted, Mutate, Publish, FencePublisher, FenceBoot, DemotePublished, ParentWalk,
         Refiled, FiledBack;
    CompleteAnyNodes(s.graph);
    if op.FencingPublisher? || op.FencingBoot? {
      FencingKeepsLookups(s, op);
    } else if op.AdvancingEpoch? {
      DemotesSome(s.graph.edges, "", "");
      DemotionListed(s.graph, PublishedIds(s.graph.edges), DemotePublished(s.graph.edges), op.persisted);
    }
  }

  // ---- Publications ----------------------------------------------------------------------------------

  ghost predicate KeysListed(g: Graph) {
    forall e :: e in g.edges ==> FindKey(g, KeyOf(g.edges[e])) == Some(e)
  }

  lemma PresentEdgeKeys(env: Env, c: Context, p: Header, d: Draft, k: Candidate)
    requires d.Draft? && EdgesFiled(d.g.edges) && KeysListed(d.g) && PresentEdge(env, c, p, d, k).Draft?
    ensures KeysListed(PresentEdge(env, c, p, d, k).g)
  {
    hide ValidateCandidate, SameStatement, MakeKey, PublishedEdge, RestatedByPublication, KeyOf;
    var key := MakeKey(k.relation, k.from, k.to, k.domain);
    ValidCandidateFacts(d.g, k, FindKey(d.g, key).None?);
    if ValidateCandidate(d.g, k, FindKey(d.g, key).None?) == Ok {
      PublishedNames(c, p, d.g, k);
    }
  }

  lemma AbsentEdgeKeys(p: Header, d: Draft, key: EdgeKey)
    requires d.Draft? && EdgesFiled(d.g.edges) && KeysListed(d.g) && AbsentEdge(p, d, key).Draft?
    ensures KeysListed(AbsentEdge(p, d, key).g)
  {
    hide MakeKey;
    var found := FindKey(d.g, key);
    if found.Some? {
      assert KeyOf(RetiredEdge(d.g.edges[found.value])) == KeyOf(d.g.edges[found.value]);
    }
  }

  lemma {:induction false} EdgeEntriesKeys(env: Env, c: Context, p: Header, g: Graph, d: Draft, os: seq<ObservedEdge>)
    requires Tracks(g, d) && KeysListed(d.g) && p.domain in g.domains && EdgeEntries(env, c, p, d, os).Draft?
    ensures KeysListed(EdgeEntries(env, c, p, d, os).g)
  {
    hide Tracks, KeysListed, PresentEdge, AbsentEdge, Shaped, EdgesFiled, ObservedKey, ObservedCandidate;
    if os != [] {
      var before, o := EdgeEntries(env, c, p, d, os[..|os| - 1]), os[|os| - 1];
      EdgeEntriesKeys(env, c, p, g, d, os[..|os| - 1]);
      EdgeEntriesTrack(env, c, p, g, d, os[..|os| - 1]);
      TracksFacts(g, before);
      ShapedEdges(before.g);
      var noted := before.(keys := before.keys + {ObservedKey(p, o)});
      if o.present {
        PresentEdgeKeys(env, c, p, noted, ObservedCandidate(env, p, o, ResolveLayer(o.relation, o.layer).value));
      } else {
        AbsentEdgeKeys(p, noted, ObservedKey(p, o));
      }
    }
  }

  /** No relationship that the entries file claims the name of an edge that the entries leave in place. */
  ghost predicate NamesFree(env: Env, p: Reconcile.Publication, g: Graph) {
    forall o, f | o in p.edges && IsNew(env, p.head, g, o) && f in g.edges ::
      g.edges[f].relationship == ObservedName(env, p.head, o) ==> !StaysPut(p, g, g.edges[f])
  }

  /** The graph after absences and replacement. */
  ghost function Final(p: Reconcile.Publication, d: Draft): (g: Graph)
    requires d.Draft?
    ensures g.edges == Left(p, d)
  {
    var a := AbsenceSet(p.head, d, Names(p.absences));
    if p.head.mode == AuthoritativeSnapshot then ReplaceScope(p.head, a).g else a.g
  }

  /** What is left is found if it was found before the absences. */
  lemma LeftListed(p: Reconcile.Publication, d: Draft, e: EdgeId)
    requires d.Draft? && EdgesFiled(d.g.edges) && KeysUnique(d.g.edges)
    requires e in Left(p, d) && e in d.g.edges && Listed(d.g.lookups, d.g.edges[e])
    ensures Listed(Final(p, d).lookups, Left(p, d)[e])
  {
    hide MakeKey, KeptNodes, Gone, LeftOut;
    LeftFromDraft(p, d, e);
    assert d.g.edges[e].id == e && Left(p, d)[e].id == e;
    if p.head.mode != AuthoritativeSnapshot {
      HolderIsOnly(d.g.edges, KeyOf(d.g.edges[e]));
    }
  }

  /** What a snapshot leaves is not found by a name that has led to an edge struck by an absence. */
  lemma LeftUnlisted(p: Reconcile.Publication, d: Draft, e: EdgeId)
    requires d.Draft? && EdgesFiled(d.g.edges) && e in Left(p, d) && e in d.g.edges
    requires p.head.mode == AuthoritativeSnapshot
    requires var found := FindRelationship(d.g, d.g.edges[e].relationship);
             found.Some? && Gone(p.head, d.g.lookups, Names(p.absences), d.g.edges[found.value])
    ensures !Listed(Final(p, d).lookups, Left(p, d)[e])
  {
    hide MakeKey, KeptNodes, Gone, LeftOut;
    LeftFromDraft(p, d, e);
  }

  /** Everything is still found after the node entries. */
  lemma PlacedComplete(g: Graph, d0: Draft)
    requires OnlyNodes(g, d0) && Complete(g)
    ensures Complete(d0.g) && KeysListed(d0.g) && KeysUnique(d0.g.edges) && RelationshipsUnique(d0.g.edges)
    ensures forall n :: NameListed(d0.g, n)
  {
    hide Tracks, KeyOf, Live, KeysUnique, RelationshipsUnique;
    forall e | e in d0.g.edges
      ensures KeyListed(d0.g, KeyOf(d0.g.edges[e])) && NameListed(d0.g, d0.g.edges[e].relationship)
    {
      CompleteLists(g, KeyOf(d0.g.edges[e]), d0.g.edges[e].relationship);
    }
    forall n
      ensures NameListed(d0.g, n)
    {
      CompleteLists(g, EdgeKey(UnknownRelation, "", "", ""), n);
    }
    CompleteIsUnique(d0.g);
  }

  lemma CompleteLists(g: Graph, k: EdgeKey, n: RelId)
    requires Complete(g)
    ensures KeyListed(g, k) && NameListed(g, n)
  {
    hide KeyOf;
  }

  /** When a filed name is free, an edge that is left is found by its name already before the absences. */
  lemma LeftIsNamed(env: Env, p: Reconcile.Publication, g: Graph, d0: Draft, d: Draft, os: seq<ObservedEdge>, e: EdgeId)
    requires EnteredFacts(env, p.head, g, d0, d, os) && Complete(g) && Rearranges(os, p.edges)
    requires NamesFree(env, p, d0.g) && e in d.g.edges && e in Left(p, d)
    ensures FindRelationship(d.g, d.g.edges[e].relationship) == Some(e)
  {
    hide OnlyNodes, Tracks, AllSettled, KeyOf, IsNew, ObservedKey, ObservedName, NewcomersObserved, NewNamesDiffer,
         Left, Observed, KeysUnique, StaysPut, NamesFree, Complete, NameListed, RelationshipsUnique, FindRelationship;
    PlacedComplete(g, d0);
    var name := d.g.edges[e].relationship;
    assert Tended(d0.g, d.g.edges, name);
    var x := FindRelationship(d.g, name).value;
    if x != e {
      TwoHolders(env, p.head, d0.g, d.g.edges, os, e, x);
      var y, f :| (y, f) in [(e, x), (x, e)] && Kept(d0.g.edges, d.g.edges, f)
                  && Observed(env, p.head, d0.g, os, d.g.edges, y);
      FreeIsReleased(env, p, d0.g, os, d.g.edges, y, f);
      GoesInTheEnd(env, p, g, d0, d, os, f);
      assert f == x;
      MentionedStays(env, p, g, d0, d, os, f);
      assert false;
    }
  }

  lemma FreeIsReleased(env: Env, p: Reconcile.Publication, g: Graph, os: seq<ObservedEdge>, after: Edges, e: EdgeId,
                       f: EdgeId)
    requires NamesFree(env, p, g) && Rearranges(os, p.edges) && e in after && Observed(env, p.head, g, os, after, e)
    requires f in after && Kept(g.edges, after, f) && after[f].relationship == after[e].relationship
    ensures f in g.edges && !StaysPut(p, g, g.edges[f])
  {
    hide KeyOf, IsNew, ObservedKey, ObservedName, StaysPut, ObservedEdgeId;
    SameMembers(os, p.edges);
  }

  /** An edge that is kept although its key is mentioned stays put. */
  lemma MentionedStays(env: Env, p: Reconcile.Publication, g: Graph, d0: Draft, d: Draft, os: seq<ObservedEdge>,
                       f: EdgeId)
    requires EnteredFacts(env, p.head, g, d0, d, os) && KeysUnique(d0.g.edges) && Rearranges(os, p.edges)
    requires f in d.g.edges && Kept(d0.g.edges, d.g.edges, f) && KeyOf(d.g.edges[f]) in d.keys
    ensures StaysPut(p, d0.g, d0.g.edges[f])
  {
    hide Tracks, KeyOf, ObservedName, ObservedEdgeId, Pointed, NewcomersObserved, NewNamesDiffer, OnlyNodes,
         KeysOutside, FindKey, ObservedKey, AgreeOutside, StaysPut, KeysUnique;
    SameMembers(os, p.edges);
    KeptKeys(d0.g.edges, d.g.edges, f);
    var i :| 0 <= i < |os| && ObservedKey(p.head, os[i]) == KeyOf(d.g.edges[f]);
    if !StaysPut(p, d0.g, d0.g.edges[f]) {
      StruckEntry(env, p, d0.g, d.g.edges, os[i], f);
    }
  }

  /** When every filed name is free, everything that is left is found. */
  lemma FreeNamesFound(env: Env, p: Reconcile.Publication, g: Graph, d0: Draft, d: Draft, os: seq<ObservedEdge>)
    requires EnteredFacts(env, p.head, g, d0, d, os) && Complete(g) && Rearranges(os, p.edges)
    requires EdgesFiled(d.g.edges) && KeysListed(d.g) && NamesFree(env, p, d0.g)
    ensures AllListed(Final(p, d).lookups, Left(p, d))
  {
    hide EnteredFacts, KeyOf, Left, Final, Complete, NamesFree;
    DraftOf(env, p, g, d0, d, os);
    KeysListedUnique(d.g);
    forall e | e in Left(p, d)
      ensures Listed(Final(p, d).lookups, Left(p, d)[e])
    {
      LeftFromDraft(p, d, e);
      LeftIsNamed(env, p, g, d0, d, os, e);
      LeftListed(p, d, e);
    }
  }

  lemma DraftOf(env: Env, p: Reconcile.Publication, g: Graph, d0: Draft, d: Draft, os: seq<ObservedEdge>)
    requires EnteredFacts(env, p.head, g, d0, d, os)
    ensures d0.Draft? && d.Draft?
  {
    hide OnlyNodes, Tracks, AllSettled, NewNamesDiffer, NewcomersObserved, Pointed;
  }

  lemma KeysListedUnique(g: Graph)
    requires KeysListed(g)
    ensures KeysUnique(g.edges)
  {
    hide KeyOf;
    forall d, e | d in g.edges && e in g.edges && KeyOf(g.edges[d]) == KeyOf(g.edges[e])
      ensures d == e
    {
      assert FindKey(g, KeyOf(g.edges[d])) == Some(d) && FindKey(g, KeyOf(g.edges[e])) == Some(e);
    }
  }

  /** A name that a filed relationship takes over from an edge that stays put is lost to one of the two, or used
      twice. */
  lemma TakenNameLost(env: Env, p: Reconcile.Publication, g: Graph, d0: Draft, d: Draft, os: seq<ObservedEdge>,
                      o: ObservedEdge, f: EdgeId)
    requires EnteredFacts(env, p.head, g, d0, d, os) && Complete(g) && Rearranges(os, p.edges)
    requires EdgesFiled(d.g.edges)
    requires o in p.edges && IsNew(env, p.head, d0.g, o) && f in d0.g.edges && StaysPut(p, d0.g, d0.g.edges[f])
    requires d0.g.edges[f].relationship == ObservedName(env, p.head, o)
    ensures !(AllListed(Final(p, d).lookups, Left(p, d)) && RelationshipsUnique(Left(p, d)))
  {
    hide Tracks, KeyOf, Pointed, NewcomersObserved, NewNamesDiffer, OnlyNodes, AllSettled, ObservedName, Left, IsNew,
         StaysPut, Live, ObservedKey, KeysUnique, RelationshipsUnique, Gone, Final, Complete;
    PlacedComplete(g, d0);
    SameMembers(os, p.edges);
    if StaysTaken(p, d0.g, d0.g.edges[f]) {
      TakenNameClashes(env, p, g, d0, d, os, o, f);
    } else {
      var y := NewStands(env, p, g, d0, d, os, o);
      StaysInDraft(env, p, g, d0, d, os, f);
      assert f != y;
      OneOfTwoStruck(env, p, g, d0, d, os, f, y);
      var found := FindRelationship(d.g, d.g.edges[f].relationship).value;
      var other := if found == f then y else f;
      StruckSparesOther(p, d, found, other);
      LeftInSnapshot(p, d, other);
      LeftUnlisted(p, d, other);
    }
  }

  lemma StruckSparesOther(p: Reconcile.Publication, d: Draft, found: EdgeId, other: EdgeId)
    requires d.Draft? && EdgesFiled(d.g.edges) && other in d.g.edges && other != found
    requires FindRelationship(d.g, d.g.edges[other].relationship) == Some(found)
    ensures !Gone(p.head, d.g.lookups, Names(p.absences), d.g.edges[other])
  {
    hide KeyOf;
  }

  /** From a graph in which everything is found, a committed publication leads to another exactly when no relationship
      that it files claims the name of an edge that its entries leave in place. */
  lemma PublishKeepsLookups(s: State, env: Env, c: Context, p: Reconcile.Publication, nodes: seq<ObservedNode>,
                            edges: seq<ObservedEdge>, persisted: bool)
    requires Shaped(s.graph) && Complete(s.graph) && Rearranges(nodes, p.nodes) && Rearranges(edges, p.edges)
    requires Publish(s, env, c, p, nodes, edges, persisted).verdict == Committed
    ensures Placed(env, c, p, s.graph, nodes).Draft?
    ensures Complete(Publish(s, env, c, p, nodes, edges, persisted).state.graph)
            <==> NamesFree(env, p, Placed(env, c, p, s.graph, nodes).g)
  {
    hide Publish, Shaped, Reconciled, ValidTopology, EnteredFacts, EdgesFiled, Complete, NamesFree, Final, Left,
         KeysUnique, RelationshipsUnique, KeysListed, AllListed;
    var g := s.graph;
    var d0, d := Placed(env, c, p, g, nodes), Entered(env, c, p, g, nodes, edges);
    var out := Publish(s, env, c, p, nodes, edges, persisted).state.graph;
    CommittedIsGuarded(s, env, c, p, nodes, edges, persisted);
    LeftIs(env, c, p, g, nodes, edges);
    FinalIs(env, c, p, g, nodes, edges);
    ShapedEdges(out) by {
      PublishLawful(s, env, c, p, nodes, edges, persisted);
    }
    CompleteIsListed(out);
    if NamesFree(env, p, d0.g) {
      FreeNamesFound(env, p, g, d0, d, edges);
    } else if Complete(out) {
      CompleteIsUnique(out);
      TakenNamesLost(env, p, g, d0, d, edges);
    }
  }

  lemma TakenNamesLost(env: Env, p: Reconcile.Publication, g: Graph, d0: Draft, d: Draft, os: seq<ObservedEdge>)
    requires EnteredFacts(env, p.head, g, d0, d, os) && Complete(g) && Rearranges(os, p.edges)
    requires EdgesFiled(d.g.edges) && !NamesFree(env, p, d0.g)
    ensures !(AllListed(Final(p, d).lookups, Left(p, d)) && RelationshipsUnique(Left(p, d)))
  {
    hide EnteredFacts, EdgesFiled, Complete, Final, Left, RelationshipsUnique, AllListed, StaysPut, IsNew, ObservedName;
    DraftOf(env, p, g, d0, d, os);
    var o, f :| o in p.edges && IsNew(env, p.head, d0.g, o) && f in d0.g.edges
                && d0.g.edges[f].relationship == ObservedName(env, p.head, o) && StaysPut(p, d0.g, d0.g.edges[f]);
    TakenNameLost(env, p, g, d0, d, os, o, f);
  }

  lemma FinalIs(env: Env, c: Context, p: Reconcile.Publication, g: Graph, nodes: seq<ObservedNode>,
                edges: seq<ObservedEdge>)
    requires Shaped(g) && Complete(g) && p.head.domain in g.domains && Reconciled(env, c, p, g, nodes, edges).Draft?
    ensures var d := Entered(env, c, p, g, nodes, edges);
            && d.Draft? && EdgesFiled(d.g.edges) && KeysListed(d.g)
            && Reconciled(env, c, p, g, nodes, edges).g.lookups == Final(p, d).lookups
            && Reconciled(env, c, p, g, nodes, edges).g.edges == Final(p, d).edges
  {
    hide Shaped, AbsenceSet, ReplaceScope, Reconciled, Pointed, NewcomersObserved, NewNamesDiffer, AllSettled, Tracks,
         EdgesFiled, KeysUnique, Complete, KeysListed, NodeEntries, EdgeEntries;
    var d0, d := Placed(env, c, p, g, nodes), Entered(env, c, p, g, nodes, edges);
    ReconciledInSteps(env, c, p, g, nodes, edges);
    PlacedComplete(g, d0);
    EdgeEntriesKeys(env, c, p.head, g, d0, edges);
    KeysListedUnique(d.g);
    ShapedEdges(d.g);
  }

  // ---- Every step, every run -------------------------------------------------------------------------

  /** The step is neither a move that takes a name or a key over nor a committed publication that files under a name
      in use. */
  ghost predicate KeepsLookups(s: State, op: Op) {
    && (op.Mutation? && op.request.MoveAttachment? ==>
          MoveSpares(s, op.env, op.context, op.request,
                     Mutate(s, op.env, op.context, op.request, op.persisted).verdict))
    && (op.Publication? && PublishedVerdict(s, op) == Committed ==>
          var placed := Placed(op.env, op.context, op.publication, s.graph, op.nodes);
          placed.Draft? ==> NamesFree(op.env, op.publication, placed.g))
  }

  /** From a state in which every edge is found by its key and its name, a step leads to another exactly when it takes
      nothing over: no addition, restatement, removal, fencing, epoch or declaration ever loses an edge. */
  lemma StepKeepsLookups(s: State, op: Op)
    requires Shaped(s.graph) && Complete(s.graph) && Ordered(op)
    ensures Complete(Step(s, op).graph) <==> KeepsLookups(s, op)
  {
    hide Shaped, Mutate, Publish, Complete, MoveSpares, NamesFree, Placed, Ordered, Register, FencePublisher, FenceBoot,
         AdvanceEpoch, DefineDomain, DefineRule;
    match op
    case Mutation(env, c, r, persisted) => MutationKeepsLookups(s, env, c, r, persisted);
    case Publication(env, c, p, nodes, edges, persisted) =>
      PublishAllOrNothing(s, env, c, p, nodes, edges, persisted);
      if PublishedVerdict(s, op) == Committed {
        OrderedEntries(op);
        PublishKeepsLookups(s, env, c, p, nodes, edges, persisted);
      }
    case _ => AuthorityKeepsLookups(s, op);
  }

  /** Over any run whose steps take nothing over, every edge of every state is found by its key and by its name, and
      so no key and no name is used twice. */
  lemma {:induction false} RunsStayComplete(states: seq<State>, ops: seq<Op>, i: nat)
    requires Run(states, ops) && Coherent(states[0]) && Complete(states[0].graph) && i < |states|
    requires forall k :: 0 <= k < i ==> Ordered(ops[k]) && KeepsLookups(states[k], ops[k])
    ensures Complete(states[i].graph)
    ensures KeysUnique(states[i].graph.edges) && RelationshipsUnique(states[i].graph.edges)
  {
    hide Step, Shaped, KeepsLookups, Ordered, Complete, KeysUnique, RelationshipsUnique;
    if i > 0 {
      RunsStayComplete(states, ops, i - 1);
      RunsStayCoherent(states, ops, i - 1);
      StepKeepsLookups(states[i - 1], ops[i - 1]);
    }
    CompleteIsUnique(states[i].graph);
  }

  /** Where everything is found, no addition erases an edge that its key lookup misses. */
  lemma CompleteErasesNothing(s: State, env: Env, c: Context, r: Request)
    requires Complete(s.graph) && r.AddRelationship?
    ensures !ErasesUnlisted(s, env, c, r)
  {
    hide AddGuard, Asked, ValidateCandidate, MakeKey, KeyOf;
  }
}
