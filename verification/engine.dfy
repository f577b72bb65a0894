/** The runtime as it is written: every operation edits the indexed graph in place under an undo log. */
module Engines {
  import opened Types
  import opened Graphs
  import opened Authority
  import opened Mutations
  import opened MutationLaws
  import opened Reconcile
  import opened Orders
  import opened GraphIndex
  import opened GraphStates
  import opened Rewrites
  import opened StateTxns
  import opened BatchUndo
  import opened Validators
  import opened Reconcilers
  import opened PublishLaws
  import Runs

  class Engine {
    var graph: GraphState
    var epoch: Counter
    var publishers: map<PublisherId, Publisher>
    var fenced: set<BootId>
    var ledger: seq<string>

    /** The state the engine stands for. */
    function View(): State
      reads this, graph
    {
      State(graph.Content(), epoch, publishers, fenced, ledger)
    }

    /** What every operation keeps, whatever the key and the name lookup miss. */
    ghost predicate Valid()
      reads this, graph
    {
      graph.Firm() && Shaped(graph.Content())
    }

    constructor (epoch: Counter)
      ensures Valid() && fresh(graph) && View() == Runs.Fresh(epoch)
    {
      graph := new GraphState();
      this.epoch, publishers, fenced, ledger := epoch, map[], {}, [];
      new;
      ValidWhenComplete(graph);
      Runs.FreshIsHealthy(epoch);
    }

    // ---- The tail of every mutation ------------------------------------------------------------

    /** Advance the generation and make it durable, or undo everything that was noted. */
    method Finalize(txn: StateTxn, persisted: bool) returns (o: Outcome)
      requires txn.state == graph && txn.active
      modifies graph, txn
      ensures !txn.active
      ensures o == if !CanAdvance(old(graph.generation)) then ResourceLimit
                   else if !persisted then PersistenceIoFailure else Ok
      ensures o == Ok ==>
                graph.Content() == old(graph.Content()).(generation := old(graph.generation) + 1)
                && graph.ix == old(graph.ix)
      ensures o != Ok ==>
                && graph.Content() == Unwound(old(graph.Content()), old(txn.entries))
                && graph.ix == UnwoundIndex(old(graph.Content()), old(graph.ix), old(txn.entries))
    {
      hide UndoneIndex;
      ghost var noted := txn.entries + [GenerationChanged(graph.generation)];
      assert noted[..|txn.entries|] == txn.entries;
      txn.Note(GenerationChanged(graph.generation));
      if !CanAdvance(graph.generation) {
        LastUnwound(graph.Content(), graph.ix, old(graph.Content()), old(txn.entries));
        txn.Rollback();
        return ResourceLimit;
      }
      graph.generation := graph.generation + 1;
      if !persisted {
        LastUnwound(graph.Content(), graph.ix, old(graph.Content()), old(txn.entries));
        txn.Rollback();
        return PersistenceIoFailure;
      }
      txn.Commit();
      return Ok;
    }

    /** The same where the log leads back to a graph the indexes describe: then the topology is as it was there, and
        the lookups are what the log makes of them. */
    method Settle(txn: StateTxn, persisted: bool, ghost start: Graph) returns (o: Outcome)
      requires txn.state == graph && txn.active && graph.Firm() && graph.generation == start.generation
      requires LeadsBack(graph.Content(), txn.entries, start)
      modifies graph, txn
      ensures graph.Firm() && !txn.active
      ensures o == if !CanAdvance(start.generation) then ResourceLimit
                   else if !persisted then PersistenceIoFailure
                   else Ok
      ensures o == Ok ==> graph.Content() == old(graph.Content()).(generation := start.generation + 1)
      ensures o != Ok ==>
                && graph.Content() == Unwound(old(graph.Content()), old(txn.entries))
                && SameButLookups(graph.Content(), start)
    {
      hide LeadsBack, Unwound, UnwoundIndex, PlainlyIndexed, Plain;
      ghost var g := graph.Content();
      UnwoundRestores(g, graph.ix, txn.entries, start);
      o := Finalize(txn, persisted);
      if o == Ok {
        FirmAnyGeneration(g, graph.ix, graph.generation);
      }
    }

    /** Replace one edge and finish. */
    method CommitEdge(e: Edge, persisted: bool) returns (verdict: Verdict)
      requires graph.Firm() && e.id in graph.edges && (Crosses(e) ==> e.secondary in graph.definitions)
      modifies graph
      ensures graph.Firm() && Result(View(), verdict) == FinishEdge(old(View()), e.id, e, persisted)
    {
      hide FullyIndexed, Tidy, LeadsBack, Unwound, PlainlyIndexed, Plain, WithEdge, WithoutEdge, Crosses, Enlist,
           Delist, Found;
      ghost var start := graph.Content();
      ghost var noted := EdgeUpdated(graph.edges[e.id]);
      PlainWithEdge(start, e, Relist(start.lookups, start.edges[e.id], e));
      StartsHere(start);
      OneMoreLeadsBack(start, [], start, UpdateEdge(e), noted);
      FiledEdge(start, e.id);
      var txn := new StateTxn(graph);
      txn.Note(EdgeUpdated(graph.edges[e.id]));
      var ok := graph.UpdateEdge(e);
      assert txn.entries == [noted];
      UnwoundOne(graph.Content(), noted);
      var o := Settle(txn, persisted, start);
      verdict := if o == Ok then Committed else Refused(o);
    }

    // ---- Single-edge mutations ---------------------------------------------------------------------

    method Retire(c: Context, r: Request, persisted: bool) returns (verdict: Verdict)
      requires Valid() && r.Retire?
      modifies graph
      ensures Valid() && Result(View(), verdict) == DoRetire(old(View()), c, r, persisted)
    {
      hide CheckAuthority, AuthorityOutcome, Shaped, FinishEdge, PlainlyIndexed, Plain, KeepsUnique;
      RetireOrderly(View(), c, r, persisted);
      if r.edge == "" {
        return Refused(MalformedRequest);
      }
      if r.edge !in graph.edges {
        return Refused(NotFound);
      }
      var e := graph.edges[r.edge];
      var granted := CheckAuthority(View(), c, e.domain, IncrementalWrite);
      if granted != Granted {
        return Refused(AuthorityOutcome(granted));
      }
      if Stale(r.expected, graph.generation) {
        return Refused(StaleGeneration);
      }
      if e.lifecycle == Lifecycle.Retired {
        return Idempotent;
      }
      StoredEdge(graph.Content(), r.edge);
      verdict := CommitEdge(RetiredEdge(e), persisted);
    }

    method Supersede(c: Context, r: Request, persisted: bool) returns (verdict: Verdict)
      requires Valid() && r.Supersede?
      modifies graph
      ensures Valid() && Result(View(), verdict) == DoSupersede(old(View()), c, r, persisted)
    {
      hide CheckAuthority, AuthorityOutcome, Shaped, FinishEdge, PlainlyIndexed, Plain, KeepsUnique;
      SupersedeOrderly(View(), c, r, persisted);
      if r.edge == "" {
        return Refused(MalformedRequest);
      }
      if r.edge !in graph.edges {
        return Refused(NotFound);
      }
      var e := graph.edges[r.edge];
      var granted := CheckAuthority(View(), c, e.domain, IncrementalWrite);
      if granted != Granted {
        return Refused(AuthorityOutcome(granted));
      }
      if Stale(r.expected, graph.generation) {
        return Refused(StaleGeneration);
      }
      if e.lifecycle == Superseded && e.supersededBy == r.replacement {
        return Idempotent;
      }
      if e.lifecycle == Lifecycle.Retired {
        return Refused(EntityRetired);
      }
      if r.replacement.Some? {
        if r.replacement.value !in graph.edges {
          return Refused(NotFound);
        }
        if r.replacement.value == r.edge {
          return Refused(CycleRejected);
        }
        if graph.edges[r.replacement.value].lifecycle != Current {
          return Refused(RelationshipConflict);
        }
      }
      StoredEdge(graph.Content(), r.edge);
      verdict := CommitEdge(SupersededEdge(e, r.replacement), persisted);
    }

    /** Revalidation and evidence updates share everything but their defaults. */
    method ApplyEvidence(env: Env, c: Context, id: EdgeId, evidence: Counter, lifecycle: Lifecycle, expected: Counter,
                         expectedEdge: Counter, metadata: Option<Metadata>, persisted: bool) returns (verdict: Verdict)
      requires Valid()
      modifies graph
      ensures Valid()
      ensures Result(View(), verdict)
              == ChangeEvidence(old(View()), env, c, id, evidence, lifecycle, expected, expectedEdge, metadata,
                  persisted)
    {
      hide CheckAuthority, AuthorityOutcome, Shaped, FinishEdge, CurrentnessBlocked, PlainlyIndexed, Plain, KeepsUnique;
      ChangeEvidenceOrderly(View(), env, c, id, evidence, lifecycle, expected, expectedEdge, metadata, persisted);
      if id !in graph.edges {
        return Refused(NotFound);
      }
      var e := graph.edges[id];
      var granted := CheckAuthority(View(), c, e.domain, IncrementalWrite);
      if granted != Granted {
        return Refused(AuthorityOutcome(granted));
      }
      if Stale(expected, graph.generation) || Stale(expectedEdge, e.generation) {
        return Refused(StaleGeneration);
      }
      if e.lifecycle == Lifecycle.Retired {
        return Refused(EntityRetired);
      }
      if e.lifecycle == Superseded {
        return Refused(EntitySuperseded);
      }
      if lifecycle == Current {
        var blocked := CurrentnessBlocked(graph.Content(), env, e);
        if blocked != Ok {
          return Refused(blocked);
        }
      }
      if e.evidence == evidence && e.lifecycle == lifecycle && (metadata.None? || e.metadata == metadata.value) {
        return Idempotent;
      }
      StoredEdge(graph.Content(), id);
      verdict := CommitEdge(WithEvidence(graph.Content(), c, e, evidence, lifecycle, metadata), persisted);
    }

    method UpdateEvidence(env: Env, c: Context, r: Request, persisted: bool) returns (verdict: Verdict)
      requires Valid() && r.UpdateEvidence?
      modifies graph
      ensures Valid() && Result(View(), verdict) == DoUpdateEvidence(old(View()), env, c, r, persisted)
    {
      hide Shaped, ChangeEvidence, MetadataOk, PlainlyIndexed, Plain;
      if !MetadataOk(r.metadata, env.limits) || Dead(r.lifecycle) {
        return Refused(MalformedRequest);
      }
      verdict := ApplyEvidence(env, c, r.edge, r.evidence, r.lifecycle, r.expected, r.expectedEdge,
                               if r.replaceMetadata then Some(r.metadata) else None, persisted);
    }

    // ---- Adding a relationship -------------------------------------------------------------------------

    /** File one new edge and finish. The insertion is noted before it is tried: when the identifier is taken, undoing
        it erases the edge that was in the way. */
    method CommitNewEdge(e: Edge, persisted: bool) returns (verdict: Verdict)
      requires graph.Firm() && (Crosses(e) ==> e.secondary in graph.definitions)
      modifies graph
      ensures graph.Firm()
      ensures Result(View(), verdict)
              == if e.id in old(graph.edges) then FailedFiling(old(View()), e.id)
                 else FinishNewEdge(old(View()), e, persisted)
    {
      hide FullyIndexed, Tidy, LeadsBack, Unwound, UnwoundIndex, UndoneIndex, PlainlyIndexed, Plain, WithEdge,
           WithoutEdge, Crosses, Enlist, Delist, Found;
      ghost var start := graph.Content();
      StartsHere(start);
      var txn := new StateTxn(graph);
      txn.Note(EdgeInserted(e.id));
      assert txn.entries == [EdgeInserted(e.id)];
      PlainWithEdge(start, e, Enlist(start.lookups, e));
      var ok := graph.InsertEdge(e);
      UnwoundOne(graph.Content(), EdgeInserted(e.id));
      if !ok {
        ErasingLeadsBack(start, e.id);
        UnwoundRestores(start, graph.ix, txn.entries, WithoutStored(start, e.id));
        txn.Rollback();
        return Refused(InternalError);
      }
      OneMoreLeadsBack(start, [], start, InsertEdge(e), EdgeInserted(e.id));
      var o := Settle(txn, persisted, start);
      verdict := if o == Ok then Committed else Refused(o);
    }

    method ApplyCandidateEdge(c: Context, k: Candidate, persisted: bool) returns (verdict: Verdict)
      requires Valid() && k.from in graph.nodes && k.to in graph.nodes && !Swapped(k.relation, k.from, k.to)
      requires k.domain in graph.definitions && (k.crossDomain ==> k.secondary in graph.definitions)
      modifies graph
      ensures Valid() && Result(View(), verdict) == ApplyCandidate(old(View()), c, k, persisted)
    {
      hide Shaped, FinishEdge, FinishNewEdge, FailedFiling, ValidateCandidate, SameStatement, MakeKey, KeyOf,
           EndpointsMatch, RestatedEdge, NewEdge, PlainlyIndexed, Plain, KeyOnlyFor, NameOnlyFor, UniqueExactly,
           Crosses, FindKey, FindRelationship;
      ApplyCandidateLawful(View(), c, k, persisted);
      if k.id == "" || k.relationship == "" {
        return Refused(MalformedRequest);
      }
      var key := MakeKey(k.relation, k.from, k.to, k.domain);
      var byKey := graph.EdgeByKey(key);
      if byKey.Some? && byKey.value != k.id {
        return Refused(DuplicateEdge);
      }
      if k.id in graph.edges && KeyOf(graph.edges[k.id]) != key {
        return Refused(DuplicateIdentity);
      }
      var byRelationship := graph.EdgeByRelationship(k.relationship);
      if byRelationship.Some? && byRelationship.value != k.id {
        return Refused(DuplicateIdentity);
      }
      if byKey.Some? {
        if !Live(graph.edges[k.id]) {
          return Refused(EntityRetired);
        }
        if SameStatement(graph.edges[k.id], k) && EndpointsMatch(graph.Content(), graph.edges[k.id], k.from, k.to) {
          return Idempotent;
        }
      }
      var valid := Validate(graph, k, byKey.None?);
      if valid != Ok {
        return Refused(valid);
      }
      if byKey.Some? {
        RestatedStaysStored(graph.Content(), k);
        verdict := CommitEdge(RestatedEdge(graph.Content(), graph.edges[k.id], k), persisted);
      } else {
        NewEdgeParts(graph.Content(), c, k);
        verdict := CommitNewEdge(NewEdge(graph.Content(), c, k, RealEvidence, OperatorDeclaration), persisted);
      }
    }

    method AddRelationship(env: Env, c: Context, r: Request, persisted: bool) returns (verdict: Verdict)
      requires Valid() && r.AddRelationship?
      modifies graph
      ensures Valid() && Result(View(), verdict) == DoAddRelationship(old(View()), env, c, r, persisted)
    {
      hide CheckAuthority, Shaped, MetadataOk, ApplyCandidate, ResolveScope, Normalize, CandidateOf, PlainlyIndexed,
           Plain;
      if r.relation == UnknownRelation || r.from == "" || r.to == "" || !MetadataOk(r.metadata, env.limits) {
        return Refused(MalformedRequest);
      }
      if r.from !in graph.nodes || r.to !in graph.nodes {
        return Refused(UnknownEntity);
      }
      var layer := ResolveLayer(r.relation, r.layer);
      if layer.None? {
        return Refused(MalformedRequest);
      }
      var (from, to) := Normalize(r.relation, r.from, r.to);
      NormalizePermutes(r.relation, r.from, r.to);
      var scope := ResolveScope(graph.rules, graph.nodes[from].domain, graph.nodes[to].domain, r.domain, r.relation,
          r.allowCross);
      if scope.NoScope? {
        return Refused(DomainViolation);
      }
      CandidateParts(env, r, from, to, layer.value, scope);
      var granted := CheckAuthority(View(), c, scope.domain, IncrementalWrite);
      if granted == Granted && scope.Crossing? {
        granted := CheckAuthority(View(), c, scope.secondary, IncrementalWrite);
      }
      if granted != Granted {
        return Refused(AuthorityOutcome(granted));
      }
      if Stale(r.expected, graph.generation) {
        return Refused(StaleGeneration);
      }
      AskedIsWellPlaced(graph.Content(), env, r);
      verdict := ApplyCandidateEdge(c, CandidateOf(env, r, from, to, layer.value, scope), persisted);
    }

    // ---- Rewriting several edges under one undo log ----------------------------------------------------

    /** Rewrite each of these edges in ascending order, noting what it was. */
    method RewriteEdges(ids: set<EdgeId>, rewrite: Edge -> Edge, txn: StateTxn)
      requires graph.Firm() && txn.state == graph && txn.active
      requires ids <= graph.edges.Keys && Preserves(graph.edges, ids, rewrite) && Among(Sorted(ids), graph.edges)
      modifies graph, txn
      ensures graph.Firm() && txn.active
      ensures graph.Content() == old(graph.Content()).(edges := Rewritten(old(graph.edges), ids, rewrite),
                                                       lookups := Refiled(old(graph.Content()).lookups,
                                                                          old(graph.edges), ids))
      ensures txn.entries == old(txn.entries) + Updates(old(graph.edges), Sorted(ids))
    {
      hide FullyIndexed, Tidy, Rewritten, Preserves, PlainlyIndexed, Plain, WithEdge, WithoutEdge, Enlist, Relist,
           Found, Visited, Lists;
      ghost var before, notes := graph.Content(), txn.entries;
      var order := Sorted(ids);
      VisitedAll(order, ids);
      AllAmong(order, ids, before.edges);
      RewrittenNothing(before.edges, rewrite);
      for i := 0 to |order|
        invariant graph.Firm() && txn.active
        invariant graph.Content() == before.(edges := Rewritten(before.edges, Visited(order[..i]), rewrite),
                                             lookups := Relisted(before.lookups, before.edges, order[..i]))
        invariant Among(order[..i], before.edges)
        invariant txn.entries == notes + Updates(before.edges, order[..i])
      {
        var id := order[i];
        assert order[..i + 1][..i] == order[..i];
        RewrittenStep(before.edges, Visited(order[..i]), id, rewrite);
        VisitedWithin(order, ids, i + 1);
        RewrittenPlain(before, ids, Visited(order[..i + 1]), Relisted(before.lookups, before.edges, order[..i + 1]),
                       rewrite);
        RewriteIsAlike(before, ids, id, rewrite);
        AlikeIsFiledAnew(Relisted(before.lookups, before.edges, order[..i]), before.edges[id],
                         rewrite(before.edges[id]));
        var e := graph.edges[id];
        txn.Note(EdgeUpdated(e));
        var ok := graph.UpdateEdge(rewrite(e));
      }
      assert order[..|order|] == order;
    }

    // ---- Nodes ---------------------------------------------------------------------------------------------

    /** Replace one node, rewrite some of its edges, and finish; the node is noted as the undo log is told it was. */
    method CommitNode(n: Node, noted: Node, ids: set<EdgeId>, rewrite: Edge -> Edge,
                      persisted: bool) returns (verdict: Verdict)
      requires graph.Firm() && n.id in graph.nodes && noted.id == n.id && ids <= graph.edges.Keys
      requires Preserves(graph.edges, ids, rewrite)
      requires EntityFree(graph.nodes, n) && EntityFree(graph.nodes, noted)
      modifies graph
      ensures graph.Firm()
      ensures var g := old(graph.Content());
              var filed := Refiled(g.lookups, g.edges, ids);
              var done := Finish(old(View()), g.nodes[n.id := n], Rewritten(g.edges, ids, rewrite), filed,
                                 FiledBack(filed, g.edges, ids), persisted);
              && verdict == done.verdict
              && View() == if verdict == Committed then done.state
                           else done.state.(graph := done.state.graph.(nodes := g.nodes[n.id := noted]))
    {
      hide FullyIndexed, Tidy, LeadsBack, Unwound, Rewritten, Preserves, WithNode, WithoutNode, PlainlyIndexed, Plain,
           EntityFree, Refiled, Relisted, FiledBack, Lists, Among, Found;
      ghost var g := graph.Content();
      ghost var placed := g.(nodes := g.nodes[n.id := n]);
      ghost var start := g.(nodes := g.nodes[n.id := noted]);
      ghost var order := Sorted(ids);
      PlainWithNode(g, n);
      PlainWithNode(g, noted);
      var txn := new StateTxn(graph);
      txn.Note(NodeUpdated(noted));
      var ok := graph.UpdateNode(n);
      AllAmong(order, ids, g.edges);
      assert txn.entries == [NodeUpdated(noted)];
      RewriteEdges(ids, rewrite, txn);
      NotedNodeLeadsBack(placed, noted, start);
      RewritesAreUndone(placed, ids, rewrite, Refiled(g.lookups, g.edges, ids), [NodeUpdated(noted)], start);
      UnwoundOne(placed.(lookups := FiledBack(Refiled(g.lookups, g.edges, ids), g.edges, ids)), NodeUpdated(noted));
      var o := Settle(txn, persisted, start);
      verdict := if o == Ok then Committed else Refused(o);
    }

    /** File one new node and finish. */
    method CommitNewNode(n: Node, persisted: bool) returns (verdict: Verdict)
      requires graph.Firm() && n.id !in graph.nodes && FindEntity(graph.nodes, n.entity).None?
      modifies graph
      ensures graph.Firm()
      ensures Result(View(), verdict)
              == Finish(old(View()), old(graph.nodes)[n.id := n], old(graph.edges), old(graph.Content()).lookups,
                        old(graph.Content()).lookups, persisted)
    {
      hide FullyIndexed, Tidy, LeadsBack, Unwound, PlainlyIndexed, Plain, WithNode, WithoutNode;
      ghost var start := graph.Content();
      PlainWithNode(start, n);
      StartsHere(start);
      OneMoreLeadsBack(start, [], start, InsertNode(n), NodeInserted(n.id));
      var txn := new StateTxn(graph);
      txn.Note(NodeInserted(n.id));
      assert txn.entries == [NodeInserted(n.id)];
      var ok := graph.InsertNode(n);
      UnwoundOne(graph.Content(), NodeInserted(n.id));
      var o := Settle(txn, persisted, start);
      verdict := if o == Ok then Committed else Refused(o);
    }

    /** An existing node takes the registry's present generation; its live edges must then be revalidated. */
    method RefreshNode(id: NodeId, r: Request, record: EntityRecord, persisted: bool) returns (verdict: Verdict)
      requires Valid() && r.AddNode? && id in graph.nodes
      modifies graph
      ensures graph.Firm()
      ensures Result(View(), verdict) == Refreshing(old(View()), id, r, record, persisted)
    {
      hide Shaped, FenceIncident, RefreshedNode, Rewritten, Preserves, Rebound, PlainlyIndexed, Plain, Refiled,
           FiledBack, EntityFree;
      var n := graph.nodes[id];
      if n.entity != r.entity {
        return Refused(DuplicateIdentity);
      }
      if n.entityGeneration == record.generation && n.tier == r.tier && n.metadata == r.metadata
          && n.lifecycle == Current {
        return Idempotent;
      }
      var incident := graph.IncidentTo(id);
      var ids := if n.entityGeneration == record.generation then {}
                 else set e | e in incident && Live(graph.edges[e])
                              && !AlreadyRebound(graph.edges[e], id, record.generation);
      var rewrite := RebindTo(id, record.generation);
      var n' := RefreshedNode(graph.Content(), n, r, record);
      RefreshParts(graph.Content(), id, r, record, ids, rewrite);
      verdict := CommitNode(n', n, ids, rewrite, persisted);
    }

    method AddNode(env: Env, c: Context, r: Request, persisted: bool) returns (verdict: Verdict)
      requires Valid() && r.AddNode?
      modifies graph
      ensures Valid() && Result(View(), verdict) == DoAddNode(old(View()), env, c, r, persisted)
    {
      hide CheckAuthority, AuthorityOutcome, Shaped, MetadataOk, NewNode, RefreshedNode, Lookup, PlainlyIndexed, Plain,
           Refresh, Finish, KeepsUnique;
      AddNodeOrderly(View(), env, c, r, persisted);
      if r.entity == "" {
        return Refused(MalformedRequest);
      }
      if |r.entity| > env.limits.maxIdentifier {
        return Refused(ResourceLimit);
      }
      if r.nodeClass == UnknownNodeClass || r.domain == "" || !MetadataOk(r.metadata, env.limits) {
        return Refused(MalformedRequest);
      }
      if r.domain !in graph.definitions {
        return Refused(DomainViolation);
      }
      var granted := CheckAuthority(View(), c, r.domain, IncrementalWrite);
      if granted != Granted {
        return Refused(AuthorityOutcome(granted));
      }
      if Stale(r.expected, graph.generation) {
        return Refused(StaleGeneration);
      }
      var found := Lookup(env, r.entity);
      if found.None? {
        return Refused(UnknownEntity);
      }
      var record := found.value;
      if record.retired {
        return Refused(EntityRetired);
      }
      if record.superseded {
        return Refused(EntitySuperseded);
      }
      if record.entityClass != EntityClassOf(r.nodeClass) {
        return Refused(IncompatibleEntityClass);
      }
      var id := if r.nodeId.Some? then r.nodeId.value else env.nodeIdOf(r.entity);
      if id == "" {
        return Refused(MalformedRequest);
      }
      if id in graph.nodes {
        verdict := RefreshNode(id, r, record, persisted);
      } else {
        var bound := graph.NodeByEntity(r.entity);
        if bound.Some? {
          return Refused(DuplicateIdentity);
        }
        if |graph.nodes| >= env.limits.maxNodes {
          return Refused(ResourceLimit);
        }
        NodeNames(graph.Content(), c, id, r, record);
        verdict := CommitNewNode(NewNode(graph.Content(), c, id, r, record), persisted);
      }
    }

    /** Erase each of these edges in ascending order, noting it before it goes. */
    method EraseNoted(ids: set<EdgeId>, txn: StateTxn)
      requires graph.Firm() && txn.state == graph && txn.active
      requires ids <= graph.edges.Keys && Among(Sorted(ids), graph.edges)
      modifies graph, txn
      ensures graph.Firm() && txn.active
      ensures graph.Content() == old(graph.Content()).(edges := old(graph.edges) - ids,
                                                       lookups := Delisted(old(graph.Content()).lookups,
                                                                           old(graph.edges), ids))
      ensures txn.entries == old(txn.entries) + Erasures(old(graph.edges), Sorted(ids))
    {
      hide FullyIndexed, Tidy, PlainlyIndexed, Plain, WithEdge, WithoutEdge, Delist, Delisted, Found, Visited, Lists;
      ghost var before, notes := graph.Content(), txn.entries;
      var order := Sorted(ids);
      VisitedAll(order, ids);
      AllAmong(order, ids, before.edges);
      DelistedNone(before.lookups, before.edges);
      assert before.edges - {} == before.edges;
      for i := 0 to |order|
        invariant graph.Firm() && txn.active
        invariant graph.Content() == before.(edges := before.edges - Visited(order[..i]),
                                             lookups := Delisted(before.lookups, before.edges, Visited(order[..i])))
        invariant Among(order[..i], before.edges)
        invariant txn.entries == notes + Erasures(before.edges, order[..i])
      {
        var id := order[i];
        assert before.edges - Visited(order[..i]) - {id} == before.edges - Visited(order[..i + 1]);
        FiledEdge(before, id);
        DelistedOneMore(before.lookups, before.edges, Visited(order[..i]), id);
        var e := graph.edges[id];
        txn.Note(EdgeErased(e));
        var ok := graph.EraseEdge(id);
      }
      assert order[..|order|] == order;
    }

    /** Erase a node and every edge at it, and finish. */
    method CommitRemoval(id: NodeId, ids: set<EdgeId>, persisted: bool) returns (verdict: Verdict)
      requires graph.Firm() && id in graph.nodes && ids == IncidentIds(graph.edges, id)
      modifies graph
      ensures graph.Firm()
      ensures var g := old(graph.Content());
              var left := Delisted(g.lookups, g.edges, ids);
              Result(View(), verdict)
              == Finish(old(View()), g.nodes - {id}, WithoutIncident(g.edges, id), left, FiledBack(left, g.edges, ids),
                        persisted)
    {
      hide FullyIndexed, Tidy, LeadsBack, Unwound, WithNode, WithoutNode, PlainlyIndexed, Plain, Delisted, FiledBack,
           Lists, IncidentIds, WithoutIncident;
      ghost var start := graph.Content();
      ghost var order := Sorted(ids);
      IncidentAreThere(start.edges, id);
      AllAmong(order, ids, start.edges);
      StartsHere(start);
      var n := graph.nodes[id];
      var txn := new StateTxn(graph);
      EraseNoted(ids, txn);
      ghost var thinned := graph.Content();
      assert txn.entries == [] + Erasures(start.edges, order);
      ErasuresAreUndone(start, ids, Delisted(start.lookups, start.edges, ids), [], start);
      UnwoundNone(start.(lookups := FiledBack(Delisted(start.lookups, start.edges, ids), start.edges, ids)));
      OneMoreLeadsBack(thinned, txn.entries, start, EraseNode(id), NodeErased(n));
      txn.Note(NodeErased(n));
      var ok := graph.EraseNode(id);
      var o := Settle(txn, persisted, start);
      verdict := if o == Ok then Committed else Refused(o);
    }

    method RemoveNode(c: Context, r: Request, persisted: bool) returns (verdict: Verdict)
      requires Valid() && r.RemoveNode?
      modifies graph
      ensures Valid() && Result(View(), verdict) == DoRemoveNode(old(View()), c, r, persisted)
    {
      hide CheckAuthority, AuthorityOutcome, Shaped, WithoutIncident, PlainlyIndexed, Plain, Delisted, FiledBack,
           Finish, KeepsUnique;
      RemoveNodeOrderly(View(), c, r, persisted);
      if r.node == "" {
        return Refused(MalformedRequest);
      }
      if r.node !in graph.nodes {
        return Refused(NotFound);
      }
      var granted := CheckAuthority(View(), c, graph.nodes[r.node].domain, AuthoritativeWrite);
      if granted != Granted {
        return Refused(AuthorityOutcome(granted));
      }
      if Stale(r.expected, graph.generation) {
        return Refused(StaleGeneration);
      }
      var incident := graph.IncidentTo(r.node);
      assert incident == IncidentIds(graph.edges, r.node);
      if incident != {} && !r.cascade {
        return Refused(StructuralInvariantViolation);
      }
      verdict := CommitRemoval(r.node, incident, persisted);
    }

    // ---- Replacing an endpoint's entity generation -----------------------------------------------------------

    /** The undo log is given the node as already rebound, so a failure leaves the new binding behind. */
    method ReplaceEndpoint(env: Env, c: Context, r: Request, persisted: bool) returns (verdict: Verdict)
      requires Valid() && r.ReplaceEndpoint?
      modifies graph
      ensures Valid() && Result(View(), verdict) == DoReplaceEndpoint(old(View()), env, c, r, persisted)
    {
      hide Shaped, ReplaceGuard, ReissueIncident, BoundNode, Rewritten, Preserves, Reissued, PlainlyIndexed, Plain,
           Refiled, FiledBack, EntityFree, KeepsUnique;
      ReplaceEndpointOrderly(View(), env, c, r, persisted);
      var guard := GuardReplacement(env, c, r);
      if guard != Ok {
        return Refused(guard);
      }
      GuardsFindTheirTargets(View(), env, c, r);
      var n := graph.nodes[r.node];
      if !r.rebind && r.newGeneration != 0 && r.newGeneration <= n.entityGeneration {
        return Idempotent;
      }
      var bound := BoundNode(env, n, r);
      var n' := bound.(generation := Bump(n.generation), validated := graph.generation);
      var incident := graph.IncidentTo(r.node);
      var ids := set e | e in incident && Live(graph.edges[e]);
      var rewrite := ReissueTo(r.node, bound.entityGeneration);
      ReplacementParts(View(), env, c, r, ids, rewrite);
      verdict := CommitNode(n', bound, ids, rewrite, persisted);
    }

    method GuardReplacement(env: Env, c: Context, r: Request) returns (o: Outcome)
      requires Valid() && r.ReplaceEndpoint?
      ensures o == ReplaceGuard(View(), env, c, r)
    {
      hide CheckAuthority, AuthorityOutcome, Shaped, Lookup, PlainlyIndexed, Plain;
      if r.node == "" || (r.rebind && r.successor == "") {
        return MalformedRequest;
      }
      if r.node !in graph.nodes {
        return NotFound;
      }
      var n := graph.nodes[r.node];
      var granted := CheckAuthority(View(), c, n.domain, IncrementalWrite);
      if granted != Granted {
        return AuthorityOutcome(granted);
      }
      if Stale(r.expected, graph.generation) || Stale(r.expectedNode, n.generation) {
        return StaleGeneration;
      }
      if r.rebind {
        var record := Lookup(env, r.successor);
        if record.None? {
          return UnknownEntity;
        }
        if !InService(record.value) {
          return EntityRetired;
        }
        if record.value.entityClass != EntityClassOf(n.nodeClass) {
          return IncompatibleEntityClass;
        }
        var clash := graph.NodeByEntity(r.successor);
        if clash.Some? && clash.value != r.node {
          return DuplicateIdentity;
        }
      }
      return Ok;
    }

    // ---- Moving an attachment -----------------------------------------------------------------------------------

    method GuardMove(env: Env, c: Context, r: Request) returns (o: Outcome)
      requires Valid() && r.MoveAttachment?
      ensures o == MoveGuard(View(), env, c, r)
    {
      hide CheckAuthority, AuthorityOutcome, Shaped, MetadataOk, ValidateCandidate, MakeKey, MovedCandidate, FindKey,
           PlainlyIndexed, Plain;
      if r.edge == "" || r.target == "" || r.slot == "" || !MetadataOk(r.metadata, env.limits) {
        return MalformedRequest;
      }
      if r.edge !in graph.edges {
        return NotFound;
      }
      var e := graph.edges[r.edge];
      if e.relation != AttachedTo {
        return MalformedRequest;
      }
      var granted := CheckAuthority(View(), c, e.domain, IncrementalWrite);
      if granted != Granted {
        return AuthorityOutcome(granted);
      }
      if Stale(r.expected, graph.generation) || Stale(r.expectedEdge, e.generation) {
        return StaleGeneration;
      }
      if e.lifecycle != Current {
        return NeedsRevalidation;
      }
      if r.target !in graph.nodes {
        return UnknownEntity;
      }
      if r.domain != "" && r.domain != e.domain {
        return DomainViolation;
      }
      if e.from !in graph.nodes {
        return StructuralInvariantViolation;
      }
      var clash := graph.EdgeByKey(MakeKey(AttachedTo, e.from, r.target, e.domain));
      if clash.Some? && clash.value != r.edge {
        return DuplicateEdge;
      }
      o := Validate(graph, MovedCandidate(env, r, e), true);
    }

    /** Supersede the old edge and file the new one. When the new identifier is taken, the undo log erases its
        holder; when the derived name or the new key is taken, undoing the new edge loses its holder to the lookup. */
    method MoveAttachment(env: Env, c: Context, r: Request, persisted: bool) returns (verdict: Verdict)
      requires Valid() && r.MoveAttachment?
      modifies graph
      ensures Valid() && Result(View(), verdict) == DoMoveAttachment(old(View()), env, c, r, persisted)
    {
      hide Shaped, MoveGuard, MovedCandidate, NewEdge, PlainlyIndexed, Plain, UniqueExactly, SparesKeys, SparesNames,
           FailedMove, FinishMove, MakeKey, Crosses;
      ghost var s := View();
      MoveLawful(s, env, c, r, persisted);
      var guard := GuardMove(env, c, r);
      if guard != Ok {
        return Refused(guard);
      }
      GuardsFindTheirTargets(s, env, c, r);
      var e := graph.edges[r.edge];
      var k := MovedCandidate(env, r, e);
      MovedEdgeFits(s, env, c, r);
      NewEdgeParts(graph.Content(), c, k);
      verdict := CommitMove(r.edge, NewEdge(graph.Content(), c, k, RealEvidence, OperatorDeclaration), persisted);
    }

    method CommitMove(id: EdgeId, created: Edge, persisted: bool) returns (verdict: Verdict)
      requires graph.Firm() && id in graph.edges && !Crosses(created)
      modifies graph
      ensures graph.Firm()
      ensures Result(View(), verdict)
              == if created.id in old(graph.edges) then FailedMove(old(View()), id, created.id)
                 else FinishMove(old(View()), id, created, persisted)
    {
      hide FullyIndexed, Tidy, LeadsBack, Unwound, UnwoundIndex, UndoneIndex, WithEdge, WithoutEdge, PlainlyIndexed,
           Plain, Enlist, Delist, Relist, Found, Crosses;
      ghost var g := graph.Content();
      var e := graph.edges[id];
      var superseded := SupersededEdge(e, Some(created.id));
      SupersededParts(g, id, created.id);
      var txn := new StateTxn(graph);
      txn.Note(EdgeUpdated(e));
      var ok := graph.UpdateEdge(superseded);
      ghost var moved, notes := graph.Content(), txn.entries;
      assert notes == [EdgeUpdated(e)];
      StartsHere(g);
      OneMoreLeadsBack(g, [], g, UpdateEdge(superseded), EdgeUpdated(e));
      txn.Note(EdgeInserted(created.id));
      assert txn.entries == [EdgeUpdated(e), EdgeInserted(created.id)] == notes + [EdgeInserted(created.id)];
      PlainWithEdge(moved, created, Enlist(moved.lookups, created));
      ok := graph.InsertEdge(created);
      UnwoundTwo(graph.Content(), EdgeUpdated(e), EdgeInserted(created.id));
      if !ok {
        TakenIdErases(g, moved, id, created.id);
        UnwoundRestores(moved, graph.ix, txn.entries, g.(edges := g.edges - {created.id}));
        txn.Rollback();
        return Refused(InternalError);
      }
      OneMoreLeadsBack(moved, notes, g, InsertEdge(created), EdgeInserted(created.id));
      MoveUnwinds(g, moved, graph.Content(), id, created);
      var o := Settle(txn, persisted, g);
      verdict := if o == Ok then Committed else Refused(o);
    }

    /** Every single-entity mutation, whatever the lookups miss. */
    method Perform(env: Env, c: Context, r: Request, persisted: bool) returns (verdict: Verdict)
      requires Valid()
      modifies graph
      ensures Valid() && Result(View(), verdict) == Mutate(old(View()), env, c, r, persisted)
    {
      hide Shaped, DoAddNode, DoRemoveNode, DoAddRelationship, DoUpdateEvidence, ChangeEvidence, DoSupersede, DoRetire,
           DoMoveAttachment, DoReplaceEndpoint, PlainlyIndexed, Plain;
      match r {
        case AddNode(_, _, _, _, _, _, _) => verdict := AddNode(env, c, r, persisted);
        case RemoveNode(_, _, _) => verdict := RemoveNode(c, r, persisted);
        case AddRelationship(_, _, _, _, _, _, _, _, _, _, _, _, _, _) =>
          verdict := AddRelationship(env, c, r, persisted);
        case UpdateEvidence(_, _, _, _, _, _, _) => verdict := UpdateEvidence(env, c, r, persisted);
        case Revalidate(edge, evidence, expected) =>
          verdict := ApplyEvidence(env, c, edge, evidence, Current, expected, 0, None, persisted);
        case Supersede(_, _, _) => verdict := Supersede(c, r, persisted);
        case Retire(_, _) => verdict := Retire(c, r, persisted);
        case MoveAttachment(_, _, _, _, _, _, _, _, _) => verdict := MoveAttachment(env, c, r, persisted);
        case ReplaceEndpoint(_, _, _, _, _, _) => verdict := ReplaceEndpoint(env, c, r, persisted);
      }
    }

    // ---- Authority ------------------------------------------------------------------------------------------------

    method RegisterPublisher(r: Registration) returns (verdict: Verdict)
      requires Valid()
      modifies this
      ensures Valid() && graph == old(graph) && Result(View(), verdict) == Register(old(View()), r)
    {
      hide Shaped, PlainlyIndexed, Plain;
      if r.publisher == "" || r.boot == "" {
        return Refused(MalformedRequest);
      }
      if r.boot in fenced {
        return Refused(StaleWorkerBoot);
      }
      if r.epoch != epoch {
        return Refused(StaleCoordinatorEpoch);
      }
      var entry := Publisher(r.boot, r.epoch, r.grants, false);
      if r.publisher in publishers {
        var previous := publishers[r.publisher];
        if previous == entry {
          return Idempotent;
        }
        if previous.boot != r.boot {
          fenced := fenced + {previous.boot};
        }
      }
      publishers := publishers[r.publisher := entry];
      return Committed;
    }

    /** Demote these current edges, noting what they were. */
    method DemoteNoted(ids: set<EdgeId>) returns (txn: StateTxn)
      requires graph.Firm() && forall e :: e in ids ==> e in graph.edges && graph.edges[e].lifecycle == Current
      modifies graph
      ensures graph.Firm() && fresh(txn) && txn.state == graph && txn.active
      ensures var g := old(graph.Content());
              && graph.Content() == g.(edges := Rewritten(g.edges, ids, Demoted),
                                       lookups := Refiled(g.lookups, g.edges, ids))
              && LeadsBack(graph.Content(), txn.entries, g)
              && Unwound(graph.Content(), txn.entries) == Undemoted(g, ids)
    {
      hide LeadsBack, Unwound, Rewritten, Preserves, PlainlyIndexed, Plain, Refiled, FiledBack, Lists, Demoted,
           Runs.SomeDemoted;
      ghost var start := graph.Content();
      DemotionFacts(start, ids);
      StartsHere(start);
      txn := new StateTxn(graph);
      AllAmong(Sorted(ids), ids, start.edges);
      RewriteEdges(ids, Demoted, txn);
      assert txn.entries == [] + Updates(start.edges, Sorted(ids));
      RewritesAreUndone(start, ids, Demoted, Refiled(start.lookups, start.edges, ids), [], start);
      UnwoundNone(Undemoted(start, ids));
    }

    /** Demote these current edges, advance the generation and make it durable, or undo it. */
    method Demote(ids: set<EdgeId>, persisted: bool) returns (o: Outcome)
      requires Valid() && forall e :: e in ids ==> e in graph.edges && graph.edges[e].lifecycle == Current
      modifies graph
      ensures Valid()
      ensures (graph.Content(), o)
              == CommitDemotion(old(graph.Content()), ids, Rewritten(old(graph.edges), ids, Demoted), persisted)
    {
      hide Shaped, LeadsBack, Unwound, Rewritten, Preserves, PlainlyIndexed, Plain, Refiled, FiledBack, KeepsUnique,
           Runs.SomeDemoted, Demoted;
      ghost var start := graph.Content();
      DemotionFacts(start, ids);
      Runs.CommittedDemotionOrderly(start, ids, Rewritten(start.edges, ids, Demoted), persisted);
      var txn := DemoteNoted(ids);
      if ids == {} {
        txn.Commit();
        NothingRewritten(start, Demoted);
        return Ok;
      }
      o := Settle(txn, persisted, start);
    }

    method FenceWorker(publisher: PublisherId, boot: BootId, persisted: bool) returns (verdict: Verdict)
      requires Valid()
      modifies this, graph
      ensures Valid() && graph == old(graph)
      ensures Result(View(), verdict) == FencePublisher(old(View()), publisher, boot, persisted)
    {
      hide Shaped, Rewritten, DemotePublisher, PlainlyIndexed, Plain, CommitDemotion;
      if publisher == "" || boot == "" {
        return Refused(MalformedRequest);
      }
      fenced := fenced + {boot};
      if publisher !in publishers {
        return Refused(StaleAuthority);
      }
      if publishers[publisher].boot != boot {
        return Refused(StaleWorkerBoot);
      }
      var already := publishers[publisher].fenced;
      publishers := publishers[publisher := publishers[publisher].(fenced := true)];
      var ids := set e | e in graph.edges && graph.edges[e].provenance.publisher == publisher
          && graph.edges[e].lifecycle == Current;
      PublisherDemotion(graph.edges, publisher, ids);
      var o := Demote(ids, persisted);
      return if o != Ok then Refused(o) else if already then Idempotent else Committed;
    }

    method FenceIncarnation(boot: BootId, persisted: bool)
      requires Valid()
      modifies this, graph
      ensures Valid() && graph == old(graph) && View() == FenceBoot(old(View()), boot, persisted)
    {
      hide Shaped, CommitDemotion, Rewritten, DemoteBoot, PlainlyIndexed, Plain;
      if boot == "" {
        return;
      }
      fenced := fenced + {boot};
      FenceRegistrations(boot);
      var ids := set e | e in graph.edges && graph.edges[e].provenance.boot == boot
          && graph.edges[e].lifecycle == Current;
      BootDemotion(graph.edges, boot, ids);
      var o := Demote(ids, persisted);
    }

    method FenceRegistrations(boot: BootId)
      modifies `publishers
      ensures publishers == map p | p in old(publishers) ::
                if old(publishers)[p].boot == boot then old(publishers)[p].(fenced := true) else old(publishers)[p]
    {
      ghost var before := publishers;
      var rest := publishers.Keys;
      while rest != {}
        invariant rest <= before.Keys && publishers.Keys == before.Keys
        invariant forall p :: p in before ==>
          publishers[p] == if p !in rest && before[p].boot == boot then before[p].(fenced := true) else before[p]
        decreases |rest|
      {
        var p :| p in rest;
        if publishers[p].boot == boot && !publishers[p].fenced {
          publishers := publishers[p := publishers[p].(fenced := true)];
        }
        rest := rest - {p};
      }
    }

    /** A new epoch forgets every registration; what publishers asserted must be revalidated. */
    method AdvanceCoordinatorEpoch(persisted: bool)
      requires Valid()
      modifies this, graph
      ensures Valid() && graph == old(graph) && View() == AdvanceEpoch(old(View()), persisted)
    {
      hide Shaped, Rewritten, DemotePublished, PlainlyIndexed, Plain, Refiled, FiledBack;
      if !CanAdvance(epoch) {
        return;
      }
      epoch := epoch + 1;
      publishers := map[];
      var ids := set e | e in graph.edges && graph.edges[e].provenance.publisher != ""
          && graph.edges[e].lifecycle == Current;
      PublishedDemotion(graph.edges, ids);
      DemoteForEpoch(ids, persisted);
    }

    /** As Demote, except that a generation that cannot advance does not stand in the way. */
    method DemoteForEpoch(ids: set<EdgeId>, persisted: bool)
      requires Valid() && forall e :: e in ids ==> e in graph.edges && graph.edges[e].lifecycle == Current
      modifies graph
      ensures Valid()
      ensures var g := old(graph.Content());
              graph.Content() == if ids == {} then g
                                 else if !persisted then Undemoted(g, ids)
                                 else g.(edges := Rewritten(g.edges, ids, Demoted),
                                         lookups := Refiled(g.lookups, g.edges, ids), generation := Bump(g.generation))
    {
      hide Shaped, LeadsBack, Unwound, UnwoundIndex, Rewritten, Preserves, PlainlyIndexed, Plain, Refiled, FiledBack,
           KeepsUnique, Runs.SomeDemoted, Demoted, TakesNothing;
      ghost var start := graph.Content();
      DemotionFacts(start, ids);
      DemotedStaysShaped(start, ids, Refiled(start.lookups, start.edges, ids));
      var txn := DemoteNoted(ids);
      if ids == {} {
        txn.Commit();
        NothingRewritten(start, Demoted);
        return;
      }
      ghost var final, notes := graph.Content(), txn.entries;
      GenerationLeadsBack(final, notes, start);
      if CanAdvance(graph.generation) {
        txn.Note(GenerationChanged(graph.generation));
        FirmAnyGeneration(final, graph.ix, graph.generation + 1);
        graph.generation := graph.generation + 1;
      }
      if !persisted {
        UnwoundRestores(graph.Content(), graph.ix, txn.entries, start);
        txn.Rollback();
      }
    }

    // ---- Scope administration -------------------------------------------------------------------------------------

    /** Walk up the parents of a new scope, giving up after a bounded number of steps. */
    method WalkParents(parent: DomainId, id: DomainId, limit: nat) returns (o: Outcome)
      ensures o == ParentWalk(graph.definitions, parent, id, limit)
    {
      var cursor, hops := parent, limit;
      while cursor != ""
        invariant ParentWalk(graph.definitions, cursor, id, hops) == ParentWalk(graph.definitions, parent, id, limit)
        decreases hops
      {
        if cursor == id {
          return CycleRejected;
        }
        if cursor !in graph.definitions {
          return Ok;
        }
        if hops == 0 {
          return ResourceLimit;
        }
        cursor, hops := graph.definitions[cursor].parent, hops - 1;
      }
      return Ok;
    }

    method DefineScope(env: Env, d: DomainDefinition) returns (verdict: Verdict)
      requires Valid()
      modifies graph
      ensures Valid() && Result(View(), verdict) == DefineDomain(old(View()), env, d)
    {
      hide Shaped, ParentWalk, Lookup, PlainlyIndexed, Plain, FullyIndexed, Tidy, KeepsUnique;
      if d.id == "" {
        return Refused(MalformedRequest);
      }
      if d.anchor != "" && env.directory.Some? {
        var record := Lookup(env, d.anchor);
        if record.None? {
          return Refused(UnknownEntity);
        }
        if !InService(record.value) {
          return Refused(EntityRetired);
        }
      }
      if d.id in graph.definitions {
        return if graph.definitions[d.id] == d then Idempotent else Refused(DuplicateIdentity);
      }
      if d.parent != "" && d.parent !in graph.definitions {
        return Refused(UnknownEntity);
      }
      var walked := WalkParents(d.parent, d.id, env.limits.maxNodes);
      if walked != Ok {
        return Refused(walked);
      }
      Runs.MoreDomainsKeepOrder(graph.Content(), d);
      graph.Declare(d);
      return Committed;
    }

    method DefineCrossing(r: CrossDomainRule) returns (verdict: Verdict)
      requires Valid()
      modifies graph
      ensures Valid() && Result(View(), verdict) == DefineRule(old(View()), r)
    {
      hide Shaped, PlainlyIndexed, Plain, KeepsUnique;
      if r.from == "" || r.to == "" || r.relation == UnknownRelation {
        return Refused(MalformedRequest);
      }
      if r.from !in graph.definitions || r.to !in graph.definitions {
        return Refused(UnknownEntity);
      }
      if r in graph.rules {
        return Idempotent;
      }
      Runs.OtherFieldsKeepOrder(graph.Content(), 0, graph.rules + [r]);
      FirmAnyRules(graph.Content(), graph.ix, graph.rules + [r]);
      graph.rules := graph.rules + [r];
      return Committed;
    }

    // ---- Publishing ---------------------------------------------------------------------------------------------

    /** Work on a copy; put it in place of the graph only when all of it is valid and durable. */
    method PublishAll(env: Env, c: Context, p: Publication, nodes: seq<ObservedNode>, edges: seq<ObservedEdge>,
                      persisted: bool) returns (verdict: Verdict)
      requires Valid()
      modifies this
      ensures graph == old(graph) || fresh(graph)
      ensures Valid() && Result(View(), verdict) == Publish(old(View()), env, c, p, nodes, edges, persisted)
    {
      hide Shaped, PlainlyIndexed, Plain, CheckAuthority, WellFormed, Reconciled, ValidTopology, Record, EdgesAge,
           KeysUnique, AuthorityOutcome, Found;
      ghost var s := View();
      PublishLawful(s, env, c, p, nodes, edges, persisted);
      var guard := PublishGuard(View(), env, c, p);
      if guard != Ok {
        return Refused(guard);
      }
      if p.head.id in ledger {
        return Idempotent;
      }
      var candidate := new GraphState.Copy(graph);
      var work := new Reconciler(candidate);
      var outcome := work.Fold(env, c, p, nodes, edges, s.graph);
      if outcome != Ok {
        return Refused(outcome);
      }
      if !work.changed {
        ledger := Record(ledger, p.head.id);
        return Idempotent;
      }
      if !CanAdvance(candidate.generation) {
        return Refused(ResourceLimit);
      }
      FirmAnyGeneration(candidate.Content(), candidate.ix, candidate.generation + 1);
      candidate.generation := candidate.generation + 1;
      var valid := ValidateTopology(env, candidate.Content());
      if !valid {
        return Refused(StructuralInvariantViolation);
      }
      if !persisted {
        return Refused(PersistenceIoFailure);
      }
      graph := candidate;
      ledger := Record(ledger, p.head.id);
      return Committed;
    }
  }

  // ---- The undo log -----------------------------------------------------------------------------

  /** Undoing the note of the generation comes first, and puts it back. */
  lemma LastUnwound(now: Graph, ix: Index, g: Graph, entries: seq<Entry>)
    requires now == g.(generation := now.generation)
    ensures Unwound(now, entries + [GenerationChanged(g.generation)]) == Unwound(g, entries)
    ensures UnwoundIndex(now, ix, entries + [GenerationChanged(g.generation)]) == UnwoundIndex(g, ix, entries)
  {
    assert (entries + [GenerationChanged(g.generation)])[..|entries|] == entries;
  }

  lemma UnwoundNone(g: Graph)
    ensures Unwound(g, []) == g
  {
  }

  lemma UnwoundOne(g: Graph, entry: Entry)
    ensures Unwound(g, [entry]) == UndoOne(g, entry)
  {
    hide UndoOne;
    assert [entry][..0] == [];
    assert Unwound(UndoOne(g, entry), []) == UndoOne(g, entry);
  }

  lemma GenerationLeadsBack(g: Graph, entries: seq<Entry>, start: Graph)
    requires Plain(g) && LeadsBack(g, entries, start)
    ensures var now, noted := g.(generation := Bump(g.generation)), entries + [GenerationChanged(g.generation)];
            LeadsBack(now, noted, start) && Unwound(now, noted) == Unwound(g, entries)
  {
    hide Plain, LeadsBack, Unwound;
    OneMoreLeadsBack(g, entries, start, SetGeneration(Bump(g.generation)), GenerationChanged(g.generation));
  }

  lemma UnwoundTwo(g: Graph, first: Entry, last: Entry)
    ensures Unwound(g, [first, last]) == UndoOne(UndoOne(g, last), first)
  {
    hide UndoOne;
    assert [first, last][..1] == [first];
    UnwoundOne(UndoOne(g, last), first);
  }

  lemma StartsHere(g: Graph)
    ensures LeadsBack(g, [], g)
  {
  }

  lemma FirmAnyGeneration(g: Graph, ix: Index, generation: Counter)
    ensures Plain(g) ==> Plain(g.(generation := generation))
    ensures PlainlyIndexed(ix, g) ==> PlainlyIndexed(ix, g.(generation := generation))
  {
    hide Bucketed, NodesIndexed, LookupsAim, EntitiesUnique, SecondariesDeclared, NodesFiled, EdgesFiled;
  }

  lemma FirmAnyRules(g: Graph, ix: Index, rules: seq<CrossDomainRule>)
    ensures Plain(g) ==> Plain(g.(rules := rules))
    ensures PlainlyIndexed(ix, g) ==> PlainlyIndexed(ix, g.(rules := rules))
  {
    hide Bucketed, NodesIndexed, LookupsAim, EntitiesUnique, SecondariesDeclared, NodesFiled, EdgesFiled;
  }

  /** Undoing a whole batch of rewrites, on top of what was noted before. */
  lemma RewritesAreUndone(g: Graph, ids: set<EdgeId>, rewrite: Edge -> Edge, l: Lookups, entries: seq<Entry>,
                          start: Graph)
    requires Plain(g) && ids <= g.edges.Keys && Preserves(g.edges, ids, rewrite) && Among(Sorted(ids), g.edges)
    requires LeadsBack(g, entries, start)
    ensures var now, noted := g.(edges := Rewritten(g.edges, ids, rewrite), lookups := l),
                              entries + Updates(g.edges, Sorted(ids));
            && LeadsBack(now, noted, start)
            && Unwound(now, noted) == Unwound(g.(lookups := FiledBack(l, g.edges, ids)), entries)
  {
    hide Plain, Preserves, LeadsBack, Unwound, Rewritten;
    var order := Sorted(ids);
    VisitedAll(order, ids);
    assert order[..|order|] == order;
    RewritesUnwind(g, ids, order, |order|, rewrite, l, entries, start);
  }

  /** Undoing a whole batch of erasures, on top of what was noted before. */
  lemma ErasuresAreUndone(g: Graph, ids: set<EdgeId>, l: Lookups, entries: seq<Entry>, start: Graph)
    requires Plain(g) && ids <= g.edges.Keys && Among(Sorted(ids), g.edges) && LeadsBack(g, entries, start)
    ensures var now, noted := g.(edges := g.edges - ids, lookups := l), entries + Erasures(g.edges, Sorted(ids));
            && Plain(now) && LeadsBack(now, noted, start)
            && Unwound(now, noted) == Unwound(g.(lookups := FiledBack(l, g.edges, ids)), entries)
  {
    hide Plain, LeadsBack, Unwound;
    var order := Sorted(ids);
    VisitedAll(order, ids);
    assert order[..|order|] == order;
    ErasuresUnwind(g, ids, order, |order|, l, entries, start);
    ThinnedPlain(g, order, |order|, l);
  }

  lemma NothingRewritten(g: Graph, rewrite: Edge -> Edge)
    ensures g.(edges := Rewritten(g.edges, {}, rewrite), lookups := Refiled(g.lookups, g.edges, {})) == g
  {
    RewrittenNothing(g.edges, rewrite);
  }

  // ---- What stays plain ---------------------------------------------------------------------------

  lemma PlainWithEdge(g: Graph, e: Edge, l: Lookups)
    requires Plain(g) && (Crosses(e) ==> e.secondary in g.domains)
    ensures Plain(g.(edges := g.edges[e.id := e], lookups := l))
  {
    hide EntitiesUnique, NodesFiled, Crosses;
  }

  ghost predicate EntityFree(nodes: Nodes, n: Node) {
    forall m :: m in nodes && m != n.id ==> nodes[m].entity != n.entity
  }

  lemma PlainWithNode(g: Graph, n: Node)
    requires Plain(g) && EntityFree(g.nodes, n)
    ensures Plain(g.(nodes := g.nodes[n.id := n]))
  {
    hide EdgesFiled, SecondariesDeclared;
  }

  /** A stored edge goes by its identifier, and a crossing names a declared scope. */
  lemma StoredEdge(g: Graph, id: EdgeId)
    requires Plain(g) && id in g.edges
    ensures g.edges[id].id == id
    ensures g.edges[id].crossDomain && g.edges[id].secondary != "" ==> g.edges[id].secondary in g.domains
  {
    hide EntitiesUnique, NodesFiled;
  }

  lemma RestatedStaysStored(g: Graph, k: Candidate)
    requires Plain(g) && k.from in g.nodes && k.to in g.nodes && k.id in g.edges
    ensures var e := RestatedEdge(g, g.edges[k.id], k);
            e.id == k.id && (Crosses(e) ==> e.secondary in g.domains)
  {
    hide Plain;
    StoredEdge(g, k.id);
  }

  lemma NewEdgeParts(g: Graph, c: Context, k: Candidate)
    requires k.from in g.nodes && k.to in g.nodes
    ensures var e := NewEdge(g, c, k, RealEvidence, OperatorDeclaration);
            e.id == k.id && (Crosses(e) ==> k.crossDomain && e.secondary == k.secondary)
  {
  }

  lemma NormalizePermutes(r: Relation, from: NodeId, to: NodeId)
    ensures Normalize(r, from, to) == (from, to) || Normalize(r, from, to) == (to, from)
  {
  }

  lemma CandidateParts(env: Env, r: Request, from: NodeId, to: NodeId, layer: Layer, scope: Scope)
    requires r.AddRelationship? && !scope.NoScope?
    ensures var k := CandidateOf(env, r, from, to, layer, scope);
            && k.domain == scope.domain && k.crossDomain == scope.Crossing?
            && (scope.Crossing? ==> k.secondary == scope.secondary)
  {
  }

  /** Undoing an insertion that never happened erases the edge that was in the way. */
  lemma ErasingLeadsBack(g: Graph, id: EdgeId)
    requires Plain(g) && id in g.edges
    ensures LeadsBack(g, [EdgeInserted(id)], WithoutStored(g, id))
  {
    hide Plain, Delist;
    TidyWithoutEdge(g, id, Delist(g.lookups, g.edges[id]));
    assert [EdgeInserted(id)][..0] == [];
    StartsHere(WithoutStored(g, id));
  }

  // ---- Nodes and their edges --------------------------------------------------------------------------

  function RebindTo(n: NodeId, generation: Counter): Edge -> Edge {
    (e: Edge) => Rebound(e, n, generation)
  }

  /** The part of adding a node that deals with one that is already there. */
  function Refreshing(s: State, id: NodeId, r: Request, record: EntityRecord, persisted: bool): Result
    requires r.AddNode? && id in s.graph.nodes
  {
    var g := s.graph;
    var n := g.nodes[id];
    if n.entity != r.entity then Refuse(s, DuplicateIdentity)
    else if n.entityGeneration == record.generation && n.tier == r.tier && n.metadata == r.metadata
        && n.lifecycle == Current then
      Result(s, Idempotent)
    else Refresh(s, RefreshedNode(g, n, r, record), n.entityGeneration != record.generation, persisted)
  }

  lemma NotedNodeLeadsBack(placed: Graph, noted: Node, start: Graph)
    requires noted.id in placed.nodes && start == placed.(nodes := placed.nodes[noted.id := noted]) && Plain(start)
    ensures LeadsBack(placed, [NodeUpdated(noted)], start)
  {
    hide Plain;
    assert [NodeUpdated(noted)][..0] == [];
    StartsHere(start);
  }

  lemma RefreshParts(g: Graph, id: NodeId, r: Request, record: EntityRecord, ids: set<EdgeId>, rewrite: Edge -> Edge)
    requires Shaped(g) && r.AddNode? && id in g.nodes && g.nodes[id].entity == r.entity
    requires rewrite == RebindTo(id, record.generation)
    requires ids == if g.nodes[id].entityGeneration == record.generation then {}
                    else set e | e in g.edges && Touches(g.edges[e], id) && Live(g.edges[e])
                                 && !AlreadyRebound(g.edges[e], id, record.generation)
    ensures var n := g.nodes[id];
            var n' := RefreshedNode(g, n, r, record);
            && n.id == id && n'.id == id && n'.entityGeneration == record.generation
            && Preserves(g.edges, ids, rewrite) && ids <= g.edges.Keys
            && EntityFree(g.nodes, n) && EntityFree(g.nodes, n') && g.nodes[id := n] == g.nodes
            && (n.entityGeneration != record.generation ==>
                  ids == FencedIds(g.edges, id, record.generation)
                  && Rewritten(g.edges, ids, rewrite) == FenceIncident(g.edges, id, record.generation))
            && (n.entityGeneration == record.generation ==>
                  Rewritten(g.edges, ids, rewrite) == g.edges && Refiled(g.lookups, g.edges, ids) == g.lookups
                  && FiledBack(g.lookups, g.edges, ids) == g.lookups)
  {
    hide Shaped;
    NodeFacts(g, id);
    if g.nodes[id].entityGeneration == record.generation {
      RewrittenNothing(g.edges, rewrite);
    }
  }

  lemma IncidentAreThere(edges: Edges, n: NodeId)
    ensures IncidentIds(edges, n) <= edges.Keys && edges - IncidentIds(edges, n) == WithoutIncident(edges, n)
  {
  }

  lemma ReplacementParts(s: State, env: Env, c: Context, r: Request, ids: set<EdgeId>, rewrite: Edge -> Edge)
    requires Shaped(s.graph) && r.ReplaceEndpoint? && ReplaceGuard(s, env, c, r) == Ok && r.node in s.graph.nodes
    requires rewrite == ReissueTo(r.node, BoundNode(env, s.graph.nodes[r.node], r).entityGeneration)
    requires ids == set e | e in s.graph.edges && Touches(s.graph.edges[e], r.node) && Live(s.graph.edges[e])
    ensures var g := s.graph;
            var bound := BoundNode(env, g.nodes[r.node], r);
            && bound.id == r.node && Preserves(g.edges, ids, rewrite) && ids == ReissuedIds(g.edges, r.node)
            && Rewritten(g.edges, ids, rewrite) == ReissueIncident(g.edges, r.node, bound.entityGeneration)
            && ids <= g.edges.Keys
            && (forall generation: Counter, validated: Counter ::
                  EntityFree(g.nodes, bound.(generation := generation, validated := validated)))
            && EntityFree(g.nodes, bound)
  {
    hide Shaped, CheckAuthority;
    NodeFacts(s.graph, r.node);
  }

  // ---- Moves --------------------------------------------------------------------------------------------

  lemma SupersededParts(g: Graph, id: EdgeId, other: EdgeId)
    requires Plain(g) && id in g.edges
    ensures var e := SupersededEdge(g.edges[id], Some(other));
            && e.id == id && g.edges[id].id == id
            && Plain(g.(edges := g.edges[id := e], lookups := Relist(g.lookups, g.edges[id], e)))
  {
    hide Plain, Relist;
    StoredEdge(g, id);
    var e := SupersededEdge(g.edges[id], Some(other));
    PlainWithEdge(g, e, Relist(g.lookups, g.edges[id], e));
  }

  lemma TakenIdErases(g: Graph, moved: Graph, id: EdgeId, taken: EdgeId)
    requires Plain(g) && id in g.edges && taken in g.edges && g.edges[id].id == id && Plain(moved)
    requires moved == WithStored(g, SupersededEdge(g.edges[id], Some(taken)))
    ensures LeadsBack(moved, [EdgeUpdated(g.edges[id]), EdgeInserted(taken)], g.(edges := g.edges - {taken}))
    ensures var e, e' := g.edges[id], SupersededEdge(g.edges[id], Some(taken));
            var left := Delist(Relist(g.lookups, e, e'), if taken == id then e' else g.edges[taken]);
            UndoOne(UndoOne(moved, EdgeInserted(taken)), EdgeUpdated(e))
            == g.(edges := g.edges - {taken}, lookups := if taken == id then left else Relist(left, e', e))
  {
    hide Plain, Relist, Delist, Enlist;
    var e, e' := g.edges[id], SupersededEdge(g.edges[id], Some(taken));
    var first := UndoOne(moved, EdgeInserted(taken));
    var left := g.(edges := g.edges - {taken});
    TidyWithoutEdge(moved, taken, Delist(moved.lookups, moved.edges[taken]));
    TidyWithoutEdge(g, taken, UndoOne(first, EdgeUpdated(e)).lookups);
    if taken == id {
      assert moved.edges - {taken} == g.edges - {taken};
    } else {
      assert (moved.edges - {taken})[id := e] == g.edges - {taken};
    }
    assert [EdgeUpdated(e), EdgeInserted(taken)][..1] == [EdgeUpdated(e)] && [EdgeUpdated(e)][..0] == [];
    assert SameButLookups(UndoOne(first, EdgeUpdated(e)), left);
    assert LeadsBack(UndoOne(first, EdgeUpdated(e)), [], left);
    assert LeadsBack(first, [EdgeUpdated(e)], left);
  }

  /** Undoing both halves of a move. */
  lemma MoveUnwinds(g: Graph, moved: Graph, after: Graph, id: EdgeId, created: Edge)
    requires id in g.edges && g.edges[id].id == id && created.id !in g.edges
    requires moved == WithStored(g, SupersededEdge(g.edges[id], Some(created.id)))
    requires after == WithStored(moved, created)
    ensures var e, e' := g.edges[id], SupersededEdge(g.edges[id], Some(created.id));
            UndoOne(UndoOne(after, EdgeInserted(created.id)), EdgeUpdated(e))
            == g.(lookups := Relist(Delist(Enlist(Relist(g.lookups, e, e'), created), created), e', e))
  {
    hide Relist, Delist, Enlist;
    assert after.edges - {created.id} == moved.edges;
    assert moved.edges[id := g.edges[id]] == g.edges;
  }

  // ---- Demotions ------------------------------------------------------------------------------------------------

  /** Demoting a set of current edges keeps their shapes and names. */
  lemma DemotionFacts(g: Graph, ids: set<EdgeId>)
    requires forall e :: e in ids ==> e in g.edges && g.edges[e].lifecycle == Current
    ensures ids <= g.edges.Keys && Preserves(g.edges, ids, Demoted)
    ensures Runs.SomeDemoted(g.edges, Rewritten(g.edges, ids, Demoted))
  {
  }

  lemma DemotedStaysShaped(g: Graph, ids: set<EdgeId>, l: Lookups)
    requires Shaped(g) && Runs.SomeDemoted(g.edges, Rewritten(g.edges, ids, Demoted))
    ensures Shaped(g.(edges := Rewritten(g.edges, ids, Demoted), lookups := l, generation := Bump(g.generation)))
    ensures Shaped(Undemoted(g, ids))
  {
    hide Shaped, Rewritten, KeepsUnique, Refiled, FiledBack;
    var demoted := Rewritten(g.edges, ids, Demoted);
    Runs.DemotedKeepsOrder(g, demoted, Bump(g.generation));
    ShapedAnyLookups(g);
    ShapedAnyLookups(g.(edges := demoted, generation := Bump(g.generation)));
  }

  lemma PublisherDemotion(edges: Edges, publisher: PublisherId, ids: set<EdgeId>)
    requires ids == set e | e in edges && edges[e].provenance.publisher == publisher && edges[e].lifecycle == Current
    ensures Rewritten(edges, ids, Demoted) == DemotePublisher(edges, publisher) && ids == PublisherIds(edges, publisher)
  {
  }

  lemma BootDemotion(edges: Edges, boot: BootId, ids: set<EdgeId>)
    requires ids == set e | e in edges && edges[e].provenance.boot == boot && edges[e].lifecycle == Current
    ensures Rewritten(edges, ids, Demoted) == DemoteBoot(edges, boot) && ids == BootIds(edges, boot)
  {
  }

  lemma PublishedDemotion(edges: Edges, ids: set<EdgeId>)
    requires ids == set e | e in edges && edges[e].provenance.publisher != "" && edges[e].lifecycle == Current
    ensures Rewritten(edges, ids, Demoted) == DemotePublished(edges) && ids == PublishedIds(edges)
  {
  }
}
