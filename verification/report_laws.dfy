/** What a committed publication has put on file, in whose name, and what it has left alone. */
module ReportLaws {
  import opened Types
  import opened Graphs
  import opened Authority
  import opened Mutations
  import opened Reconcile
  import opened DraftLaws
  import opened PublishLaws
  import opened FrameLaws
  import opened EntryLaws
  import opened DraftNames
  import opened SnapshotLaws
  import opened RepublishLaws

  // ---- In whose name ----------------------------------------------------------------------------------

  /** The record names this publisher, its boot and epoch, and this publication, as of this generation. */
  predicate Signed(c: Context, p: Header, generation: Counter, v: Provenance) {
    && v.publisher == c.publisher && v.boot == c.boot && v.epoch == c.epoch && v.publication == p.id
    && v.source == p.source && v.evidenceType == p.evidenceType && v.validated == generation
  }

  /** The edge says what it said, on the word it rested on; at most it has lost its currentness or its life, and is
      bound to new incarnations of its endpoints. */
  predicate Unsaid(before: Edge, after: Edge) {
    && after.provenance == before.provenance && after.evidence == before.evidence && after.metadata == before.metadata
    && after.layer == before.layer && after.supportedBy == before.supportedBy && after.attachment == before.attachment
    && after.supersededBy == before.supersededBy && after.created == before.created
    && after.validated == before.validated && SameShape(before, after) && after.relationship == before.relationship
    && (if after.lifecycle == before.lifecycle
        then (after.fromGeneration, after.toGeneration) == (before.fromGeneration, before.toGeneration)
             || after.lifecycle in {RevalidationRequired, Lifecycle.Retired}
        else after.lifecycle in {RevalidationRequired, Lifecycle.Retired})
  }

  /** The edge is this publication's own, since now or since it was filed. */
  predicate Said(c: Context, p: Header, generation: Counter, before: Edges, e: Edge) {
    && Signed(c, p, generation, e.provenance) && e.validated == generation
    && e.provenance.evidence in {p.evidence, e.evidence}
    && (|| e.created == e.provenance.created == generation
        || (e.id in before && e.created == before[e.id].created
            && e.provenance.created == before[e.id].provenance.created))
  }

  /** Whatever an edge says is what it said before, on the word it rested on, or is said in this publication's name. */
  ghost predicate EdgesSigned(c: Context, p: Header, generation: Counter, before: Edges, after: Edges) {
    forall e :: e in after ==>
      (e in before && Unsaid(before[e], after[e])) || Said(c, p, generation, before, after[e])
  }

  lemma SignedSelf(c: Context, p: Header, generation: Counter, edges: Edges)
    ensures EdgesSigned(c, p, generation, edges, edges)
  {
  }

  lemma SignedChain(c: Context, p: Header, generation: Counter, before: Edges, mid: Edges, after: Edges)
    requires EdgesFiled(mid) && EdgesFiled(after)
    requires EdgesSigned(c, p, generation, before, mid) && EdgesSigned(c, p, generation, mid, after)
    ensures EdgesSigned(c, p, generation, before, after)
  {
    hide Signed;
    forall e | e in after
      ensures (e in before && Unsaid(before[e], after[e])) || Said(c, p, generation, before, after[e])
    {
      if e in mid && Unsaid(mid[e], after[e]) {
        if e in before && Unsaid(before[e], mid[e]) {
          UnsaidStill(before[e], mid[e], after[e]);
        }
      }
    }
  }

  lemma UnsaidStill(before: Edge, mid: Edge, after: Edge)
    requires Unsaid(before, mid) && Unsaid(mid, after)
    ensures Unsaid(before, after)
  {
  }

  /** The edge is as it was, or was alive and has to be revalidated. */
  predicate Unsettled(before: Edge, after: Edge) {
    after == before || (Live(before) && after.lifecycle == RevalidationRequired && Unsaid(before, after))
  }

  /** The same edges, each saying what it said. */
  ghost predicate AllUnsaid(before: Edges, after: Edges) {
    after.Keys == before.Keys && forall e :: e in before ==> Unsettled(before[e], after[e])
  }

  lemma NodeEntryUnsaid(env: Env, c: Context, p: Header, d: Draft, o: ObservedNode)
    requires d.Draft? && NodeEntry(env, c, p, d, o).Draft?
    ensures AllUnsaid(d.g.edges, NodeEntry(env, c, p, d, o).g.edges)
  {
    hide Lookup, NodeSettled, FindEntity, PublishedNode, RestatedNode, Refiled;
  }

  /** Reporting nodes makes no edge say anything new. */
  lemma {:induction false} NodeEntriesUnsaid(env: Env, c: Context, p: Header, d: Draft, os: seq<ObservedNode>)
    requires d.Draft? && NodeEntries(env, c, p, d, os).Draft?
    ensures AllUnsaid(d.g.edges, NodeEntries(env, c, p, d, os).g.edges)
  {
    hide NodeEntry, Unsaid;
    if os != [] {
      var before, after := NodeEntries(env, c, p, d, os[..|os| - 1]), NodeEntries(env, c, p, d, os);
      NodeEntriesUnsaid(env, c, p, d, os[..|os| - 1]);
      NodeEntryUnsaid(env, c, p, before, os[|os| - 1]);
      forall e | e in d.g.edges && Unsaid(d.g.edges[e], before.g.edges[e])
                   && Unsaid(before.g.edges[e], after.g.edges[e]) {
        UnsaidStill(d.g.edges[e], before.g.edges[e], after.g.edges[e]);
      }
    }
  }

  lemma UnsaidSelf(e: Edge)
    ensures Unsaid(e, e)
  {
  }

  lemma UnsaidIsSigned(c: Context, p: Header, generation: Counter, before: Edges, after: Edges)
    requires AllUnsaid(before, after)
    ensures EdgesSigned(c, p, generation, before, after)
  {
    hide Unsaid, Said;
    forall e | e in before {
      UnsaidSelf(before[e]);
    }
  }

  lemma PresentEdgeSigned(env: Env, c: Context, p: Header, d: Draft, k: Candidate)
    requires d.Draft? && PresentEdge(env, c, p, d, k).Draft? && EdgesFiled(d.g.edges)
    ensures EdgesSigned(c, p, d.g.generation, d.g.edges, PresentEdge(env, c, p, d, k).g.edges)
    ensures PresentEdge(env, c, p, d, k).g.generation == d.g.generation
  {
    hide ValidateCandidate, SameStatement, MakeKey, Enlist, Delist, FindKey, PublishedEdge, RestatedByPublication,
         EdgesFiled;
    var g := d.g;
    ValidCandidateFacts(g, k, FindKey(g, MakeKey(k.relation, k.from, k.to, k.domain)).None?);
    PublishedSigned(c, p, g, k);
    if k.id in g.edges {
      FiledUnder(g.edges, k.id);
    }
  }

  lemma FiledUnder(edges: Edges, id: EdgeId)
    requires EdgesFiled(edges) && id in edges
    ensures edges[id].id == id
  {
  }

  lemma PublishedSigned(c: Context, p: Header, g: Graph, k: Candidate)
    requires k.from in g.nodes && k.to in g.nodes
    ensures Said(c, p, g.generation, g.edges, PublishedEdge(c, p, g, k))
    ensures forall e: Edge :: e.id in g.edges && g.edges[e.id] == e ==>
              Said(c, p, g.generation, g.edges, RestatedByPublication(c, p, g, e, k))
  {
  }

  lemma RemoveEdgeSigned(c: Context, p: Header, d: Draft, id: EdgeId)
    requires d.Draft? && id in d.g.edges
    ensures EdgesSigned(c, p, d.g.generation, d.g.edges, RemoveEdge(p, d, id).g.edges)
    ensures RemoveEdge(p, d, id).g.generation == d.g.generation
  {
    hide Enlist, Delist;
  }

  lemma EdgeEntrySigned(env: Env, c: Context, p: Header, d: Draft, o: ObservedEdge)
    requires d.Draft? && EdgeEntry(env, c, p, d, o).Draft? && EdgesFiled(d.g.edges)
    ensures EdgesSigned(c, p, d.g.generation, d.g.edges, EdgeEntry(env, c, p, d, o).g.edges)
    ensures EdgeEntry(env, c, p, d, o).g.generation == d.g.generation
  {
    hide PresentEdge, MakeKey, RemoveEdge, EdgesSigned, ObservedCandidate;
    SignedSelf(c, p, d.g.generation, d.g.edges);
    var noted := d.(keys := d.keys + {ObservedKey(p, o)});
    if o.present {
      PresentEdgeSigned(env, c, p, noted, ObservedCandidate(env, p, o, ResolveLayer(o.relation, o.layer).value));
    } else if FindKey(d.g, ObservedKey(p, o)).Some? {
      RemoveEdgeSigned(c, p, noted, FindKey(d.g, ObservedKey(p, o)).value);
    }
  }

  lemma {:induction false} EdgeEntriesSigned(env: Env, c: Context, p: Header, g: Graph, d: Draft, os: seq<ObservedEdge>)
    requires Tracks(g, d) && p.domain in g.domains && EdgeEntries(env, c, p, d, os).Draft?
    ensures EdgesSigned(c, p, g.generation, d.g.edges, EdgeEntries(env, c, p, d, os).g.edges)
  {
    hide Tracks, EdgeEntry, EdgesSigned, EdgesFiled, Shaped;
    TracksFacts(g, d);
    ShapedEdges(d.g);
    SignedSelf(c, p, g.generation, d.g.edges);
    if os != [] {
      var init, o := os[..|os| - 1], os[|os| - 1];
      var before, after := EdgeEntries(env, c, p, d, init), EdgeEntries(env, c, p, d, os);
      EdgeEntriesSigned(env, c, p, g, d, init);
      EdgeEntriesTrack(env, c, p, g, d, init);
      EdgeEntriesTrack(env, c, p, g, d, os);
      TracksFacts(g, before);
      TracksFacts(g, after);
      ShapedEdges(before.g);
      ShapedEdges(after.g);
      EdgeEntrySigned(env, c, p, before, o);
      SignedChain(c, p, g.generation, d.g.edges, before.g.edges, after.g.edges);
    }
  }

  /** What the absences and the replacement do is said in no one's name. */
  lemma TailSigned(c: Context, p: Header, generation: Counter, d: Draft, names: set<RelId>)
    requires d.Draft?
    ensures var z := AbsenceSet(p, d, names);
            && EdgesSigned(c, p, generation, d.g.edges, z.g.edges)
            && EdgesSigned(c, p, generation, d.g.edges, ReplaceScope(p, z).g.edges)
  {
    hide AbsenceSet, Said, Unsaid, KeptNodes, Delisted, KeyOf;
    AbsencesSigned(c, p, generation, d, names);
  }

  lemma AbsencesSigned(c: Context, p: Header, generation: Counter, d: Draft, names: set<RelId>)
    requires d.Draft?
    ensures EdgesSigned(c, p, generation, d.g.edges, AbsenceSet(p, d, names).g.edges)
  {
    hide LookupsWithoutGone, GoneKeys, Gone;
  }

  /** No publication speaks in another's name, and none lets an edge say something new in the name it had: what any
      edge says after a commit it said before on the same word, or says on the word of this publication. */
  lemma PublishSigns(s: State, env: Env, c: Context, p: Publication, nodes: seq<ObservedNode>,
                     edges: seq<ObservedEdge>, persisted: bool)
    requires Shaped(s.graph)
    ensures EdgesSigned(c, p.head, s.graph.generation, s.graph.edges,
                        Publish(s, env, c, p, nodes, edges, persisted).state.graph.edges)
  {
    hide Publish, Shaped, Tracks, NodeEntries, EdgeEntries, Absences, AbsenceSet, ReplaceScope, EdgesSigned, EdgesFiled,
         EnteredFacts, ValidTopology, Reconciled;
    var g := s.graph;
    PublishAllOrNothing(s, env, c, p, nodes, edges, persisted);
    SignedSelf(c, p.head, g.generation, g.edges);
    if Publish(s, env, c, p, nodes, edges, persisted).verdict == Committed {
      CommittedIsGuarded(s, env, c, p, nodes, edges, persisted);
      ReconciledSigned(env, c, p, g, nodes, edges);
    }
  }

  lemma ReconciledSigned(env: Env, c: Context, p: Publication, g: Graph, nodes: seq<ObservedNode>,
                         edges: seq<ObservedEdge>)
    requires Shaped(g) && p.head.domain in g.domains && Reconciled(env, c, p, g, nodes, edges).Draft?
    ensures EdgesSigned(c, p.head, g.generation, g.edges, Reconciled(env, c, p, g, nodes, edges).g.edges)
  {
    hide Shaped, Tracks, NodeEntries, EdgeEntries, Absences, AbsenceSet, ReplaceScope, EdgesFiled, Said, Unsaid,
         EnteredFacts;
    var d0, d := Placed(env, c, p, g, nodes), Entered(env, c, p, g, nodes, edges);
    ReconciledInSteps(env, c, p, g, nodes, edges);
    DraftAfterEntries(env, c, p, g, nodes, edges);
    FirstDraftTracks(g);
    NodeEntriesUnsaid(env, c, p.head, FirstDraft(g), nodes);
    UnsaidIsSigned(c, p.head, g.generation, g.edges, d0.g.edges);
    EdgeEntriesSigned(env, c, p.head, g, d0, edges);
    TracksFacts(g, d0);
    TracksFacts(g, d);
    ShapedEdges(d0.g);
    ShapedEdges(d.g);
    SignedChain(c, p.head, g.generation, g.edges, d0.g.edges, d.g.edges);
    TailSigned(c, p.head, g.generation, d, Names(p.absences));
    ReconciledStaysShaped(env, c, p, g, nodes, edges);
    ShapedEdges(Reconciled(env, c, p, g, nodes, edges).g);
    SignedChain(c, p.head, g.generation, g.edges, d.g.edges, Reconciled(env, c, p, g, nodes, edges).g.edges);
  }

  // ---- Nodes ---------------------------------------------------------------------------------------------

  /** The node is current and says what the entry says, of the registry's incarnation of its entity. */
  predicate NodeCarries(env: Env, n: Node, o: ObservedNode) {
    && n.entity == o.entity && n.tier == o.tier && n.metadata == o.metadata && n.lifecycle == Current
    && env.directory.Some? && o.entity in env.directory.value
    && var record := env.directory.value[o.entity];
       n.entityGeneration == record.generation && !record.retired && !record.superseded
       && record.entityClass == EntityClassOf(o.nodeClass)
  }

  /** A node that was there keeps its identity, its class and its provenance; if anything about it changes, its own
      counter moves by one. */
  predicate NodeKept(generation: Counter, before: Node, after: Node) {
    after == before
    || (&& after.generation == Bump(before.generation) && after.validated == generation
        && before == after.(entityGeneration := before.entityGeneration, tier := before.tier,
                            metadata := before.metadata, lifecycle := before.lifecycle,
                            validated := before.validated, generation := before.generation))
  }

  /** A new node is the publication's own, of the reported class and in its scope. */
  predicate NodeFiledBy(c: Context, p: Header, generation: Counter, n: Node, o: ObservedNode) {
    && n.nodeClass == o.nodeClass && n.entityClass == EntityClassOf(o.nodeClass) && n.domain == p.domain
    && n.generation == 1 && n.created == n.validated == generation && Signed(c, p, generation, n.provenance)
    && n.provenance.evidence == p.evidence && n.provenance.created == generation
  }

  /** What a node entry leaves of the node it reports. */
  ghost predicate NodeReported(env: Env, c: Context, p: Header, generation: Counter, before: Nodes, after: Nodes,
                               o: ObservedNode) {
    o.present ==>
      var id := ObservedId(env, o);
      && id in after && after[id].id == id && NodeCarries(env, after[id], o)
      && (if id in before then NodeKept(generation, before[id], after[id])
          else NodeFiledBy(c, p, generation, after[id], o))
  }

  lemma NodeEntryReports(env: Env, c: Context, p: Header, d: Draft, o: ObservedNode)
    requires d.Draft? && NodesFiled(d.g.nodes) && NodeEntry(env, c, p, d, o).Draft?
    ensures var d' := NodeEntry(env, c, p, d, o);
            && NodeReported(env, c, p, d.g.generation, d.g.nodes, d'.g.nodes, o)
            && (forall n :: n != ObservedId(env, o) ==> (n in d.g.nodes <==> n in d'.g.nodes))
            && (forall n :: n in d.g.nodes && n != ObservedId(env, o) ==> d'.g.nodes[n] == d.g.nodes[n])
            && ObservedId(env, o) !in d.nodeIds && d'.nodeIds == d.nodeIds + {ObservedId(env, o)}
  {
    hide EntityClassOf, FindEntity, ReissueIncident, Refiled;
  }

  lemma {:induction false} NodeEntriesReport(env: Env, c: Context, p: Header, g: Graph, d: Draft, os: seq<ObservedNode>)
    requires Tracks(g, d) && p.domain in g.domains && d.nodeIds == {} && NodeEntries(env, c, p, d, os).Draft?
    ensures var d' := NodeEntries(env, c, p, d, os);
            && d'.nodeIds == ObservedIds(env, os)
            && (forall o :: o in os ==> NodeReported(env, c, p, g.generation, d.g.nodes, d'.g.nodes, o))
            && (forall n :: n !in d'.nodeIds ==> (n in d.g.nodes <==> n in d'.g.nodes))
            && (forall n :: n in d.g.nodes && n !in d'.nodeIds ==> d'.g.nodes[n] == d.g.nodes[n])
  {
    hide Tracks, NodeEntry, NodeCarries, NodeKept, NodeFiledBy, Shaped, NodesFiled;
    TracksFacts(g, d);
    if os == [] {
      assert ObservedIds(env, os) == {};
    } else {
      var init, o := os[..|os| - 1], os[|os| - 1];
      var before, after := NodeEntries(env, c, p, d, init), NodeEntries(env, c, p, d, os);
      LastEntry(os);
      assert ObservedIds(env, os) == ObservedIds(env, init) + {ObservedId(env, o)};
      NodeEntriesReport(env, c, p, g, d, init);
      NodeEntriesTrack(env, c, p, g, d, init);
      TracksFacts(g, before);
      ShapedEdges(before.g);
      NodeEntryReports(env, c, p, before, o);
      forall x | x in init
        ensures ObservedId(env, x) != ObservedId(env, o)
        ensures NodeReported(env, c, p, g.generation, d.g.nodes, after.g.nodes, x)
      {
        assert ObservedId(env, x) in ObservedIds(env, init);
      }
    }
  }

  /** Whatever a committed publication reports of a node is on file: the node is there, current, and says what was
      reported; a new one is of the reported class and scope and in the publication's name. */
  lemma NodesAreOnFile(s: State, env: Env, c: Context, p: Publication, nodes: seq<ObservedNode>,
                       edges: seq<ObservedEdge>, persisted: bool, o: ObservedNode)
    requires Shaped(s.graph) && Publish(s, env, c, p, nodes, edges, persisted).verdict == Committed && o in nodes
    ensures NodeReported(env, c, p.head, s.graph.generation, s.graph.nodes,
                         Publish(s, env, c, p, nodes, edges, persisted).state.graph.nodes, o)
  {
    hide Publish, Shaped, Tracks, NodeEntries, EdgeEntries, Absences, AbsenceSet, ReplaceScope, EnteredFacts,
         ValidTopology, NodeReported, NodesFiled;
    var g := s.graph;
    CommittedIsGuarded(s, env, c, p, nodes, edges, persisted);
    ReconciledInSteps(env, c, p, g, nodes, edges);
    DraftAfterEntries(env, c, p, g, nodes, edges);
    FirstDraftTracks(g);
    NodeEntriesReport(env, c, p.head, g, FirstDraft(g), nodes);
    var d0, d := Placed(env, c, p, g, nodes), Entered(env, c, p, g, nodes, edges);
    EdgeEntriesKeepNodes(env, c, p.head, d0, edges);
    TracksFacts(g, d);
    ShapedEdges(d.g);
    SameNodes(p.head, d, Names(p.absences));
    var z := AbsenceSet(p.head, d, Names(p.absences));
    assert ObservedId(env, o) in d.nodeIds;
    MentionedNodesStay(p.head, z, ObservedId(env, o));
    OneNodeReported(env, c, p.head, g.generation, g.nodes, d.g.nodes,
                    Publish(s, env, c, p, nodes, edges, persisted).state.graph.nodes, o);
  }

  lemma OneNodeReported(env: Env, c: Context, p: Header, generation: Counter, before: Nodes, mid: Nodes, after: Nodes,
                        o: ObservedNode)
    requires NodeReported(env, c, p, generation, before, mid, o)
    requires var id := ObservedId(env, o); id in mid ==> id in after && after[id] == mid[id]
    ensures NodeReported(env, c, p, generation, before, after, o)
  {
    hide NodeCarries, NodeKept, NodeFiledBy;
  }

  lemma MentionedNodesStay(p: Header, d: Draft, id: NodeId)
    requires d.Draft? && NodesFiled(d.g.nodes) && id in d.nodeIds
    ensures id in d.g.nodes ==>
              id in ReplaceScope(p, d).g.nodes && ReplaceScope(p, d).g.nodes[id] == d.g.nodes[id]
  {
    hide Delisted, LeftOut;
  }

  lemma {:induction false} EdgeEntriesKeepNodes(env: Env, c: Context, p: Header, d: Draft, os: seq<ObservedEdge>)
    requires d.Draft? && EdgeEntries(env, c, p, d, os).Draft?
    ensures EdgeEntries(env, c, p, d, os).g.nodes == d.g.nodes && EdgeEntries(env, c, p, d, os).nodeIds == d.nodeIds
  {
    hide EdgeEntry;
    if os != [] {
      EdgeEntriesKeepNodes(env, c, p, d, os[..|os| - 1]);
      EdgeEntryKeepsNodes(env, c, p, EdgeEntries(env, c, p, d, os[..|os| - 1]), os[|os| - 1]);
    }
  }

  // ---- Relationships ----------------------------------------------------------------------------------------

  /** The edge stands for the reported relationship: of its relation, in the scope, between its endpoints, which have an
      order only if the relation has a direction. */
  predicate StandsFor(p: Header, e: Edge, o: ObservedEdge) {
    && e.relation == o.relation && e.domain == p.domain
    && ((e.from, e.to) == (o.from, o.to) || (Undirected(o.relation) && (e.from, e.to) == (o.to, o.from)))
  }

  lemma SameKeyStandsFor(p: Header, e: Edge, o: ObservedEdge)
    ensures KeyOf(e) == ObservedKey(p, o) <==> StandsFor(p, e, o)
  {
    hide Swapped, Undirected;
    SameKey(e.relation, e.from, e.to, o.from, o.to, p.domain);
  }

  /** An edge on file that says what the entry says, or, short of a snapshot, rests on newer evidence. */
  ghost predicate OnFileAs(env: Env, p: Header, g: Graph, o: ObservedEdge) {
    var id := ObservedEdgeId(env, p, o);
    && id in g.edges && FindKey(g, ObservedKey(p, o)) == Some(id) && StandsFor(p, g.edges[id], o) && Live(g.edges[id])
    && (Carries(g.edges[id], o) || (p.mode != AuthoritativeSnapshot && g.edges[id].evidence > o.evidence))
  }

  lemma DoneIsOnFile(env: Env, p: Header, g: Graph, o: ObservedEdge)
    requires EntryDone(env, p, g, o)
    ensures o.present ==> OnFileAs(env, p, g, o)
    ensures !o.present ==> forall e :: e in g.edges && StandsFor(p, g.edges[e], o) ==> !Live(g.edges[e])
  {
    hide Swapped, Undirected, SelfConsistent, ObservedCandidate, ResolveLayer;
    forall e | e in g.edges {
      SameKeyStandsFor(p, g.edges[e], o);
    }
    if o.present {
      CandidateNames(env, p, o, ResolveLayer(o.relation, o.layer).value);
    }
  }

  /** Whatever a committed publication reports of a relationship is on file, and found by its key: a live edge between
      the reported endpoints that says what was reported, or rests on newer evidence. Where it reports that there is
      none, no live edge is left. What it also declares absent is left to the absence. */
  lemma ReportsAreOnFile(s: State, env: Env, c: Context, p: Publication, nodes: seq<ObservedNode>,
                         edges: seq<ObservedEdge>, persisted: bool, o: ObservedEdge)
    requires Structured(s.graph) && KeysFound(p, s.graph) && Rearranges(edges, p.edges) && o in p.edges
    requires Publish(s, env, c, p, nodes, edges, persisted).verdict == Committed
    ensures var g := Publish(s, env, c, p, nodes, edges, persisted).state.graph;
            && (Asserted(env, p, s.graph.edges, o) ==> OnFileAs(env, p.head, g, o))
            && (!o.present ==> forall e :: e in g.edges && StandsFor(p.head, g.edges[e], o) ==> !Live(g.edges[e]))
  {
    hide Publish, Reconciled, Structured, KeysFound, ValidTopology, StoredName, EntryDone, OnFileAs, StandsFor;
    CommittedIsGuarded(s, env, c, p, nodes, edges, persisted);
    SameMembers(edges, p.edges);
    var d := Reconciled(env, c, p, s.graph, nodes, edges);
    var g := Publish(s, env, c, p, nodes, edges, persisted).state.graph;
    if !o.present || Asserted(env, p, s.graph.edges, o) {
      EntryStaysDone(env, c, p, s.graph, nodes, edges, o);
      DoneIsOnFile(env, p.head, d.g, o);
      OnFileAnyGeneration(env, p.head, d.g, g, o);
    }
  }

  lemma OnFileAnyGeneration(env: Env, p: Header, g: Graph, h: Graph, o: ObservedEdge)
    requires h.edges == g.edges && h.lookups == g.lookups
    ensures OnFileAs(env, p, g, o) ==> OnFileAs(env, p, h, o)
  {
    hide StandsFor, Carries, KeyOf, ObservedKey;
  }

  // ---- Evidence ------------------------------------------------------------------------------------------------

  /** As long as an edge stands for the same relationship, the evidence it rests on is never older than before. */
  ghost predicate EvidenceGrows(before: Edges, after: Edges) {
    forall e :: e in before && e in after && KeyOf(before[e]) == KeyOf(after[e]) ==>
      after[e].evidence >= before[e].evidence
  }

  lemma SettledEvidence(env: Env, p: Header, g: Graph, after: Edges, o: ObservedEdge, e: EdgeId)
    requires Settled(env, p, g, after, o) && e in g.edges && e in after
    requires KeyOf(g.edges[e]) == KeyOf(after[e]) == ObservedKey(p, o)
    ensures after[e].evidence >= g.edges[e].evidence
  {
    hide KeyOf, ObservedKey, ObservedName, ObservedEdgeId, SameShape;
  }

  lemma EntriesEvidence(env: Env, p: Header, g: Graph, d: Draft, os: seq<ObservedEdge>)
    requires d.Draft? && AllSettled(env, p, g, d, os)
    ensures EvidenceGrows(g.edges, d.g.edges)
  {
    hide Settled, KeyOf, ObservedKey, KeysOutside;
    forall e | e in g.edges && e in d.g.edges && KeyOf(g.edges[e]) == KeyOf(d.g.edges[e])
      ensures d.g.edges[e].evidence >= g.edges[e].evidence
    {
      if KeyOf(g.edges[e]) in d.keys {
        var i :| 0 <= i < |os| && ObservedKey(p, os[i]) == KeyOf(g.edges[e]);
        SettledEvidence(env, p, g, d.g.edges, os[i], e);
      }
    }
  }

  /** The absences and the replacement add nothing, and take no evidence back. */
  ghost predicate OnlyLess(before: Edges, after: Edges) {
    forall e :: e in after ==>
      e in before && KeyOf(after[e]) == KeyOf(before[e]) && after[e].evidence == before[e].evidence
  }

  lemma TailIsLess(p: Header, d: Draft, names: set<RelId>)
    requires d.Draft?
    ensures var z := AbsenceSet(p, d, names);
            OnlyLess(d.g.edges, z.g.edges) && OnlyLess(d.g.edges, ReplaceScope(p, z).g.edges)
  {
    hide LookupsWithoutGone, GoneKeys, Gone, MakeKey, KeptNodes, Delisted;
  }

  lemma UnsaidEvidence(before: Edges, after: Edges)
    requires AllUnsaid(before, after)
    ensures after.Keys == before.Keys
    ensures forall e :: e in before ==>
              KeyOf(before[e]) == KeyOf(after[e]) && after[e].evidence == before[e].evidence
  {
    hide MakeKey;
  }

  /** No publication takes a relationship back to older evidence. */
  lemma EvidenceNeverFalls(s: State, env: Env, c: Context, p: Publication, nodes: seq<ObservedNode>,
                           edges: seq<ObservedEdge>, persisted: bool)
    requires Shaped(s.graph)
    ensures EvidenceGrows(s.graph.edges, Publish(s, env, c, p, nodes, edges, persisted).state.graph.edges)
  {
    hide Publish, Shaped, NodeEntries, EdgeEntries, Absences, AbsenceSet, ReplaceScope, AllSettled, ValidTopology,
         KeyOf, OnlyNodes, Tracks, NewNamesDiffer, NewcomersObserved, Pointed, AllUnsaid;
    var g := s.graph;
    PublishAllOrNothing(s, env, c, p, nodes, edges, persisted);
    if Publish(s, env, c, p, nodes, edges, persisted).verdict == Committed {
      var d0, d := Placed(env, c, p, g, nodes), Entered(env, c, p, g, nodes, edges);
      CommittedIsGuarded(s, env, c, p, nodes, edges, persisted);
      ReconciledInSteps(env, c, p, g, nodes, edges);
      NodeEntriesUnsaid(env, c, p.head, FirstDraft(g), nodes);
      UnsaidEvidence(g.edges, d0.g.edges);
      EntriesEvidence(env, p.head, d0.g, d, edges);
      TailIsLess(p.head, d, Names(p.absences));
      var f := Publish(s, env, c, p, nodes, edges, persisted).state.graph.edges;
      assert OnlyLess(d.g.edges, f);
      EvidenceChain(g.edges, d0.g.edges, d.g.edges, f);
    }
  }

  lemma EvidenceChain(a: Edges, b: Edges, c: Edges, d: Edges)
    requires a.Keys == b.Keys && EvidenceGrows(b, c) && OnlyLess(c, d)
    requires forall e :: e in a ==> KeyOf(a[e]) == KeyOf(b[e]) && b[e].evidence == a[e].evidence
    ensures EvidenceGrows(a, d)
  {
    hide KeyOf;
  }

  // ---- Other scopes, and the dead -------------------------------------------------------------------------------

  /** Nodes of another scope are there, and as they were unless they were mentioned; new nodes are mentioned ones. */
  ghost predicate NodesElsewhere(p: Header, g: Graph, h: Graph, ids: set<NodeId>) {
    && (forall n :: n in g.nodes && g.nodes[n].domain != p.domain ==>
          n in h.nodes && (n !in ids ==> h.nodes[n] == g.nodes[n]))
    && (forall n :: n in h.nodes && n !in g.nodes ==> n in ids && h.nodes[n].domain == p.domain)
  }

  /** Edges of another scope are there, and as they were unless an endpoint was bound anew; none is new; and dead edges
      are as they were wherever they are. */
  ghost predicate EdgesElsewhere(p: Header, g: Graph, h: Graph) {
    && (forall e :: e in g.edges && g.edges[e].domain != p.domain ==>
          e in h.edges && Unsettled(g.edges[e], h.edges[e]))
    && (forall e :: e in h.edges && h.edges[e].domain != p.domain ==> e in g.edges)
    && (forall e :: e in g.edges && !Live(g.edges[e]) ==> e in h.edges && h.edges[e] == g.edges[e])
  }

  lemma EntriesElsewhere(env: Env, p: Header, g: Graph, d0: Draft, d: Draft, os: seq<ObservedEdge>)
    requires EnteredFacts(env, p, g, d0, d, os) && AllUnsaid(g.edges, d0.g.edges)
    ensures EdgesElsewhere(p, g, d.g)
  {
    hide Settled, ObservedKey, MakeKey, KeysOutside, Unsaid, Shaped, Origins, NewNamesDiffer, UnmentionedKept,
         NewcomersObserved, Pointed, KeyListed, NameListed;
    forall key | key in d.keys
      ensures key.domain == p.domain
    {
      var i :| 0 <= i < |os| && ObservedKey(p, os[i]) == key;
      ObservedDomain(p, os[i]);
    }
    forall e: Edge {
      KeyDomain(e);
    }
    SameScopes(g.edges, d0.g.edges);
  }

  lemma SameScopes(before: Edges, after: Edges)
    requires AllUnsaid(before, after)
    ensures forall e :: e in before ==> after[e].domain == before[e].domain
  {
  }

  /** Dropping or retiring live edges of the scope itself leaves the others alone. */
  lemma OwnScopeOnly(p: Header, g: Graph, h: Graph, after: Graph)
    requires EdgesElsewhere(p, g, h) && after.edges.Keys <= h.edges.Keys
    requires forall e :: e in h.edges && (h.edges[e].domain != p.domain || !Live(h.edges[e])) ==>
               e in after.edges && after.edges[e] == h.edges[e]
    requires forall e :: e in after.edges ==> after.edges[e].domain == h.edges[e].domain
    ensures EdgesElsewhere(p, g, after)
  {
    forall e | e in g.edges && e in h.edges && Unsettled(g.edges[e], h.edges[e])
      ensures h.edges[e].domain == g.edges[e].domain
    {
    }
  }

  lemma TailElsewhere(p: Header, g: Graph, d: Draft, names: set<RelId>)
    requires d.Draft? && EdgesElsewhere(p, g, d.g)
    ensures var z := AbsenceSet(p, d, names);
            EdgesElsewhere(p, g, z.g) && EdgesElsewhere(p, g, ReplaceScope(p, z).g)
  {
    hide LookupsWithoutGone, GoneKeys, KeyOf, KeptNodes, Delisted, EdgesElsewhere;
    var z := AbsenceSet(p, d, names);
    OwnScopeOnly(p, g, d.g, z.g);
    OwnScopeOnly(p, g, z.g, ReplaceScope(p, z).g);
  }

  lemma NodesTailElsewhere(p: Header, g: Graph, d: Draft)
    requires d.Draft? && NodesElsewhere(p, g, d.g, d.nodeIds) && NodesFiled(d.g.nodes)
    requires forall n :: n in g.nodes && n in d.g.nodes ==> d.g.nodes[n].domain == g.nodes[n].domain
    ensures NodesElsewhere(p, g, ReplaceScope(p, d).g, d.nodeIds)
  {
    hide Delisted, LeftOut, Isolated;
  }

  lemma PlacedElsewhere(env: Env, c: Context, p: Header, g: Graph, os: seq<ObservedNode>)
    requires Shaped(g) && p.domain in g.domains && NodeEntries(env, c, p, FirstDraft(g), os).Draft?
    ensures var d0 := NodeEntries(env, c, p, FirstDraft(g), os);
            && NodesElsewhere(p, g, d0.g, d0.nodeIds)
            && (forall n :: n in g.nodes ==> n in d0.g.nodes && d0.g.nodes[n].domain == g.nodes[n].domain)
  {
    hide NodeEntries, Tracks, Shaped, NodeCarries, Signed, ObservedId;
    FirstDraftTracks(g);
    NodeEntriesReport(env, c, p, g, FirstDraft(g), os);
    NodeEntriesOnlyReported(env, c, p, FirstDraft(g), os);
  }

  /** A node is mentioned by a present entry, or is as it was. */
  lemma {:induction false} NodeEntriesOnlyReported(env: Env, c: Context, p: Header, d: Draft, os: seq<ObservedNode>)
    requires d.Draft? && NodeEntries(env, c, p, d, os).Draft?
    ensures var d' := NodeEntries(env, c, p, d, os);
            && (forall n :: n in d'.g.nodes && !(n in d.g.nodes && d'.g.nodes[n] == d.g.nodes[n]) ==>
                  exists o :: o in os && o.present && ObservedId(env, o) == n)
            && (forall n :: n in d.g.nodes ==> n in d'.g.nodes)
  {
    hide NodeEntry, ObservedId;
    if os != [] {
      var init, o := os[..|os| - 1], os[|os| - 1];
      LastEntry(os);
      NodeEntriesOnlyReported(env, c, p, d, init);
      NodeEntryOnlyReported(env, c, p, NodeEntries(env, c, p, d, init), o);
    }
  }

  lemma NodeEntryOnlyReported(env: Env, c: Context, p: Header, d: Draft, o: ObservedNode)
    requires d.Draft? && NodeEntry(env, c, p, d, o).Draft?
    ensures var d' := NodeEntry(env, c, p, d, o);
            && (forall n :: n in d'.g.nodes && !(n in d.g.nodes && d'.g.nodes[n] == d.g.nodes[n]) ==>
                  o.present && ObservedId(env, o) == n)
            && (forall n :: n in d.g.nodes ==> n in d'.g.nodes)
  {
    hide Lookup, NodeSettled, FindEntity, ReissueIncident, Refiled, PublishedNode, RestatedNode;
  }

  /** Whatever is published for one scope, in whatever mode, leaves the others alone: their edges stay, and change only
      where an endpoint is bound to a new incarnation; their nodes stay, and change only if they are mentioned; and what
      is dead stays as it is. */
  lemma OtherScopesStay(s: State, env: Env, c: Context, p: Publication, nodes: seq<ObservedNode>,
                        edges: seq<ObservedEdge>, persisted: bool)
    requires Shaped(s.graph) && Publish(s, env, c, p, nodes, edges, persisted).verdict == Committed
    ensures var h := Publish(s, env, c, p, nodes, edges, persisted).state.graph;
            EdgesElsewhere(p.head, s.graph, h) && NodesElsewhere(p.head, s.graph, h, ObservedIds(env, nodes))
  {
    hide Publish, Shaped, NodeEntries, EdgeEntries, Absences, AbsenceSet, ReplaceScope, ValidTopology, EnteredFacts,
         EdgesElsewhere, NodesElsewhere, Tracks, NodesFiled;
    var g := s.graph;
    var d0, d := Placed(env, c, p, g, nodes), Entered(env, c, p, g, nodes, edges);
    CommittedIsGuarded(s, env, c, p, nodes, edges, persisted);
    ReconciledInSteps(env, c, p, g, nodes, edges);
    NodeEntriesUnsaid(env, c, p.head, FirstDraft(g), nodes);
    NodeEntriesIds(env, c, p.head, FirstDraft(g), nodes);
    EntriesElsewhere(env, p.head, g, d0, d, edges);
    TailElsewhere(p.head, g, d, Names(p.absences));
    DraftAfterEntries(env, c, p, g, nodes, edges);
    EdgeEntriesKeepNodes(env, c, p.head, d0, edges);
    PlacedElsewhere(env, c, p.head, g, nodes);
    TracksFacts(g, d);
    ShapedEdges(d.g);
    SameNodes(p.head, d, Names(p.absences));
    var z := AbsenceSet(p.head, d, Names(p.absences));
    NodesElsewhereIn(p.head, g, d0.g, z.g, d0.nodeIds);
    NodesTailElsewhere(p.head, g, z);
    var f := if p.head.mode == AuthoritativeSnapshot then ReplaceScope(p.head, z).g else z.g;
    var h := Publish(s, env, c, p, nodes, edges, persisted).state.graph;
    NodesElsewhereIn(p.head, g, f, h, d0.nodeIds);
    EdgesElsewhereIn(p.head, g, f, h);
    assert d0.nodeIds == ObservedIds(env, nodes);
  }

  lemma NodesElsewhereIn(p: Header, g: Graph, a: Graph, b: Graph, ids: set<NodeId>)
    requires NodesElsewhere(p, g, a, ids) && b.nodes == a.nodes
    ensures NodesElsewhere(p, g, b, ids)
  {
  }

  lemma EdgesElsewhereIn(p: Header, g: Graph, a: Graph, b: Graph)
    requires EdgesElsewhere(p, g, a) && b.edges == a.edges
    ensures EdgesElsewhere(p, g, b)
  {
    hide Unsettled;
  }
}
