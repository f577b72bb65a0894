/** Publications as whole steps: all or nothing, whatever they say, and what a commit keeps. */
module PublishLaws {
  import opened Types
  import opened Graphs
  import opened Authority
  import opened Mutations
  import opened Reconcile
  import opened DraftLaws

  /** The second list is a rearrangement of the first. */
  ghost predicate Rearranges<T>(xs: seq<T>, ys: seq<T>) {
    multiset(xs) == multiset(ys)
  }

  lemma RearrangedIn<T>(xs: seq<T>, ys: seq<T>, i: int)
    requires Rearranges(xs, ys) && 0 <= i < |xs|
    ensures exists j :: 0 <= j < |ys| && ys[j] == xs[i]
  {
    assert xs[i] in multiset(xs);
    assert xs[i] in ys;
  }

  // ---- A draft is the graph it started from, but for nodes and edges -------------------------

  ghost predicate OnlyTopology(g: Graph, d: Draft) {
    d.Draft? ==> d.g == g.(nodes := d.g.nodes, edges := d.g.edges, lookups := d.g.lookups)
  }

  lemma NodeEntryOnlyTopology(env: Env, c: Context, p: Header, g: Graph, d: Draft, o: ObservedNode)
    requires d.Draft? && OnlyTopology(g, d)
    ensures OnlyTopology(g, NodeEntry(env, c, p, d, o))
  {
    hide ReissueIncident, PublishedNode, RestatedNode, NodeSettled, Refiled;
  }

  lemma {:induction false} NodeEntriesOnlyTopology(env: Env, c: Context, p: Header, g: Graph, d: Draft,
                                                   os: seq<ObservedNode>)
    requires OnlyTopology(g, d)
    ensures OnlyTopology(g, NodeEntries(env, c, p, d, os))
  {
    hide NodeEntry;
    if os != [] {
      var before := NodeEntries(env, c, p, d, os[..|os| - 1]);
      NodeEntriesOnlyTopology(env, c, p, g, d, os[..|os| - 1]);
      if before.Draft? {
        NodeEntryOnlyTopology(env, c, p, g, before, os[|os| - 1]);
      }
    }
  }

  lemma PresentEdgeOnlyTopology(env: Env, c: Context, p: Header, g: Graph, d: Draft, k: Candidate)
    requires d.Draft? && OnlyTopology(g, d)
    ensures OnlyTopology(g, PresentEdge(env, c, p, d, k))
  {
    hide ValidateCandidate, PublishedEdge, RestatedByPublication, SameStatement, MakeKey, KeyOf, Enlist, Delist;
  }

  lemma EdgeEntryOnlyTopology(env: Env, c: Context, p: Header, g: Graph, d: Draft, o: ObservedEdge)
    requires d.Draft? && OnlyTopology(g, d)
    ensures OnlyTopology(g, EdgeEntry(env, c, p, d, o))
  {
    hide PresentEdge, ObservedCandidate, RetiredEdge, MakeKey, Enlist, Delist;
    if ResolveLayer(o.relation, o.layer).Some? {
      var noted := d.(keys := d.keys + {ObservedKey(p, o)});
      var layer := ResolveLayer(o.relation, o.layer).value;
      PresentEdgeOnlyTopology(env, c, p, g, noted, ObservedCandidate(env, p, o, layer));
    }
  }

  lemma {:induction false} EdgeEntriesOnlyTopology(env: Env, c: Context, p: Header, g: Graph, d: Draft,
                                                   os: seq<ObservedEdge>)
    requires OnlyTopology(g, d)
    ensures OnlyTopology(g, EdgeEntries(env, c, p, d, os))
  {
    hide EdgeEntry;
    if os != [] {
      EdgeEntriesOnlyTopology(env, c, p, g, d, os[..|os| - 1]);
      var before := EdgeEntries(env, c, p, d, os[..|os| - 1]);
      if before.Draft? {
        EdgeEntryOnlyTopology(env, c, p, g, before, os[|os| - 1]);
      }
    }
  }

  lemma {:induction false} AbsencesOnlyTopology(p: Header, g: Graph, d: Draft, names: seq<RelId>)
    requires OnlyTopology(g, d)
    ensures OnlyTopology(g, Absences(p, d, names))
  {
    hide RetiredEdge, Enlist, Delist;
    if names != [] {
      AbsencesOnlyTopology(p, g, d, names[..|names| - 1]);
    }
  }

  lemma ReconciledOnlyTopology(env: Env, c: Context, p: Publication, g: Graph, nodes: seq<ObservedNode>,
                               edges: seq<ObservedEdge>)
    ensures OnlyTopology(g, Reconciled(env, c, p, g, nodes, edges))
  {
    hide NodeEntries, EdgeEntries, Absences, KeptNodes, KeptEdges, Delisted;
    var first := FirstDraft(g);
    NodeEntriesOnlyTopology(env, c, p.head, g, first, nodes);
    var afterNodes := NodeEntries(env, c, p.head, first, nodes);
    EdgeEntriesOnlyTopology(env, c, p.head, g, afterNodes, edges);
    AbsencesOnlyTopology(p.head, g, EdgeEntries(env, c, p.head, afterNodes, edges), p.absences);
  }

  // ---- All or nothing --------------------------------------------------------------------

  /** Whatever keeps a publication from committing leaves the graph as
      it was; committing moves the generation by one. */
  lemma PublishAllOrNothing(s: State, env: Env, c: Context, p: Publication, nodes: seq<ObservedNode>,
                            edges: seq<ObservedEdge>, persisted: bool)
    ensures var r := Publish(s, env, c, p, nodes, edges, persisted);
            && r.state == s.(graph := r.state.graph, ledger := r.state.ledger)
            && (r.verdict != Committed ==> r.state.graph == s.graph)
            && (r.verdict.Refused? ==> r.state == s)
            && (r.verdict == Committed ==>
                  && CanAdvance(s.graph.generation) && persisted
                  && r.state.graph.generation == s.graph.generation + 1
                  && r.state.graph == s.graph.(nodes := r.state.graph.nodes, edges := r.state.graph.edges,
                                               lookups := r.state.graph.lookups,
                                               generation := r.state.graph.generation)
                  && ValidTopology(env, r.state.graph)
                  && r.state.ledger == Record(s.ledger, p.head.id))
  {
    hide Reconciled, ValidTopology, CheckAuthority, WellFormed;
    ReconciledOnlyTopology(env, c, p, s.graph, nodes, edges);
  }

  // ---- What the candidate keeps -----------------------------------------------------------

  lemma DraftAfterEntries(env: Env, c: Context, p: Publication, g: Graph, nodes: seq<ObservedNode>,
                          edges: seq<ObservedEdge>)
    requires Shaped(g) && p.head.domain in g.domains && Reconciled(env, c, p, g, nodes, edges).Draft?
    ensures var afterNodes := NodeEntries(env, c, p.head, FirstDraft(g), nodes);
            && Tracks(g, afterNodes)
            && Tracks(g, EdgeEntries(env, c, p.head, afterNodes, edges))
            && Tracks(g, Absences(p.head, EdgeEntries(env, c, p.head, afterNodes, edges), p.absences))
  {
    hide Tracks, Shaped;
    FirstDraftTracks(g);
    NodeEntriesTrack(env, c, p.head, g, FirstDraft(g), nodes);
    var afterNodes := NodeEntries(env, c, p.head, FirstDraft(g), nodes);
    EdgeEntriesTrack(env, c, p.head, g, afterNodes, edges);
    AbsencesTrack(p.head, g, EdgeEntries(env, c, p.head, afterNodes, edges), p.absences);
  }

  lemma ReconciledStaysShaped(env: Env, c: Context, p: Publication, g: Graph, nodes: seq<ObservedNode>,
                             edges: seq<ObservedEdge>)
    requires Shaped(g) && p.head.domain in g.domains && Reconciled(env, c, p, g, nodes, edges).Draft?
    ensures var d := Reconciled(env, c, p, g, nodes, edges);
            Shaped(d.g) && EdgesAge(g.edges, d.g.edges)
  {
    hide Tracks, Shaped, NodeEntries, EdgeEntries, Absences, EdgesAge, KeysUnique, RelationshipsUnique;
    DraftAfterEntries(env, c, p, g, nodes, edges);
    var d := Absences(p.head, EdgeEntries(env, c, p.head, NodeEntries(env, c, p.head, FirstDraft(g), nodes), edges),
                      p.absences);
    TracksFacts(g, d);
    ReplaceScopeKeepsOrder(p.head, g, d);
  }

  /** Whatever is published, the graph stays shaped and dead edges stay dead; a commit leaves no relationship twice. */
  lemma PublishLawful(s: State, env: Env, c: Context, p: Publication, nodes: seq<ObservedNode>,
                      edges: seq<ObservedEdge>, persisted: bool)
    requires Shaped(s.graph)
    ensures var r := Publish(s, env, c, p, nodes, edges, persisted);
            && Shaped(r.state.graph) && EdgesAge(s.graph.edges, r.state.graph.edges)
            && (r.verdict == Committed || KeysUnique(s.graph.edges) ==> KeysUnique(r.state.graph.edges))
  {
    hide Reconciled, NodeValid, EdgeValid, SlotsExclusive, Shaped, CheckAuthority, WellFormed, KeysUnique, Record,
         AcyclicWhereRequired;
    if PublishGuard(s, env, c, p) == Ok && Reconciled(env, c, p, s.graph, nodes, edges).Draft? {
      ReconciledStaysShaped(env, c, p, s.graph, nodes, edges);
      ShapedAnyGeneration(Reconciled(env, c, p, s.graph, nodes, edges).g);
    }
  }

  lemma ShapedAnyGeneration(g: Graph)
    requires Shaped(g)
    ensures forall n: Counter :: Shaped(g.(generation := n))
  {
    hide AcyclicWhereRequired, EntitiesUnique, EdgesFiled, NodesFiled, EndpointsExist, EdgesNormalized,
         NodeScopesDeclared, EdgeScopesDeclared;
  }
}
