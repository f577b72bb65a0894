/** What every step of the reconciler keeps of the draft it works on, whatever the publication says. */
module DraftLaws {
  import opened Types
  import opened Graphs
  import opened Authority
  import opened Mutations
  import opened MutationLaws
  import opened Reconcile

  // ---- The invariant --------------------------------------------------------------------

  /** Retired and superseded relationships are never touched. */
  ghost predicate DeadKept(before: Edges, after: Edges) {
    forall e :: e in before && !Live(before[e]) ==> e in after && after[e] == before[e]
  }

  /** The edge was there before, with this shape and name. */
  predicate Kept(before: Edges, after: Edges, e: EdgeId)
    requires e in after
  {
    e in before && SameShape(before[e], after[e]) && before[e].relationship == after[e].relationship
  }

  /** Every relationship in the draft was there before, or was named by this publication. */
  ghost predicate Origins(before: Edges, d: Draft)
    requires d.Draft?
  {
    forall e :: e in d.g.edges ==>
      Kept(before, d.g.edges, e) || (d.g.edges[e].relationship in d.names && KeyOf(d.g.edges[e]) in d.keys)
  }

  /** No two relationships that are new have the same name. */
  ghost predicate NewNamesDiffer(before: Edges, after: Edges) {
    forall a, b :: a in after && b in after && a != b && after[a].relationship == after[b].relationship ==>
      Kept(before, after, a) || Kept(before, after, b)
  }

  /** A relationship whose key has not been mentioned is still there. */
  ghost predicate UnmentionedKept(before: Edges, d: Draft)
    requires d.Draft?
  {
    forall e :: e in before && KeyOf(before[e]) !in d.keys ==>
      e in d.g.edges && KeyOf(d.g.edges[e]) == KeyOf(before[e])
  }

  ghost predicate Tracks(g: Graph, d: Draft) {
    && d.Draft? && d.g == g.(nodes := d.g.nodes, edges := d.g.edges, lookups := d.g.lookups)
    && Shaped(d.g)
    && DeadKept(g.edges, d.g.edges)
    && Origins(g.edges, d)
    && NewNamesDiffer(g.edges, d.g.edges)
    && UnmentionedKept(g.edges, d)
  }

  lemma FirstDraftTracks(g: Graph)
    requires Shaped(g)
    ensures Tracks(g, FirstDraft(g))
  {
    hide Shaped, KeysUnique;
  }

  lemma TracksFacts(g: Graph, d: Draft)
    requires Tracks(g, d)
    ensures d.Draft? && Shaped(d.g) && d.g.domains == g.domains && d.g.generation == g.generation
    ensures d.g == g.(nodes := d.g.nodes, edges := d.g.edges, lookups := d.g.lookups)
    ensures EdgesAge(g.edges, d.g.edges)
  {
    hide Shaped, Origins, NewNamesDiffer, UnmentionedKept;
  }

  // ---- Edge-map steps ----------------------------------------------------------------------

  lemma ReshapedOrigins(before: Edges, d: Draft, d': Draft)
    requires d.Draft? && d'.Draft? && Reshaped(d.g.edges, d'.g.edges) && SameNames(d.g.edges, d'.g.edges)
    requires d.keys <= d'.keys && d.names <= d'.names
    ensures Origins(before, d) ==> Origins(before, d')
    ensures NewNamesDiffer(before, d.g.edges) ==> NewNamesDiffer(before, d'.g.edges)
    ensures UnmentionedKept(before, d) ==> UnmentionedKept(before, d')
  {
    hide MakeKey;
    forall e | e in d'.g.edges
      ensures Kept(before, d.g.edges, e) == Kept(before, d'.g.edges, e)
      ensures KeyOf(d.g.edges[e]) == KeyOf(d'.g.edges[e])
    {
      assert SameShape(d.g.edges[e], d'.g.edges[e]);
    }
  }

  /** Replacing the edges by ones that keep shape, names and the dead keeps the whole invariant. */
  lemma ReshapedTracks(g: Graph, d: Draft, d': Draft)
    requires Tracks(g, d) && d'.Draft?
    requires d'.g == d.g.(nodes := d'.g.nodes, edges := d'.g.edges, lookups := d'.g.lookups)
    requires Shaped(d'.g) && Reshaped(d.g.edges, d'.g.edges) && SameNames(d.g.edges, d'.g.edges)
    requires DeadKept(d.g.edges, d'.g.edges)
    requires d.keys <= d'.keys && d.names <= d'.names
    ensures Tracks(g, d')
  {
    hide Shaped, Origins, NewNamesDiffer, UnmentionedKept, Reshaped, SameNames;
    ReshapedOrigins(g.edges, d, d');
  }

  lemma MentionTracks(g: Graph, d: Draft, d': Draft)
    requires Tracks(g, d) && d'.Draft? && d'.g == d.g && d.keys <= d'.keys && d.names <= d'.names
    ensures Tracks(g, d')
  {
    hide Shaped;
  }

  // ---- Nodes ----------------------------------------------------------------------------------

  lemma PlaceNodeTracks(env: Env, c: Context, p: Header, g: Graph, d: Draft, o: ObservedNode, id: NodeId,
                        record: EntityRecord)
    requires Tracks(g, d) && p.domain in g.domains
    requires PlaceNode(env, c, p, d, o, id, record).Draft?
    ensures Tracks(g, PlaceNode(env, c, p, d, o, id, record))
  {
    hide Shaped, Tracks, NodeSettled, ReissueIncident, Reshaped, SameNames, DeadKept, Refiled;
    TracksFacts(g, d);
    var d' := PlaceNode(env, c, p, d, o, id, record);
    if d' != d {
      if id in d.g.nodes {
        NodeFacts(d.g, id);
      }
      FenceReshapes(d.g.edges, id, record.generation);
      Unreshaped(d.g.edges);
      ReissueKeepsDead(d.g.edges, id, record.generation);
      PutNodeKeepsOrder(d.g, d'.g.nodes[id], d'.g.edges, d.g.generation);
      ShapedAnyLookups(d.g.(nodes := d'.g.nodes, edges := d'.g.edges));
      ReshapedTracks(g, d, d');
    }
  }

  lemma ReissueKeepsDead(edges: Edges, n: NodeId, generation: Counter)
    ensures DeadKept(edges, ReissueIncident(edges, n, generation)) && DeadKept(edges, edges)
  {
  }

  lemma NodeEntryTracks(env: Env, c: Context, p: Header, g: Graph, d: Draft, o: ObservedNode)
    requires Tracks(g, d) && p.domain in g.domains && NodeEntry(env, c, p, d, o).Draft?
    ensures Tracks(g, NodeEntry(env, c, p, d, o))
  {
    hide Tracks, PlaceNode;
    TracksFacts(g, d);
    var noted := d.(nodeIds := d.nodeIds + {ObservedId(env, o)});
    MentionTracks(g, d, noted);
    if o.present {
      var named := noted.(entities := d.entities + {o.entity});
      MentionTracks(g, noted, named);
      PlaceNodeTracks(env, c, p, g, named, o, ObservedId(env, o), Lookup(env, o.entity).value);
    }
  }

  lemma {:induction false} NodeEntriesTrack(env: Env, c: Context, p: Header, g: Graph, d: Draft, os: seq<ObservedNode>)
    requires Tracks(g, d) && p.domain in g.domains && NodeEntries(env, c, p, d, os).Draft?
    ensures Tracks(g, NodeEntries(env, c, p, d, os))
  {
    hide Tracks, NodeEntry;
    if os != [] {
      NodeEntriesTrack(env, c, p, g, d, os[..|os| - 1]);
      NodeEntryTracks(env, c, p, g, NodeEntries(env, c, p, d, os[..|os| - 1]), os[|os| - 1]);
    }
  }

  // ---- Edges ------------------------------------------------------------------------------------

  /** Restating or retiring one live relationship in place. */
  lemma EdgeInPlaceTracks(g: Graph, d: Draft, d': Draft, id: EdgeId, e: Edge)
    requires Tracks(g, d) && id in d.g.edges && Live(d.g.edges[id])
    requires SameShape(d.g.edges[id], e) && d.g.edges[id].relationship == e.relationship
    requires d'.Draft? && d'.g == d.g.(edges := d.g.edges[id := e], lookups := d'.g.lookups)
    requires d.keys <= d'.keys && d.names <= d'.names
    ensures Tracks(g, d')
  {
    hide Tracks, Shaped, KeysUnique;
    TracksFacts(g, d);
    assert Reshaped(d.g.edges, d'.g.edges) && SameNames(d.g.edges, d'.g.edges) && DeadKept(d.g.edges, d'.g.edges);
    OneEdgeKeepsOrder(d.g, id, e, d.g.generation);
    ShapedAnyLookups(d.g.(edges := d'.g.edges));
    ReshapedTracks(g, d, d');
  }

  lemma ErasedOrigins(before: Edges, d: Draft, d': Draft, id: EdgeId)
    requires d.Draft? && d'.Draft? && id in d.g.edges && KeyOf(d.g.edges[id]) in d'.keys
    requires d'.g.edges == d.g.edges - {id} && d.keys <= d'.keys && d.names <= d'.names
    ensures Origins(before, d) ==> Origins(before, d')
    ensures NewNamesDiffer(before, d.g.edges) ==> NewNamesDiffer(before, d'.g.edges)
    ensures UnmentionedKept(before, d) ==> UnmentionedKept(before, d')
  {
    hide KeyOf;
    assert forall e :: e in d'.g.edges ==> e in d.g.edges && d'.g.edges[e] == d.g.edges[e];
  }

  /** Erasing one live relationship whose key is mentioned. */
  lemma EraseTracks(g: Graph, d: Draft, d': Draft, id: EdgeId)
    requires d'.Draft? && Tracks(g, d) && id in d.g.edges && Live(d.g.edges[id]) && KeyOf(d.g.edges[id]) in d'.keys
    requires d'.g == d.g.(edges := d.g.edges - {id}, lookups := d'.g.lookups)
    requires d.keys <= d'.keys && d.names <= d'.names
    ensures Tracks(g, d')
  {
    hide Shaped, KeyOf, KeysUnique, RelationshipsUnique, Origins, NewNamesDiffer, UnmentionedKept;
    FewerKeepsOrder(d.g, id);
    ShapedAnyLookups(d.g.(edges := d'.g.edges));
    ErasedOrigins(g.edges, d, d', id);
  }

  lemma RemoveEdgeTracks(p: Header, g: Graph, d: Draft, id: EdgeId)
    requires Tracks(g, d) && id in d.g.edges && Live(d.g.edges[id]) && KeyOf(d.g.edges[id]) in d.keys
    ensures Tracks(g, RemoveEdge(p, d, id))
  {
    hide Tracks, Enlist, Delist, KeyOf;
    TracksFacts(g, d);
    var d' := RemoveEdge(p, d, id);
    if p.mode == AuthoritativeSnapshot {
      EraseTracks(g, d, d', id);
    } else {
      EdgeInPlaceTracks(g, d, d', id, RetiredEdge(d.g.edges[id]));
    }
  }

  /** Filing a relationship the publication names for the first time. */
  lemma FileTracks(g: Graph, d: Draft, d': Draft, e: Edge)
    requires Tracks(g, d) && e.id !in d.g.edges && Live(e) && !Swapped(e.relation, e.from, e.to) && !e.crossDomain
    requires e.from in d.g.nodes && e.to in d.g.nodes && e.domain in g.domains
    requires !WouldCycle(d.g.edges, e.relation, e.from, e.to)
    requires d'.Draft? && d'.g == d.g.(edges := d.g.edges[e.id := e], lookups := d'.g.lookups)
    requires d.keys <= d'.keys && d.names <= d'.names && e.relationship !in d.names
    requires e.relationship in d'.names && KeyOf(e) in d'.keys
    ensures Tracks(g, d')
  {
    hide Shaped, WouldCycle, Swapped, NewNamesDiffer;
    FiledEdgeStaysShaped(d.g, e, d.g.generation);
    ShapedAnyLookups(d.g.(edges := d'.g.edges));
    FiledIsNew(g.edges, d, e);
  }

  lemma FiledIsNew(before: Edges, d: Draft, e: Edge)
    requires d.Draft? && e.id !in d.g.edges && NewNamesDiffer(before, d.g.edges) && Origins(before, d)
    requires e.relationship !in d.names
    ensures NewNamesDiffer(before, d.g.edges[e.id := e])
  {
    hide KeyOf;
    var after := d.g.edges[e.id := e];
    assert forall x :: x in d.g.edges ==> Kept(before, after, x) == Kept(before, d.g.edges, x);
  }

  lemma ValidCandidateFacts(g: Graph, k: Candidate, isNew: bool)
    requires ValidateCandidate(g, k, isNew) == Ok
    ensures k.from in g.nodes && k.to in g.nodes && k.relation != UnknownRelation && k.id != "" && k.relationship != ""
    ensures k.supportedBy != Some(k.id)
    ensures isNew ==> !WouldCycle(g.edges, k.relation, k.from, k.to)
  {
  }

  lemma PresentEdgeTracks(env: Env, c: Context, p: Header, g: Graph, d: Draft, noted: Draft, k: Candidate)
    requires Tracks(g, d) && k.domain in g.domains && !k.crossDomain && !Swapped(k.relation, k.from, k.to)
    requires MakeKey(k.relation, k.from, k.to, k.domain) !in d.keys
    requires noted == d.(keys := d.keys + {MakeKey(k.relation, k.from, k.to, k.domain)})
    requires PresentEdge(env, c, p, noted, k).Draft?
    ensures Tracks(g, PresentEdge(env, c, p, noted, k))
  {
    hide Tracks, Shaped, Swapped, SameStatement, ValidateCandidate, WouldCycle, EdgesAge, Enlist, Delist;
    TracksFacts(g, d);
    MentionTracks(g, d, noted);
    var d' := PresentEdge(env, c, p, noted, k);
    var key := MakeKey(k.relation, k.from, k.to, k.domain);
    ValidCandidateFacts(d.g, k, FindKey(d.g, key).None?);
    if d'.g == d.g {
      MentionTracks(g, noted, d');
    } else if FindKey(d.g, key).None? {
      FileTracks(g, noted, d', PublishedEdge(c, p, d.g, k));
    } else {
      EdgeInPlaceTracks(g, noted, d', k.id, RestatedByPublication(c, p, d.g, d.g.edges[k.id], k));
    }
  }

  lemma EdgeEntryTracks(env: Env, c: Context, p: Header, g: Graph, d: Draft, o: ObservedEdge)
    requires Tracks(g, d) && p.domain in g.domains && EdgeEntry(env, c, p, d, o).Draft?
    ensures Tracks(g, EdgeEntry(env, c, p, d, o))
  {
    hide Tracks, PresentEdge, RemoveEdge, Less;
    TracksFacts(g, d);
    var key := ObservedKey(p, o);
    var noted := d.(keys := d.keys + {key});
    MentionTracks(g, d, noted);
    if o.present {
      var k := ObservedCandidate(env, p, o, ResolveLayer(o.relation, o.layer).value);
      PresentEdgeTracks(env, c, p, g, d, noted, k);
    } else {
      var found := FindKey(d.g, key);
      if found.Some? && Live(d.g.edges[found.value]) {
        RemoveEdgeTracks(p, g, noted, found.value);
      }
    }
  }

  lemma {:induction false} EdgeEntriesTrack(env: Env, c: Context, p: Header, g: Graph, d: Draft, os: seq<ObservedEdge>)
    requires Tracks(g, d) && p.domain in g.domains && EdgeEntries(env, c, p, d, os).Draft?
    ensures Tracks(g, EdgeEntries(env, c, p, d, os))
  {
    hide Tracks, EdgeEntry;
    if os != [] {
      EdgeEntriesTrack(env, c, p, g, d, os[..|os| - 1]);
      EdgeEntryTracks(env, c, p, g, EdgeEntries(env, c, p, d, os[..|os| - 1]), os[|os| - 1]);
    }
  }

  // ---- Absences and replacement ----------------------------------------------------------------

  lemma AbsenceTracks(p: Header, g: Graph, d: Draft, name: RelId)
    requires Tracks(g, d)
    ensures Tracks(g, Absence(p, d, name))
  {
    hide Tracks, RemoveEdge;
    TracksFacts(g, d);
    if Absence(p, d, name) != d {
      var id := FindRelationship(d.g, name).value;
      MentionTracks(g, d, d.(keys := d.keys + {KeyOf(d.g.edges[id])}));
      RemoveEdgeTracks(p, g, d.(keys := d.keys + {KeyOf(d.g.edges[id])}), id);
    }
  }

  lemma {:induction false} AbsencesTrack(p: Header, g: Graph, d: Draft, names: seq<RelId>)
    requires Tracks(g, d)
    ensures Absences(p, d, names).Draft? && Tracks(g, Absences(p, d, names))
  {
    hide Tracks, Absence;
    TracksFacts(g, d);
    if names != [] {
      AbsencesTrack(p, g, d, names[..|names| - 1]);
      AbsenceTracks(p, g, Absences(p, d, names[..|names| - 1]), names[|names| - 1]);
      TracksFacts(g, Absences(p, d, names));
    }
  }

  lemma KeptNodesFiled(p: Header, d: Draft, edges: Edges, domains: set<DomainId>)
    requires d.Draft? && NodesFiled(d.g.nodes) && EntitiesUnique(d.g.nodes) && NodeScopesDeclared(d.g.nodes, domains)
    ensures NodesFiled(KeptNodes(p, d, edges)) && EntitiesUnique(KeptNodes(p, d, edges))
    ensures NodeScopesDeclared(KeptNodes(p, d, edges), domains)
  {
  }

  lemma KeptNodesCoverEndpoints(p: Header, d: Draft, edges: Edges)
    requires d.Draft? && EndpointsExist(d.g.nodes, edges)
    ensures EndpointsExist(KeptNodes(p, d, edges), edges)
  {
  }

  /** Replacing a scope drops live relationships and unmentioned nodes, and leaves no endpoint dangling. */
  lemma ReplaceScopeKeepsOrder(p: Header, g: Graph, d: Draft)
    requires Tracks(g, d)
    ensures KeepsOrder(d.g, ReplaceScope(p, d).g) && EdgesAge(g.edges, ReplaceScope(p, d).g.edges)
  {
    hide AcyclicWhereRequired, KeysUnique, RelationshipsUnique, EdgesNormalized, Origins, UnmentionedKept, KeptNodes,
         NodesFiled, EntitiesUnique, NodeScopesDeclared, NewNamesDiffer, Delisted;
    var edges := KeptEdges(p, d);
    FewerEdgesStaySound(d.g.edges, edges);
    KeptNodesFiled(p, d, edges, g.domains.Keys);
    KeptNodesCoverEndpoints(p, d, edges);
  }
}
