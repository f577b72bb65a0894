/** An incremental or partial publication erases nothing and alters only what it mentions. */
module FrameLaws {
  import opened Types
  import opened Graphs
  import opened Authority
  import opened Mutations
  import opened Reconcile
  import opened DraftLaws
  import opened PublishLaws

  function ObservedIds(env: Env, os: seq<ObservedNode>): set<NodeId> {
    set o | o in os :: ObservedId(env, o)
  }

  function ObservedKeys(p: Header, os: seq<ObservedEdge>): set<EdgeKey> {
    set o | o in os :: ObservedKey(p, o)
  }

  function Names(names: seq<RelId>): set<RelId> {
    set name | name in names
  }

  /** A node of both graphs that is now bound to another entity generation. */
  predicate Moved(g: Graph, after: Graph, n: NodeId) {
    n in g.nodes && n in after.nodes && g.nodes[n].entityGeneration != after.nodes[n].entityGeneration
  }

  ghost predicate NodesFramed(g: Graph, after: Graph, ids: set<NodeId>) {
    && (forall n :: n in g.nodes ==> n in after.nodes && (n !in ids ==> after.nodes[n] == g.nodes[n]))
    && (forall n :: n in after.nodes ==> n in g.nodes || n in ids)
  }

  ghost predicate EdgeFramed(g: Graph, after: Graph, keys: set<EdgeKey>, gone: set<RelId>, e: EdgeId)
    requires e in g.edges
  {
    && e in after.edges && SameShape(g.edges[e], after.edges[e])
    && g.edges[e].relationship == after.edges[e].relationship
    && (|| after.edges[e] == g.edges[e]
        || KeyOf(g.edges[e]) in keys
        || g.edges[e].relationship in gone
        || Moved(g, after, g.edges[e].from)
        || Moved(g, after, g.edges[e].to))
  }

  /** Only mentioned nodes, mentioned or declared-absent edges, and
      edges of a moved node, differ; nothing is missing. */
  ghost predicate Framed(g: Graph, after: Graph, ids: set<NodeId>, keys: set<EdgeKey>, gone: set<RelId>) {
    NodesFramed(g, after, ids) && forall e :: e in g.edges ==> EdgeFramed(g, after, keys, gone, e)
  }

  // ---- Nodes -----------------------------------------------------------------------------

  lemma NodeEntryFramed(env: Env, c: Context, p: Header, g: Graph, d: Draft, o: ObservedNode)
    requires d.Draft? && Framed(g, d.g, d.nodeIds, {}, {}) && EndpointsExist(g.nodes, g.edges)
    requires NodeEntry(env, c, p, d, o).Draft?
    ensures Framed(g, NodeEntry(env, c, p, d, o).g, d.nodeIds + {ObservedId(env, o)}, {}, {})
  {
    hide Lookup, NodeSettled, EndpointsExist, FindEntity, Refiled;
    var d' := NodeEntry(env, c, p, d, o);
    var id := ObservedId(env, o);
    forall e | e in g.edges
      ensures EdgeFramed(g, d'.g, {}, {}, e)
    {
      assert EdgeFramed(g, d.g, {}, {}, e);
      EndpointOf(g, e);
      if d'.g.edges[e] != d.g.edges[e] {
        assert Touches(g.edges[e], id) && Moved(g, d'.g, id);
      }
    }
  }

  lemma EndpointOf(g: Graph, e: EdgeId)
    requires EndpointsExist(g.nodes, g.edges) && e in g.edges
    ensures g.edges[e].from in g.nodes && g.edges[e].to in g.nodes
  {
  }

  lemma LastEntry<T>(os: seq<T>)
    requires os != []
    ensures forall o :: o in os <==> o in os[..|os| - 1] || o == os[|os| - 1]
  {
    assert os == os[..|os| - 1] + [os[|os| - 1]];
  }

  lemma NodeEntryIds(env: Env, c: Context, p: Header, d: Draft, o: ObservedNode)
    requires d.Draft? && NodeEntry(env, c, p, d, o).Draft?
    ensures var d' := NodeEntry(env, c, p, d, o);
            d'.nodeIds == d.nodeIds + {ObservedId(env, o)} && d'.keys == d.keys && d'.names == d.names
  {
    hide Lookup, NodeSettled, FindEntity, ReissueIncident, Refiled;
  }

  lemma {:induction false} NodeEntriesIds(env: Env, c: Context, p: Header, d: Draft, os: seq<ObservedNode>)
    requires d.Draft? && NodeEntries(env, c, p, d, os).Draft?
    ensures NodeEntries(env, c, p, d, os).nodeIds == d.nodeIds + ObservedIds(env, os)
    ensures NodeEntries(env, c, p, d, os).keys == d.keys && NodeEntries(env, c, p, d, os).names == d.names
  {
    hide NodeEntry;
    if os != [] {
      NodeEntriesIds(env, c, p, d, os[..|os| - 1]);
      NodeEntryIds(env, c, p, NodeEntries(env, c, p, d, os[..|os| - 1]), os[|os| - 1]);
      LastEntry(os);
    }
  }

  lemma {:induction false} NodeEntriesFramed(env: Env, c: Context, p: Header, g: Graph, d: Draft, os: seq<ObservedNode>)
    requires d.Draft? && Framed(g, d.g, d.nodeIds, {}, {}) && EndpointsExist(g.nodes, g.edges)
    requires NodeEntries(env, c, p, d, os).Draft?
    ensures Framed(g, NodeEntries(env, c, p, d, os).g, NodeEntries(env, c, p, d, os).nodeIds, {}, {})
  {
    hide Framed, NodeEntry, EndpointsExist;
    if os != [] {
      var before := NodeEntries(env, c, p, d, os[..|os| - 1]);
      NodeEntriesFramed(env, c, p, g, d, os[..|os| - 1]);
      NodeEntryFramed(env, c, p, g, before, os[|os| - 1]);
      assert NodeEntries(env, c, p, before, [os[|os| - 1]]) == NodeEntry(env, c, p, before, os[|os| - 1]);
      NodeEntriesIds(env, c, p, before, [os[|os| - 1]]);
      assert ObservedIds(env, [os[|os| - 1]]) == {ObservedId(env, os[|os| - 1])};
    }
  }

  // ---- Edges ------------------------------------------------------------------------------

  /** Nodes stay, no edge is erased, reshaped or renamed, and what changes has the given key or name. */
  ghost predicate Edits(before: Graph, after: Graph, keys: set<EdgeKey>, gone: set<RelId>) {
    && after.nodes == before.nodes
    && forall e :: e in before.edges ==>
         && e in after.edges && SameShape(before.edges[e], after.edges[e])
         && before.edges[e].relationship == after.edges[e].relationship
         && (|| after.edges[e] == before.edges[e]
             || KeyOf(before.edges[e]) in keys
             || before.edges[e].relationship in gone)
  }

  lemma EditsFramed(g: Graph, before: Graph, after: Graph, ids: set<NodeId>, keys: set<EdgeKey>, gone: set<RelId>,
                       key: set<EdgeKey>, name: set<RelId>)
    requires Framed(g, before, ids, keys, gone) && Edits(before, after, key, name)
    ensures Framed(g, after, ids, keys + key, gone + name)
  {
    forall e | e in g.edges
      ensures EdgeFramed(g, after, keys + key, gone + name, e)
    {
      assert EdgeFramed(g, before, keys, gone, e);
    }
  }

  lemma PresentEdgeTouches(env: Env, c: Context, p: Header, d: Draft, k: Candidate)
    requires d.Draft? && PresentEdge(env, c, p, d, k).Draft?
    ensures Edits(d.g, PresentEdge(env, c, p, d, k).g, {MakeKey(k.relation, k.from, k.to, k.domain)}, {})
  {
    hide Swapped, ValidateCandidate, SameStatement, Enlist, Delist;
    ValidCandidateFacts(d.g, k, FindKey(d.g, MakeKey(k.relation, k.from, k.to, k.domain)).None?);
  }

  lemma AbsentEdgeTouches(p: Header, d: Draft, key: EdgeKey)
    requires d.Draft? && p.mode != AuthoritativeSnapshot && AbsentEdge(p, d, key).Draft?
    ensures Edits(d.g, AbsentEdge(p, d, key).g, {key}, {})
  {
    hide Swapped, Enlist, Delist;
  }

  lemma EdgeEntryTouches(env: Env, c: Context, p: Header, d: Draft, o: ObservedEdge)
    requires d.Draft? && p.mode != AuthoritativeSnapshot && EdgeEntry(env, c, p, d, o).Draft?
    ensures Edits(d.g, EdgeEntry(env, c, p, d, o).g, {ObservedKey(p, o)}, {})
  {
    hide PresentEdge, AbsentEdge, Swapped, Edits;
    var noted := d.(keys := d.keys + {ObservedKey(p, o)});
    if o.present {
      PresentEdgeTouches(env, c, p, noted, ObservedCandidate(env, p, o, ResolveLayer(o.relation, o.layer).value));
    } else {
      AbsentEdgeTouches(p, noted, ObservedKey(p, o));
    }
  }

  lemma {:induction false} EdgeEntriesFramed(env: Env, c: Context, p: Header, g: Graph, d: Draft, os: seq<ObservedEdge>,
                                             ids: set<NodeId>)
    requires d.Draft? && Framed(g, d.g, ids, {}, {}) && p.mode != AuthoritativeSnapshot
    requires EdgeEntries(env, c, p, d, os).Draft?
    ensures Framed(g, EdgeEntries(env, c, p, d, os).g, ids, ObservedKeys(p, os), {})
  {
    hide Framed, EdgeEntry, Edits;
    if os != [] {
      var before := EdgeEntries(env, c, p, d, os[..|os| - 1]);
      var o := os[|os| - 1];
      EdgeEntriesFramed(env, c, p, g, d, os[..|os| - 1], ids);
      EdgeEntryTouches(env, c, p, before, o);
      LastEntry(os);
      assert ObservedKeys(p, os) == ObservedKeys(p, os[..|os| - 1]) + {ObservedKey(p, o)};
      var none: set<RelId> := {};
      assert none + none == none;
      EditsFramed(g, before.g, EdgeEntries(env, c, p, d, os).g, ids, ObservedKeys(p, os[..|os| - 1]), none,
          {ObservedKey(p, o)}, none);
    } else {
      assert ObservedKeys(p, os) == {};
    }
  }

  lemma AbsenceTouches(p: Header, d: Draft, name: RelId)
    requires d.Draft? && p.mode != AuthoritativeSnapshot
    ensures Absence(p, d, name).Draft? && Edits(d.g, Absence(p, d, name).g, {}, {name})
  {
    hide Swapped, Enlist, Delist;
  }

  lemma {:induction false} AbsencesFramed(p: Header, g: Graph, d: Draft, names: seq<RelId>, ids: set<NodeId>,
                                          keys: set<EdgeKey>)
    requires Tracks(g, d) && d.Draft? && Framed(g, d.g, ids, keys, {}) && p.mode != AuthoritativeSnapshot
    ensures Absences(p, d, names).Draft? && Framed(g, Absences(p, d, names).g, ids, keys, Names(names))
  {
    hide Tracks, Framed, Absence, Edits;
    if names != [] {
      var before := Absences(p, d, names[..|names| - 1]);
      var name := names[|names| - 1];
      AbsencesFramed(p, g, d, names[..|names| - 1], ids, keys);
      AbsencesTrack(p, g, d, names[..|names| - 1]);
      TracksFacts(g, before);
      AbsenceTouches(p, before, name);
      LastEntry(names);
      assert Names(names) == Names(names[..|names| - 1]) + {name};
      EditsFramed(g, before.g, Absences(p, d, names).g, ids, keys, Names(names[..|names| - 1]), {}, {name});
      assert keys + {} == keys;
    } else {
      assert Names(names) == {};
    }
  }

  // ---- The frame of a committed publication ---------------------------------------------------

  lemma FramedByItself(g: Graph)
    ensures Framed(g, g, {}, {}, {})
  {
    assert forall e :: e in g.edges ==> EdgeFramed(g, g, {}, {}, e);
  }

  /** A publication that is not an authoritative snapshot erases nothing; it alters a
      node only if it mentions it, and an edge only if it mentions it, declares it
      absent, or mentions an endpoint whose entity generation has moved. */
  lemma IncrementalFrame(s: State, env: Env, c: Context, p: Publication, nodes: seq<ObservedNode>,
                         edges: seq<ObservedEdge>, persisted: bool)
    requires Shaped(s.graph) && p.head.mode != AuthoritativeSnapshot
    requires Rearranges(nodes, p.nodes) && Rearranges(edges, p.edges)
    ensures Framed(s.graph, Publish(s, env, c, p, nodes, edges, persisted).state.graph,
                   ObservedIds(env, p.nodes), ObservedKeys(p.head, p.edges), Names(p.absences))
  {
    hide Framed, ValidTopology, NodeEntries, EdgeEntries, Absences, CheckAuthority, WellFormed, Tracks, Shaped, Record;
    var g := s.graph;
    FramedByItself(g);
    var out := Publish(s, env, c, p, nodes, edges, persisted);
    if out.verdict == Committed {
      assert EndpointsExist(g.nodes, g.edges) by { ShapedEndpoints(g); }
      DraftAfterEntries(env, c, p, g, nodes, edges);
      var afterNodes := NodeEntries(env, c, p.head, FirstDraft(g), nodes);
      NodeEntriesFramed(env, c, p.head, g, FirstDraft(g), nodes);
      NodeEntriesIds(env, c, p.head, FirstDraft(g), nodes);
      SameMembers(nodes, p.nodes);
      SameMembers(edges, p.edges);
      assert ObservedIds(env, nodes) == ObservedIds(env, p.nodes);
      assert ObservedKeys(p.head, edges) == ObservedKeys(p.head, p.edges);
      assert afterNodes.nodeIds == ObservedIds(env, p.nodes);
      EdgeEntriesFramed(env, c, p.head, g, afterNodes, edges, ObservedIds(env, p.nodes));
      var afterEdges := EdgeEntries(env, c, p.head, afterNodes, edges);
      AbsencesFramed(p.head, g, afterEdges, p.absences, ObservedIds(env, p.nodes), ObservedKeys(p.head, p.edges));
      FramedAnyGeneration(g, Absences(p.head, afterEdges, p.absences).g, out.state.graph, ObservedIds(env, p.nodes),
                          ObservedKeys(p.head, p.edges), Names(p.absences));
    } else {
      FramedWider(g, ObservedIds(env, p.nodes), ObservedKeys(p.head, p.edges), Names(p.absences));
    }
  }

  lemma ShapedEndpoints(g: Graph)
    requires Shaped(g)
    ensures EndpointsExist(g.nodes, g.edges)
  {
    hide AcyclicWhereRequired, EntitiesUnique, EdgesFiled, NodesFiled, EndpointsExist, EdgesNormalized,
         NodeScopesDeclared, EdgeScopesDeclared;
  }

  lemma SameMembers<T>(xs: seq<T>, ys: seq<T>)
    requires Rearranges(xs, ys)
    ensures forall x :: x in xs <==> x in ys
  {
    assert forall x :: x in xs <==> x in multiset(xs);
    assert forall x :: x in ys <==> x in multiset(ys);
  }

  lemma FramedAnyGeneration(g: Graph, after: Graph, out: Graph, ids: set<NodeId>, keys: set<EdgeKey>, gone: set<RelId>)
    requires Framed(g, after, ids, keys, gone) && out.nodes == after.nodes && out.edges == after.edges
    ensures Framed(g, out, ids, keys, gone)
  {
    forall e | e in g.edges
      ensures EdgeFramed(g, out, keys, gone, e)
    {
      assert EdgeFramed(g, after, keys, gone, e);
    }
  }

  lemma FramedWider(g: Graph, ids: set<NodeId>, keys: set<EdgeKey>, gone: set<RelId>)
    ensures Framed(g, g, ids, keys, gone)
  {
    assert forall e :: e in g.edges ==> EdgeFramed(g, g, keys, gone, e);
  }
}
