/** Publishing the same content again changes nothing. */
module RepublishLaws {
  import opened Types
  import opened Graphs
  import opened Authority
  import opened Mutations
  import opened Reconcile
  import opened DraftLaws
  import opened PublishLaws
  import opened FrameLaws
  import opened EntryLaws
  import opened DraftNames
  import opened SnapshotLaws
  import opened PermutationLaws

  // ---- Nodes --------------------------------------------------------------------------

  /** The registry admits the entry, and its node already says what the entry says. */
  ghost predicate NodeDone(env: Env, nodes: Nodes, o: ObservedNode) {
    o.present ==>
      var id := ObservedId(env, o);
      id in nodes && nodes[id].entity == o.entity && Lookup(env, o.entity).Some? && NodeSettled(nodes[id], o,
          Lookup(env, o.entity).value)
  }

  /** An entry never asks an existing node to change its class, which the reconciler would ignore. */
  ghost predicate ClassKept(env: Env, nodes: Nodes, o: ObservedNode) {
    o.present && ObservedId(env, o) in nodes ==> nodes[ObservedId(env, o)].nodeClass == o.nodeClass
  }

  lemma NodeEntryDone(env: Env, c: Context, p: Header, d: Draft, o: ObservedNode)
    requires d.Draft? && NodeEntry(env, c, p, d, o).Draft? && ClassKept(env, d.g.nodes, o)
    ensures NodeDone(env, NodeEntry(env, c, p, d, o).g.nodes, o)
    ensures forall n :: n in d.g.nodes && n != ObservedId(env, o) ==>
              n in NodeEntry(env, c, p, d, o).g.nodes && NodeEntry(env, c, p, d, o).g.nodes[n] == d.g.nodes[n]
    ensures forall n :: n in NodeEntry(env, c, p, d, o).g.nodes ==> n in d.g.nodes || n == ObservedId(env, o)
    ensures ObservedId(env, o) !in d.nodeIds && NodeEntry(env, c, p, d, o).nodeIds == d.nodeIds + {ObservedId(env, o)}
  {
  }

  lemma {:induction false} NodePhaseDone(env: Env, c: Context, p: Header, d: Draft, os: seq<ObservedNode>)
    requires d.Draft? && d.nodeIds == {} && NodeEntries(env, c, p, d, os).Draft?
    requires forall o :: o in os ==> ClassKept(env, d.g.nodes, o)
    ensures var a := NodeEntries(env, c, p, d, os);
            && a.nodeIds == ObservedIds(env, os)
            && (forall o :: o in os ==> NodeDone(env, a.g.nodes, o))
            && (forall n :: n !in a.nodeIds ==> (n in a.g.nodes <==> n in d.g.nodes))
            && (forall n :: n in d.g.nodes && n !in a.nodeIds ==> a.g.nodes[n] == d.g.nodes[n])
  {
    hide NodeEntry, NodeSettled, Lookup;
    if os == [] {
      assert ObservedIds(env, os) == {};
    } else {
      var init, o := os[..|os| - 1], os[|os| - 1];
      var before := NodeEntries(env, c, p, d, init);
      NodePhaseDone(env, c, p, d, init);
      LastEntry(os);
      assert ObservedIds(env, os) == ObservedIds(env, init) + {ObservedId(env, o)};
      assert ClassKept(env, before.g.nodes, o) by {
        assert ClassKept(env, d.g.nodes, o);
        NodeEntryIsNew(env, c, p, before, o);
      }
      NodeEntryDone(env, c, p, before, o);
      forall x | x in os
        ensures NodeDone(env, NodeEntry(env, c, p, before, o).g.nodes, x)
      {
        if x in init {
          assert NodeDone(env, before.g.nodes, x) && ObservedId(env, x) in before.nodeIds;
        }
      }
    }
  }

  lemma NodeEntryIsNew(env: Env, c: Context, p: Header, d: Draft, o: ObservedNode)
    requires d.Draft? && NodeEntry(env, c, p, d, o).Draft?
    ensures ObservedId(env, o) !in d.nodeIds
  {
  }

  /** An entry that is already done is accepted again and only mentioned. */
  lemma NodeEntryRepeats(env: Env, c: Context, p: Header, q: Header, d: Draft, e: Draft, o: ObservedNode)
    requires d.Draft? && e.Draft? && NodeEntry(env, c, p, d, o).Draft? && q == p.(id := q.id)
    requires e.nodeIds == d.nodeIds && e.entities == d.entities && NodeDone(env, e.g.nodes, o)
    ensures var d' := NodeEntry(env, c, p, d, o);
            NodeEntry(env, c, q, e, o) == e.(nodeIds := d'.nodeIds, entities := d'.entities)
  {
  }

  lemma {:induction false} NodePhaseRepeats(env: Env, c: Context, p: Header, q: Header, d: Draft, e: Draft,
                                            os: seq<ObservedNode>)
    requires d.Draft? && e.Draft? && NodeEntries(env, c, p, d, os).Draft? && q == p.(id := q.id)
    requires e.nodeIds == d.nodeIds && e.entities == d.entities && forall o :: o in os ==> NodeDone(env, e.g.nodes, o)
    ensures var d' := NodeEntries(env, c, p, d, os);
            NodeEntries(env, c, q, e, os) == e.(nodeIds := d'.nodeIds, entities := d'.entities)
  {
    hide NodeEntry, NodeDone;
    if os != [] {
      var init, o := os[..|os| - 1], os[|os| - 1];
      LastEntry(os);
      NodePhaseRepeats(env, c, p, q, d, e, init);
      NodeEntryRepeats(env, c, p, q, NodeEntries(env, c, p, d, init), NodeEntries(env, c, q, e, init), o);
    }
  }

  // ---- Edges ----------------------------------------------------------------------------------

  function EntryCandidate(env: Env, p: Header, o: ObservedEdge): Candidate
    requires ResolveLayer(o.relation, o.layer).Some?
  {
    ObservedCandidate(env, p, o, ResolveLayer(o.relation, o.layer).value)
  }

  /** The edge with the candidate's identifier is found by the candidate's key. */
  predicate OnFile(g: Graph, k: Candidate) {
    FindKey(g, MakeKey(k.relation, k.from, k.to, k.domain)) == Some(k.id)
  }

  /** Its edge already says what the candidate says, or knows better: it is live and rests on newer evidence. */
  predicate Answered(p: Header, g: Graph, k: Candidate) {
    && OnFile(g, k)
    && (|| SameStatement(g.edges[k.id], k)
        || (p.mode != AuthoritativeSnapshot && Live(g.edges[k.id]) && g.edges[k.id].evidence > k.evidence))
  }

  predicate SelfConsistent(k: Candidate) {
    k.relation != UnknownRelation && k.id != "" && k.relationship != "" && k.supportedBy != Some(k.id)
  }

  predicate InUse(l: Lifecycle) {
    l != Lifecycle.Retired && l != Superseded
  }

  /** What validation asks of a candidate besides exclusivity, acyclicity and the layer of its support. */
  predicate Seated(g: Graph, k: Candidate) {
    && SelfConsistent(k) && k.from in g.nodes && k.to in g.nodes && k.from != k.to
    && InUse(g.nodes[k.from].lifecycle) && InUse(g.nodes[k.to].lifecycle)
    && EndpointsPermitted(k.relation, g.nodes[k.from].nodeClass, g.nodes[k.to].nodeClass)
    && LayerPermitted(k.relation, k.layer)
    && (k.supportedBy.Some? ==> k.supportedBy.value in g.edges)
  }

  /** A logical relationship may only rest on a physical one. */
  predicate SupportIsPhysical(edges: Edges, k: Candidate) {
    k.layer == Logical && k.supportedBy.Some? && k.supportedBy.value in edges ==>
      edges[k.supportedBy.value].layer == Physical
  }

  lemma SeatedIsValid(g: Graph, k: Candidate)
    ensures ValidateCandidate(g, k, true) == Ok || ValidateCandidate(g, k, false) == Ok ==> Seated(g, k)
    ensures Seated(g, k) && !k.exclusive ==>
              ValidateCandidate(g, k, false) == if SupportIsPhysical(g.edges, k) then Ok else RelationshipConflict
  {
    hide EndpointsPermitted, LayerPermitted, WouldCycle;
  }

  lemma SeatedLater(g: Graph, h: Graph, k: Candidate)
    requires Seated(g, k) && h.nodes == g.nodes && g.edges.Keys <= h.edges.Keys
    ensures Seated(h, k)
  {
    hide EndpointsPermitted, LayerPermitted;
  }

  ghost predicate NoneLive(edges: Edges, key: EdgeKey) {
    forall e :: e in edges && KeyOf(edges[e]) == key ==> !Live(edges[e])
  }

  /** What processing an entry leaves behind. */
  ghost predicate EntryDone(env: Env, p: Header, g: Graph, o: ObservedEdge) {
    if o.present then
      ResolveLayer(o.relation, o.layer).Some? && Answered(p, g, EntryCandidate(env, p, o))
      && SelfConsistent(EntryCandidate(env, p, o))
    else NoneLive(g.edges, ObservedKey(p, o))
  }

  predicate EntrySeated(env: Env, p: Header, g: Graph, o: ObservedEdge) {
    o.present && ResolveLayer(o.relation, o.layer).Some? ==> Seated(g, EntryCandidate(env, p, o))
  }

  lemma PresentEdgeAnswers(env: Env, c: Context, p: Header, d: Draft, k: Candidate)
    requires d.Draft? && PresentEdge(env, c, p, d, k).Draft?
    requires KeyListed(d.g, MakeKey(k.relation, k.from, k.to, k.domain)) && EdgesFiled(d.g.edges)
    ensures Answered(p, PresentEdge(env, c, p, d, k).g, k)
  {
    hide ValidateCandidate, SameStatement, RestatedByPublication, PublishedEdge, MakeKey;
    var key := MakeKey(k.relation, k.from, k.to, k.domain);
    var isNew := FindKey(d.g, key).None?;
    ValidCandidateFacts(d.g, k, isNew);
    if isNew {
      PublishedStates(c, p, d.g, k);
      PublishedNames(c, p, d.g, k);
    } else {
      RestatedStates(c, p, d.g, d.g.edges[k.id], k);
      RelistedKeyFound(d.g, k.id, RestatedByPublication(c, p, d.g, d.g.edges[k.id], k));
    }
  }

  /** An edge filed anew under its own key is found by it. */
  lemma RelistedKeyFound(g: Graph, id: EdgeId, e: Edge)
    requires id in g.edges && KeyOf(e) == KeyOf(g.edges[id]) && e.id == g.edges[id].id
    ensures e.id == id ==>
              FindKey(g.(edges := g.edges[id := e], lookups := Relist(g.lookups, g.edges[id], e)), KeyOf(e)) == Some(id)
  {
    hide KeyOf;
  }

  lemma PresentEdgeSeats(env: Env, c: Context, p: Header, d: Draft, k: Candidate)
    requires d.Draft? && PresentEdge(env, c, p, d, k).Draft?
    ensures SelfConsistent(k) && Seated(d.g, k)
  {
    hide ValidateCandidate, SameStatement, RestatedByPublication, PublishedEdge, KeyOf, MakeKey, Seated;
    var isNew := FindKey(d.g, MakeKey(k.relation, k.from, k.to, k.domain)).None?;
    ValidCandidateFacts(d.g, k, isNew);
    SeatedIsValid(d.g, k);
  }

  lemma PublishedStates(c: Context, p: Header, g: Graph, k: Candidate)
    requires k.from in g.nodes && k.to in g.nodes
    ensures SameStatement(PublishedEdge(c, p, g, k), k)
  {
  }

  lemma RestatedStates(c: Context, p: Header, g: Graph, e: Edge, k: Candidate)
    ensures var e' := RestatedByPublication(c, p, g, e, k);
            SameStatement(e', k) && KeyOf(e') == KeyOf(e) && e'.id == e.id
  {
    hide Less;
  }

  lemma EdgeEntryDone(env: Env, c: Context, p: Header, d: Draft, o: ObservedEdge)
    requires d.Draft? && EdgesFiled(d.g.edges) && KeyListed(d.g, ObservedKey(p, o))
    requires EdgeEntry(env, c, p, d, o).Draft?
    ensures EntryDone(env, p, EdgeEntry(env, c, p, d, o).g, o)
  {
    hide Answered, SelfConsistent, Seated, KeyOf, PresentEdge, AbsentEdge, ObservedCandidate, EdgesFiled;
    var noted := d.(keys := d.keys + {ObservedKey(p, o)});
    if o.present {
      var k := EntryCandidate(env, p, o);
      CandidateNames(env, p, o, ResolveLayer(o.relation, o.layer).value);
      PresentEdgeAnswers(env, c, p, noted, k);
      PresentEdgeSeats(env, c, p, noted, k);
    } else {
      AbsentEdgeDone(p, noted, ObservedKey(p, o));
    }
  }

  lemma AbsentEdgeDone(p: Header, d: Draft, key: EdgeKey)
    requires d.Draft? && KeyListed(d.g, key) && AbsentEdge(p, d, key).Draft?
    ensures NoneLive(AbsentEdge(p, d, key).g.edges, key)
  {
    hide MakeKey;
  }

  lemma EdgeEntrySeated(env: Env, c: Context, p: Header, d: Draft, o: ObservedEdge)
    requires d.Draft? && EdgeEntry(env, c, p, d, o).Draft?
    ensures EntrySeated(env, p, d.g, o)
  {
    hide Seated, KeyOf, PresentEdge, AbsentEdge, ObservedCandidate;
    if o.present {
      var noted := d.(keys := d.keys + {ObservedKey(p, o)});
      PresentEdgeSeats(env, c, p, noted, EntryCandidate(env, p, o));
    }
  }

  lemma StaysDone(env: Env, p: Header, before: Graph, after: Graph, o: ObservedEdge, key: EdgeKey)
    requires EntryDone(env, p, before, o) && key != ObservedKey(p, o)
    requires AgreeOutside(before.edges, after.edges, {key}) && KeysOutside(before.lookups, after.lookups, {key})
    ensures EntryDone(env, p, after, o)
  {
    hide SameStatement, SelfConsistent, KeyOf, ObservedCandidate;
    if o.present {
      CandidateNames(env, p, o, ResolveLayer(o.relation, o.layer).value);
    }
    FoundAsAtFirst(before, after, {key}, ObservedKey(p, o));
  }

  lemma StaysSeated(env: Env, p: Header, g: Graph, h: Graph, o: ObservedEdge)
    requires EntrySeated(env, p, g, o) && h.nodes == g.nodes && g.edges.Keys <= h.edges.Keys
    ensures EntrySeated(env, p, h, o)
  {
    hide Seated, ObservedCandidate;
    if o.present && ResolveLayer(o.relation, o.layer).Some? {
      SeatedLater(g, h, EntryCandidate(env, p, o));
    }
  }

  lemma {:induction false} EdgePhaseDone(env: Env, c: Context, p: Header, g: Graph, d: Draft, os: seq<ObservedEdge>)
    requires Tracks(g, d) && p.domain in g.domains && d.keys == {} && EdgeEntries(env, c, p, d, os).Draft?
    requires forall o :: o in os ==> KeyListed(d.g, ObservedKey(p, o))
    ensures var d' := EdgeEntries(env, c, p, d, os);
            && d'.g.nodes == d.g.nodes && d'.nodeIds == d.nodeIds
            && (forall o :: o in os ==> EntryDone(env, p, d'.g, o))
  {
    hide Tracks, EdgeEntry, AgreeOutside, KeysOutside, EntryDone, Settled, ObservedKey, KeyListed;
    TracksFacts(g, d);
    if os != [] {
      var init, o := os[..|os| - 1], os[|os| - 1];
      var before := EdgeEntries(env, c, p, d, init);
      LastEntry(os);
      EdgePhaseDone(env, c, p, g, d, init);
      EdgeEntriesTrack(env, c, p, g, d, init);
      TracksFacts(g, before);
      ShapedEdges(before.g);
      EdgeEntriesSettle(env, c, p, d, init);
      EdgeEntriesSettle(env, c, p, d, os);
      EdgeEntrySettles(env, c, p, before, o);
      ListedAsAtFirst(d.g, before.g, ObservedKeys(p, init), ObservedKey(p, o));
      EdgeEntryDone(env, c, p, before, o);
      EdgeEntryKeepsNodes(env, c, p, before, o);
      var after := EdgeEntry(env, c, p, before, o);
      forall x | x in os
        ensures EntryDone(env, p, after.g, x)
      {
        if x in init {
          assert ObservedKey(p, x) in ObservedKeys(p, init);
          StaysDone(env, p, before.g, after.g, x, ObservedKey(p, o));
        }
      }
    }
  }

  lemma ListedAsAtFirst(first: Graph, before: Graph, keys: set<EdgeKey>, key: EdgeKey)
    requires AgreeOutside(first.edges, before.edges, keys) && KeysOutside(first.lookups, before.lookups, keys)
    requires key !in keys && KeyListed(first, key)
    ensures KeyListed(before, key)
  {
    hide KeyOf;
    FoundAsAtFirst(first, before, keys, key);
  }

  /** Outside snapshots nothing is erased, so what an entry was validated against stays. */
  lemma {:induction false} EdgePhaseSeated(env: Env, c: Context, p: Header, g: Graph, d: Draft, os: seq<ObservedEdge>)
    requires Tracks(g, d) && p.domain in g.domains && p.mode != AuthoritativeSnapshot
    requires EdgeEntries(env, c, p, d, os).Draft?
    ensures forall o :: o in os ==> EntrySeated(env, p, EdgeEntries(env, c, p, d, os).g, o)
  {
    hide Tracks, EdgeEntry, EntrySeated, Edits;
    if os != [] {
      var init, o := os[..|os| - 1], os[|os| - 1];
      var before, after := EdgeEntries(env, c, p, d, init), EdgeEntries(env, c, p, d, os);
      LastEntry(os);
      EdgePhaseSeated(env, c, p, g, d, init);
      EdgeEntriesTrack(env, c, p, g, d, init);
      TracksFacts(g, before);
      EdgeEntrySeated(env, c, p, before, o);
      EdgeEntryTouches(env, c, p, before, o);
      EditsOnlyAdd(before.g, after.g, {ObservedKey(p, o)}, {});
      forall x | x in os
        ensures EntrySeated(env, p, after.g, x)
      {
        StaysSeated(env, p, before.g, after.g, x);
      }
    }
  }

  lemma EditsOnlyAdd(before: Graph, after: Graph, keys: set<EdgeKey>, gone: set<RelId>)
    requires Edits(before, after, keys, gone)
    ensures after.nodes == before.nodes && before.edges.Keys <= after.edges.Keys
  {
    hide KeyOf;
  }

  lemma PresentEdgeKeepsNodes(env: Env, c: Context, p: Header, d: Draft, k: Candidate)
    requires d.Draft? && PresentEdge(env, c, p, d, k).Draft?
    ensures PresentEdge(env, c, p, d, k).g.nodes == d.g.nodes && PresentEdge(env, c, p, d, k).nodeIds == d.nodeIds
    ensures PresentEdge(env, c, p, d, k).entities == d.entities
  {
    hide ValidateCandidate, SameStatement, MakeKey, Enlist, Delist;
  }

  lemma EdgeEntryKeepsNodes(env: Env, c: Context, p: Header, d: Draft, o: ObservedEdge)
    requires d.Draft? && EdgeEntry(env, c, p, d, o).Draft?
    ensures EdgeEntry(env, c, p, d, o).g.nodes == d.g.nodes && EdgeEntry(env, c, p, d, o).nodeIds == d.nodeIds
    ensures EdgeEntry(env, c, p, d, o).entities == d.entities
  {
    hide PresentEdge, MakeKey, Enlist, Delist;
    if o.present {
      PresentEdgeKeepsNodes(env, c, p, d.(keys := d.keys + {ObservedKey(p, o)}), EntryCandidate(env, p, o));
    }
  }

  // ---- The second run ------------------------------------------------------------------------------

  /** A stated, valid, current edge is seated, and rests on a physical one if it is logical. */
  lemma StatedIsSeated(g: Graph, k: Candidate)
    requires OnFile(g, k) && SameStatement(g.edges[k.id], k) && SelfConsistent(k) && EdgeValid(g, g.edges[k.id])
    requires EdgesNormalized(g.edges) && !Swapped(k.relation, k.from, k.to)
    ensures Seated(g, k) && SupportIsPhysical(g.edges, k)
  {
    hide Less, EndpointsPermitted, LayerPermitted;
    var e := g.edges[k.id];
    assert !Swapped(e.relation, e.from, e.to);
    assert e.from == k.from && e.to == k.to && e.relation == k.relation;
  }

  lemma PresentEdgeRepeats(env: Env, c: Context, q: Header, e: Draft, k: Candidate)
    requires e.Draft? && Answered(q, e.g, k) && k.relationship !in e.names
    requires Seated(e.g, k) && !k.exclusive
    ensures PresentEdge(env, c, q, e, k)
            == if SupportIsPhysical(e.g.edges, k) then e.(names := e.names + {k.relationship})
               else Rejected(RelationshipConflict)
  {
    hide ValidateCandidate, Swapped, Seated, SupportIsPhysical;
    SeatedIsValid(e.g, k);
  }

  ghost predicate Repeatable(env: Env, p: Header, g: Graph, o: ObservedEdge) {
    EntryDone(env, p, g, o) && (o.present ==> !o.exclusive && Seated(g, EntryCandidate(env, p, o)))
  }

  predicate Supported(env: Env, p: Header, edges: Edges, o: ObservedEdge) {
    o.present && ResolveLayer(o.relation, o.layer).Some? ==> SupportIsPhysical(edges, EntryCandidate(env, p, o))
  }

  lemma EdgeEntryRepeats(env: Env, c: Context, p: Header, q: Header, d: Draft, e: Draft, o: ObservedEdge)
    requires d.Draft? && e.Draft? && EdgeEntry(env, c, p, d, o).Draft? && q == p.(id := q.id)
    requires e.keys == d.keys && e.names == d.names && Repeatable(env, p, e.g, o)
    ensures var d' := EdgeEntry(env, c, p, d, o);
            EdgeEntry(env, c, q, e, o)
            == if Supported(env, p, e.g.edges, o) then e.(keys := d'.keys, names := d'.names)
               else Rejected(RelationshipConflict)
  {
    hide SupportIsPhysical, Swapped, SelfConsistent, PresentEdge, Seated, SameStatement, Enlist, Delist;
    var key := ObservedKey(p, o);
    var notedD, notedE := d.(keys := d.keys + {key}), e.(keys := e.keys + {key});
    if o.present {
      PresentEdgeNames(env, c, p, notedD, EntryCandidate(env, p, o));
      PresentEdgeRepeats(env, c, q, notedE, EntryCandidate(env, p, o));
      assert EntryCandidate(env, p, o) == EntryCandidate(env, q, o);
    }
  }

  lemma PresentEdgeNames(env: Env, c: Context, p: Header, d: Draft, k: Candidate)
    requires d.Draft? && PresentEdge(env, c, p, d, k).Draft?
    ensures k.relationship !in d.names && PresentEdge(env, c, p, d, k).names == d.names + {k.relationship}
    ensures PresentEdge(env, c, p, d, k).keys == d.keys
  {
    hide ValidateCandidate, SameStatement, MakeKey, Enlist, Delist;
  }

  lemma {:induction false} EdgePhaseRepeats(env: Env, c: Context, p: Header, q: Header, d: Draft, e: Draft,
                                            os: seq<ObservedEdge>)
    requires d.Draft? && e.Draft? && EdgeEntries(env, c, p, d, os).Draft? && q == p.(id := q.id)
    requires e.keys == d.keys && e.names == d.names
    requires forall o :: o in os ==> Repeatable(env, p, e.g, o)
    ensures var d' := EdgeEntries(env, c, p, d, os);
            EdgeEntries(env, c, q, e, os)
            == if forall o :: o in os ==> Supported(env, p, e.g.edges, o) then e.(keys := d'.keys, names := d'.names)
               else Rejected(RelationshipConflict)
  {
    hide EdgeEntry, Repeatable, Supported;
    if os != [] {
      var init, o := os[..|os| - 1], os[|os| - 1];
      LastEntry(os);
      EdgePhaseRepeats(env, c, p, q, d, e, init);
      if forall x :: x in init ==> Supported(env, p, e.g.edges, x) {
        EdgeEntryRepeats(env, c, p, q, EdgeEntries(env, c, p, d, init), EdgeEntries(env, c, q, e, init), o);
      }
    }
  }

  // ---- Settled graphs -----------------------------------------------------------------------------

  /** The entries of a publication that can be repeated: nothing exclusive, nothing also declared absent, and
      no change of node class. Entries with older evidence than the edge on file are among them. */
  ghost predicate CanRepeat(env: Env, p: Publication, g: Graph) {
    && (forall o :: o in p.nodes ==> ClassKept(env, g.nodes, o))
    && (forall o :: o in p.edges && o.present ==> !o.exclusive && Asserted(env, p, g.edges, o))
  }

  /** Honouring absences, and replacing the scope, keep what the entries have settled. */
  lemma AbsencesKeepDone(env: Env, p: Publication, first: Edges, d: Draft, o: ObservedEdge)
    requires d.Draft? && EntryDone(env, p.head, d.g, o) && KeysUnique(d.g.edges) && EdgesFiled(d.g.edges)
    requires o.present ==> Asserted(env, p, first, o)
    requires o.present ==>
               d.g.edges[EntryCandidate(env, p.head, o).id].relationship == StoredName(env, p.head, first, o)
    ensures EntryDone(env, p.head, AbsenceSet(p.head, d, Names(p.absences)).g, o)
  {
    hide StoredName, SameStatement, SelfConsistent, MakeKey, ObservedCandidate;
    if o.present {
      var k := EntryCandidate(env, p.head, o);
      assert !Gone(p.head, d.g.lookups, Names(p.absences), d.g.edges[k.id]);
      StillFound(p.head, d, Names(p.absences), k.id);
    }
  }

  /** What no absence strikes is found as before. */
  lemma StillFound(p: Header, d: Draft, names: set<RelId>, id: EdgeId)
    requires d.Draft? && KeysUnique(d.g.edges) && EdgesFiled(d.g.edges) && id in d.g.edges
    requires FindKey(d.g, KeyOf(d.g.edges[id])) == Some(id) && !Gone(p, d.g.lookups, names, d.g.edges[id])
    ensures var z := AbsenceSet(p, d, names).g;
            id in z.edges && z.edges[id] == d.g.edges[id] && FindKey(z, KeyOf(d.g.edges[id])) == Some(id)
  {
    hide MakeKey, Gone;
  }

  lemma ReplacementKeepsDone(env: Env, p: Header, d: Draft, o: ObservedEdge)
    requires d.Draft? && EntryDone(env, p, d.g, o) && ObservedKey(p, o) in d.keys
    ensures EntryDone(env, p, ReplaceScope(p, d).g, o)
  {
    hide SelfConsistent, SameStatement, MakeKey, KeptNodes, ObservedCandidate;
    if o.present {
      CandidateNames(env, p, o, ResolveLayer(o.relation, o.layer).value);
    }
  }

  /** Nothing is left for the absences to strike, nor, in a snapshot, for the replacement. */
  ghost predicate Quiet(p: Header, g: Graph, ids: set<NodeId>, keys: set<EdgeKey>, names: set<RelId>) {
    && GoneIds(p, g, names) == {}
    && (p.mode == AuthoritativeSnapshot ==>
          && (forall e :: e in g.edges ==> !LeftOut(p, keys, g.edges[e]))
          && (forall n :: n in g.nodes ==> !NodeLeftOut(p, ids, g.nodes[n])))
  }

  lemma QuietTail(p: Header, d: Draft, names: seq<RelId>)
    requires d.Draft? && EdgesFiled(d.g.edges) && KeysUnique(d.g.edges)
    requires Quiet(p, d.g, d.nodeIds, d.keys, Names(names))
    ensures Absences(p, d, names) == d
    ensures p.mode == AuthoritativeSnapshot ==> ReplaceScope(p, d) == d
  {
    hide KeyOf, EdgesFiled, KeysUnique, Gone;
    AbsencesAreASet(p, d, names);
    NothingStruck(p, d, Names(names));
    if p.mode == AuthoritativeSnapshot {
      assert KeptEdges(p, d) == d.g.edges;
      assert KeptNodes(p, d, d.g.edges) == d.g.nodes;
      assert LeftOutIds(p, d) == {};
      DelistedNone(d.g.lookups, d.g.edges);
    }
  }

  lemma NothingStruck(p: Header, d: Draft, names: set<RelId>)
    requires d.Draft? && GoneIds(p, d.g, names) == {}
    ensures AbsenceSet(p, d, names) == d
  {
    hide KeyOf, Gone;
    assert forall e :: e in d.g.edges ==> e !in GoneIds(p, d.g, names);
    assert GoneKeys(p, d.g, names) == {} && WithoutGone(p, d.g, names) == d.g.edges;
    DelistedNone(d.g.lookups, d.g.edges);
    assert (map k | k in d.g.lookups.keys.Keys + {} ::
              if k in d.g.lookups.keys then d.g.lookups.keys[k] else "") == d.g.lookups.keys;
  }

  // ---- What the first run leaves --------------------------------------------------------------------

  /** After the edge entries everything an entry says is settled, under the name it is on file with. */
  lemma EdgesSettle(env: Env, c: Context, p: Publication, g: Graph, nodes: seq<ObservedNode>,
                    edges: seq<ObservedEdge>)
    requires Structured(g) && p.head.domain in g.domains && KeysFound(p, g)
    requires Rearranges(edges, p.edges) && Entered(env, c, p, g, nodes, edges).Draft?
    ensures var a, d := Placed(env, c, p, g, nodes), Entered(env, c, p, g, nodes, edges);
            && a.Draft? && d.Draft? && d.nodeIds == a.nodeIds && d.g.nodes == a.g.nodes
            && EnteredFacts(env, p.head, g, a, d, edges)
            && (forall o :: o in edges ==> EntryDone(env, p.head, d.g, o))
  {
    hide Shaped, Tracks, NodeEntries, EdgeEntries, EntryDone, KeysUnique, AllSettled, Pointed, NewcomersObserved,
         NewNamesDiffer, KeyListed, NameListed, Kept, Live, ObservedKey;
    EnteredHolds(env, c, p, g, nodes, edges);
    SameMembers(edges, p.edges);
    EdgePhaseDone(env, c, p.head, g, Placed(env, c, p, g, nodes), edges);
  }

  /** After the two entry phases everything an entry says is settled. */
  lemma EntriesSettle(env: Env, c: Context, p: Publication, g: Graph, nodes: seq<ObservedNode>,
                      edges: seq<ObservedEdge>)
    requires Structured(g) && p.head.domain in g.domains && CanRepeat(env, p, g) && KeysFound(p, g)
    requires Rearranges(nodes, p.nodes) && Rearranges(edges, p.edges) && Entered(env, c, p, g, nodes, edges).Draft?
    ensures var a, d := Placed(env, c, p, g, nodes), Entered(env, c, p, g, nodes, edges);
            && a.Draft? && d.Draft? && a.nodeIds == ObservedIds(env, p.nodes) && d.nodeIds == a.nodeIds
            && d.g.nodes == a.g.nodes && EnteredFacts(env, p.head, g, a, d, edges)
            && (forall o :: o in nodes ==> NodeDone(env, a.g.nodes, o))
            && (forall o :: o in edges && p.head.mode != AuthoritativeSnapshot ==> EntrySeated(env, p.head, d.g, o))
  {
    hide Shaped, Tracks, NodeEntries, EdgeEntries, NodeDone, EntryDone, KeysUnique, StoredName, ClassKept,
         EntrySeated, AllSettled, Pointed, NewcomersObserved, NewNamesDiffer, KeyListed, NameListed, Kept, Live,
         ObservedKey;
    EdgesSettle(env, c, p, g, nodes, edges);
    SameMembers(nodes, p.nodes);
    assert ObservedIds(env, nodes) == ObservedIds(env, p.nodes);
    NodePhaseDone(env, c, p.head, FirstDraft(g), nodes);
    if p.head.mode != AuthoritativeSnapshot {
      EdgePhaseSeated(env, c, p.head, g, Placed(env, c, p, g, nodes), edges);
    }
  }

  /** What an asserted entry, or one that reports an absence, has settled is still so at the end. */
  lemma EntryStaysDone(env: Env, c: Context, p: Publication, g: Graph, nodes: seq<ObservedNode>,
                       edges: seq<ObservedEdge>, o: ObservedEdge)
    requires Structured(g) && p.head.domain in g.domains && KeysFound(p, g) && Rearranges(edges, p.edges)
    requires Reconciled(env, c, p, g, nodes, edges).Draft? && o in edges
    requires o.present ==> Asserted(env, p, g.edges, o)
    ensures EntryDone(env, p.head, Reconciled(env, c, p, g, nodes, edges).g, o)
  {
    hide Shaped, Tracks, NodeEntries, EdgeEntries, Absences, EntryDone, KeysUnique, NodesFiled, StoredName, KeptNodes,
         KeptEdges, MakeKey, Pointed, NewcomersObserved, EdgesFiled, AllSettled, NewNamesDiffer, OnlyNodes, AbsenceSet,
         LeftOut, KeyListed;
    ReconciledInSteps(env, c, p, g, nodes, edges);
    EdgesSettle(env, c, p, g, nodes, edges);
    var d0, d := Placed(env, c, p, g, nodes), Entered(env, c, p, g, nodes, edges);
    ShapedEdges(d.g);
    EnteredKeysUnique(env, p, g, d0, d, edges);
    MoreKeys(p.head, d, Names(p.absences), edges, env, d0.g);
    DoneUnderStoredName(env, p, g, d0, d, edges, o);
    AbsencesKeepDone(env, p, g.edges, d, o);
    ReplacementKeepsDone(env, p.head, AbsenceSet(p.head, d, Names(p.absences)), o);
  }

  /** The committed graph, seen as the start of a second run. */
  ghost predicate Steady(env: Env, p: Publication, g: Graph, nodes: seq<ObservedNode>, edges: seq<ObservedEdge>) {
    && (forall o :: o in nodes ==> NodeDone(env, g.nodes, o))
    && (forall o :: o in edges ==> EntryDone(env, p.head, g, o))
    && (p.head.mode != AuthoritativeSnapshot ==> forall o :: o in edges ==> EntrySeated(env, p.head, g, o))
    && GoneIds(p.head, g, Names(p.absences)) == {}
    && (p.head.mode == AuthoritativeSnapshot ==>
          forall e :: e in g.edges ==> !LeftOut(p.head, ObservedKeys(p.head, edges), g.edges[e]))
  }

  lemma KeptNodeDone(env: Env, p: Header, d: Draft, edges: Edges, o: ObservedNode)
    requires d.Draft? && NodesFiled(d.g.nodes) && NodeDone(env, d.g.nodes, o) && ObservedId(env, o) in d.nodeIds
    ensures NodeDone(env, KeptNodes(p, d, edges), o)
  {
    hide NodeSettled, Lookup;
  }

  /** After the absences there is nothing left for them to strike, and the replacement leaves nothing either. */
  lemma NoneLeftToStrike(p: Header, d: Draft, names: set<RelId>)
    requires d.Draft? && EdgesFiled(d.g.edges)
    ensures var z := AbsenceSet(p, d, names);
            GoneIds(p, z.g, names) == {} && GoneIds(p, ReplaceScope(p, z).g, names) == {}
  {
    hide KeyOf, KeptNodes, GoneKeys;
  }

  lemma ReconciledIsSteady(env: Env, c: Context, p: Publication, g: Graph, nodes: seq<ObservedNode>,
                           edges: seq<ObservedEdge>)
    requires Structured(g) && p.head.domain in g.domains && CanRepeat(env, p, g) && KeysFound(p, g)
    requires Rearranges(nodes, p.nodes) && Rearranges(edges, p.edges) && Reconciled(env, c, p, g, nodes, edges).Draft?
    ensures Steady(env, p, Reconciled(env, c, p, g, nodes, edges).g, nodes, edges)
  {
    hide Shaped, Tracks, NodeEntries, EdgeEntries, Absences, NodeDone, EntryDone, KeysUnique, NodesFiled, StoredName,
         ClassKept, KeptNodes, KeptEdges, MakeKey, Pointed, NewcomersObserved, EdgesFiled, AllSettled, NewNamesDiffer,
         EntrySeated, OnlyNodes, AbsenceSet, GoneIds, LeftOut, KeyListed;
    ReconciledInSteps(env, c, p, g, nodes, edges);
    EntriesSettle(env, c, p, g, nodes, edges);
    var d0, d := Placed(env, c, p, g, nodes), Entered(env, c, p, g, nodes, edges);
    SameMembers(edges, p.edges);
    SameMembers(nodes, p.nodes);
    assert ObservedIds(env, nodes) == ObservedIds(env, p.nodes);
    ShapedEdges(d.g);
    EnteredKeysUnique(env, p, g, d0, d, edges);
    NoneLeftToStrike(p.head, d, Names(p.absences));
    var z := AbsenceSet(p.head, d, Names(p.absences));
    SameNodes(p.head, d, Names(p.absences));
    forall o | o in edges
      ensures EntryDone(env, p.head, Reconciled(env, c, p, g, nodes, edges).g, o)
    {
      EntryStaysDone(env, c, p, g, nodes, edges, o);
    }
    if p.head.mode == AuthoritativeSnapshot {
      forall o | o in nodes
        ensures NodeDone(env, ReplaceScope(p.head, z).g.nodes, o)
      {
        KeptNodeDone(env, p.head, z, KeptEdges(p.head, z), o);
      }
      forall e | e in KeptEdges(p.head, z)
        ensures !LeftOut(p.head, d.keys, KeptEdges(p.head, z)[e])
      {
        KeptNotLeftOut(p.head, d, Names(p.absences), e);
      }
      SettledKeys(env, p.head, d0.g, d, edges);
    } else {
      forall o | o in edges
        ensures EntrySeated(env, p.head, z.g, o)
      {
        AbsenceSetKeepsIds(p.head, d, Names(p.absences));
        StaysSeated(env, p.head, d.g, z.g, o);
      }
    }
  }

  lemma SettledKeys(env: Env, p: Header, g: Graph, d: Draft, os: seq<ObservedEdge>)
    requires d.Draft? && AllSettled(env, p, g, d, os)
    ensures d.keys == ObservedKeys(p, os)
  {
    hide AgreeOutside, KeysOutside, Settled;
  }

  lemma MoreKeys(p: Header, d: Draft, names: set<RelId>, os: seq<ObservedEdge>, env: Env, g: Graph)
    requires d.Draft? && AllSettled(env, p, g, d, os)
    ensures forall o :: o in os ==> ObservedKey(p, o) in AbsenceSet(p, d, names).keys
  {
    hide AgreeOutside, KeysOutside, Settled, ObservedKey, LookupsWithoutGone, WithoutGone;
    forall o | o in os
      ensures ObservedKey(p, o) in AbsenceSet(p, d, names).keys
    {
      assert ObservedKey(p, o) in ObservedKeys(p, os);
    }
  }

  /** What a present entry reports is stored under its stored name. */
  lemma DoneUnderStoredName(env: Env, p: Publication, g: Graph, d0: Draft, d: Draft, os: seq<ObservedEdge>,
                            o: ObservedEdge)
    requires EnteredFacts(env, p.head, g, d0, d, os) && KeysUnique(g.edges) && KeysFound(p, g) && o in os
    requires Rearranges(os, p.edges) && EntryDone(env, p.head, d.g, o)
    ensures o.present ==>
              d.g.edges[EntryCandidate(env, p.head, o).id].relationship == StoredName(env, p.head, g.edges, o)
  {
    hide Tracks, StoredName, SameStatement, SelfConsistent, KeyOf, ObservedKey, OnlyNodes, AllSettled, Pointed,
         NewcomersObserved, NewNamesDiffer, KeysUnique, ObservedCandidate, KeyListed, Target;
    SameMembers(os, p.edges);
    if o.present {
      var i :| 0 <= i < |os| && os[i] == o;
      EntryAlone(env, p, g, d0, d, os, i);
      CandidateNames(env, p.head, o, ResolveLayer(o.relation, o.layer).value);
    }
  }

  lemma AbsenceSetKeepsIds(p: Header, d: Draft, names: set<RelId>)
    requires d.Draft? && p.mode != AuthoritativeSnapshot
    ensures AbsenceSet(p, d, names).g.nodes == d.g.nodes && d.g.edges.Keys == AbsenceSet(p, d, names).g.edges.Keys
  {
    hide Gone, KeyOf, LookupsWithoutGone;
  }

  lemma KeptNotLeftOut(p: Header, d: Draft, names: set<RelId>, e: EdgeId)
    requires d.Draft? && p.mode == AuthoritativeSnapshot && KeysUnique(d.g.edges)
    requires e in KeptEdges(p, AbsenceSet(p, d, names))
    ensures !LeftOut(p, d.keys, KeptEdges(p, AbsenceSet(p, d, names))[e])
  {
    hide KeysUnique, AbsenceSet, Swapped, KeptNodes, Delisted;
    ReplacedEdges(p, d, names, e);
  }

  /** No node of the replaced scope is left that the publication does not mention. */
  ghost predicate ScopeMentioned(env: Env, p: Publication, g: Graph) {
    p.head.mode == AuthoritativeSnapshot ==>
      forall n :: n in g.nodes && g.nodes[n].domain == p.head.domain ==> n in ObservedIds(env, p.nodes)
  }

  /** The entry is present, and the edge on file rests on newer evidence. */
  ghost predicate IsStale(p: Header, edges: Edges, o: ObservedEdge) {
    var found := Holder(edges, ObservedKey(p, o));
    o.present && found.Some? && edges[found.value].evidence > o.evidence
  }

  /** No stale logical entry names a support that is not physical by now. */
  ghost predicate StaleSupported(env: Env, p: Publication, edges: Edges) {
    forall o :: o in p.edges && IsStale(p.head, edges, o) ==> Supported(env, p.head, edges, o)
  }

  lemma SteadyEntryRepeats(env: Env, p: Publication, g: Graph, nodes: seq<ObservedNode>, edges: seq<ObservedEdge>,
                           o: ObservedEdge)
    requires Steady(env, p, g, nodes, edges) && ValidTopology(env, g) && EdgesNormalized(g.edges)
    requires o in edges && (o.present ==> !o.exclusive)
    ensures Repeatable(env, p.head, g, o)
    ensures Supported(env, p.head, g.edges, o) || IsStale(p.head, g.edges, o)
  {
    hide AcyclicWhereRequired, SlotsExclusive, EdgeValid, NodeDone, SelfConsistent, Seated, Less, NodeValid,
         LeftOut, SupportIsPhysical, GoneIds;
    if o.present {
      var k := EntryCandidate(env, p.head, o);
      assert OnFile(g, k) && EdgeValid(g, g.edges[k.id]);
      if SameStatement(g.edges[k.id], k) {
        StatedIsSeated(g, k);
      } else {
        HolderIsOnly(g.edges, ObservedKey(p.head, o));
      }
    }
  }

  /** A second run over a steady graph mentions everything again and records no difference,
      or stops at the first stale entry whose support is not physical any more. */
  lemma SecondRun(env: Env, c: Context, p: Publication, q: Publication, g: Graph, g1: Graph,
                  nodes: seq<ObservedNode>, edges: seq<ObservedEdge>)
    requires Reconciled(env, c, p, g, nodes, edges).Draft? && q == p.(head := p.head.(id := q.head.id), expected := 0)
    requires Shaped(g1) && ValidTopology(env, g1) && Steady(env, p, g1, nodes, edges) && ScopeMentioned(env, p, g1)
    requires Rearranges(nodes, p.nodes) && Rearranges(edges, p.edges)
    requires forall o :: o in edges && o.present ==> !o.exclusive
    ensures var d := Reconciled(env, c, q, g1, nodes, edges);
            if StaleSupported(env, p, g1.edges) then d.Draft? && !d.changed else d == Rejected(RelationshipConflict)
  {
    hide Shaped, NodeValid, EdgeValid, SlotsExclusive, AcyclicWhereRequired, NodeEntries, EdgeEntries, Absences,
         ReplaceScope, NodeDone, EntryDone, Repeatable, KeysUnique, EdgesNormalized, NodesFiled, EdgesFiled, Supported,
         IsStale, EntrySeated, GoneIds;
    ShapedEdges(g1);
    SameMembers(edges, p.edges);
    forall o | o in edges
      ensures Repeatable(env, p.head, g1, o)
      ensures Supported(env, p.head, g1.edges, o) || IsStale(p.head, g1.edges, o)
    {
      SteadyEntryRepeats(env, p, g1, nodes, edges, o);
    }
    assert StaleSupported(env, p, g1.edges) <==> forall o :: o in edges ==> Supported(env, p.head, g1.edges, o) by {
      SupportedOrStale(env, p, g1.edges, edges);
    }
    var a := NodeEntries(env, c, p.head, FirstDraft(g), nodes);
    var d := EdgeEntries(env, c, p.head, a, edges);
    NodeEntriesIds(env, c, p.head, FirstDraft(g), nodes);
    SameMembers(nodes, p.nodes);
    assert ObservedIds(env, nodes) == ObservedIds(env, p.nodes);
    NodePhaseRepeats(env, c, p.head, q.head, FirstDraft(g), FirstDraft(g1), nodes);
    var a1 := NodeEntries(env, c, q.head, FirstDraft(g1), nodes);
    assert a1 == FirstDraft(g1).(nodeIds := a.nodeIds, entities := a.entities);
    EdgePhaseRepeats(env, c, p.head, q.head, a, a1, edges);
    if StaleSupported(env, p, g1.edges) {
      var d1 := EdgeEntries(env, c, q.head, a1, edges);
      assert d1 == a1.(keys := d.keys, names := d.names);
      EdgeEntriesKeys(env, c, p.head, a, edges);
      SteadyIsQuiet(env, p, q, g1, nodes, edges, a.nodeIds);
      QuietTail(q.head, d1, q.absences);
    }
  }

  lemma SupportedOrStale(env: Env, p: Publication, edges: Edges, os: seq<ObservedEdge>)
    requires forall o :: o in os <==> o in p.edges
    requires forall o :: o in os ==> Supported(env, p.head, edges, o) || IsStale(p.head, edges, o)
    ensures StaleSupported(env, p, edges) <==> forall o :: o in os ==> Supported(env, p.head, edges, o)
  {
    hide Supported, IsStale;
  }

  lemma EdgeEntriesKeys(env: Env, c: Context, p: Header, d: Draft, os: seq<ObservedEdge>)
    requires d.Draft? && d.keys == {} && EdgeEntries(env, c, p, d, os).Draft?
    ensures EdgeEntries(env, c, p, d, os).keys == ObservedKeys(p, os)
  {
    hide EdgeEntries, Distinct;
    KeysDistinct(env, c, p, d, os);
    assert Image(os, o => ObservedKey(p, o)) == ObservedKeys(p, os);
  }

  lemma SteadyIsQuiet(env: Env, p: Publication, q: Publication, g: Graph, nodes: seq<ObservedNode>,
                      edges: seq<ObservedEdge>, ids: set<NodeId>)
    requires Steady(env, p, g, nodes, edges) && ScopeMentioned(env, p, g) && ids == ObservedIds(env, p.nodes)
    requires q == p.(head := p.head.(id := q.head.id), expected := 0) && NodesFiled(g.nodes)
    ensures Quiet(q.head, g, ids, ObservedKeys(p.head, edges), Names(q.absences))
  {
    hide NodeDone, EntryDone, Swapped;
    assert forall e :: Gone(q.head, g.lookups, Names(q.absences), e) == Gone(p.head, g.lookups, Names(p.absences), e);
    assert GoneIds(q.head, g, Names(q.absences)) == GoneIds(p.head, g, Names(p.absences));
  }

  /** Publishing the same content under a fresh identifier is accepted as no change
      and leaves the state as it is, exactly when no stale logical entry has lost its
      physical support; otherwise it is refused as a conflict. */
  lemma RepublicationIsIdempotent(s: State, env: Env, c: Context, p: Publication, q: Publication,
                                  nodes: seq<ObservedNode>, edges: seq<ObservedEdge>, persisted: bool)
    requires Structured(s.graph) && KeysFound(p, s.graph) && CanRepeat(env, p, s.graph)
    requires Rearranges(nodes, p.nodes) && Rearranges(edges, p.edges)
    requires Publish(s, env, c, p, nodes, edges, true).verdict == Committed
    requires ScopeMentioned(env, p, Publish(s, env, c, p, nodes, edges, true).state.graph)
    requires q == p.(head := p.head.(id := q.head.id), expected := 0)
    requires q.head.id != "" && q.head.id !in Publish(s, env, c, p, nodes, edges, true).state.ledger
    ensures var s1 := Publish(s, env, c, p, nodes, edges, true).state;
            Publish(s1, env, c, q, nodes, edges, persisted)
            == if StaleSupported(env, p, s1.graph.edges)
               then Result(s1.(ledger := Record(s1.ledger, q.head.id)), Idempotent)
               else Refuse(s1, RelationshipConflict)
  {
    hide Reconciled, ValidTopology, KeysFound, Structured, Steady, ScopeMentioned, Record, StaleSupported;
    var out := Publish(s, env, c, p, nodes, edges, true);
    var s1 := out.state;
    var d := Reconciled(env, c, p, s.graph, nodes, edges);
    PublishAllOrNothing(s, env, c, p, nodes, edges, true);
    StructuredIsShaped(s.graph);
    PublishLawful(s, env, c, p, nodes, edges, true);
    ReconciledIsSteady(env, c, p, s.graph, nodes, edges);
    SteadyAnyGeneration(env, p, d.g, s1.graph, nodes, edges);
    SameMembers(edges, p.edges);
    SecondRun(env, c, p, q, s.graph, s1.graph, nodes, edges);
    SameGuard(s, s1, env, c, p, q);
  }

  lemma StructuredIsShaped(g: Graph)
    requires Structured(g)
    ensures Shaped(g)
  {
    hide Shaped, KeysUnique;
  }

  lemma SteadyAnyGeneration(env: Env, p: Publication, g: Graph, out: Graph, nodes: seq<ObservedNode>,
                            edges: seq<ObservedEdge>)
    requires Steady(env, p, g, nodes, edges) && out.nodes == g.nodes && out.edges == g.edges
    requires out.lookups == g.lookups
    ensures Steady(env, p, out, nodes, edges)
  {
    hide NodeDone, SameStatement, SelfConsistent, ObservedCandidate, KeyOf, Gone, EntrySeated;
    forall o | o in edges
      ensures EntryDone(env, p.head, out, o)
    {
      assert EntryDone(env, p.head, g, o);
    }
    if p.head.mode != AuthoritativeSnapshot {
      forall o | o in edges
        ensures EntrySeated(env, p.head, out, o)
      {
        StaysSeated(env, p.head, g, out, o);
      }
    }
  }

  lemma SameGuard(s: State, s1: State, env: Env, c: Context, p: Publication, q: Publication)
    requires PublishGuard(s, env, c, p) == Ok && q == p.(head := p.head.(id := q.head.id), expected := 0)
    requires q.head.id != ""
    requires s1 == s.(graph := s1.graph, ledger := s1.ledger) && s1.graph.domains == s.graph.domains
    ensures PublishGuard(s1, env, c, q) == Ok
  {
    hide MetadataOk, GrantFor;
  }
}
