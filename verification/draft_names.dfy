/** Relationship names in a draft: where the new ones come from, and what the name lookup makes of two holders. */
module DraftNames {
  import opened Types
  import opened Graphs
  import opened Authority
  import opened Mutations
  import opened Reconcile
  import opened DraftLaws
  import opened FrameLaws
  import opened EntryLaws

  /** The draft after the node entries of a publication. */
  ghost function Placed(env: Env, c: Context, p: Publication, g: Graph, nodes: seq<ObservedNode>): Draft {
    NodeEntries(env, c, p.head, FirstDraft(g), nodes)
  }

  /** The draft after the node and edge entries of a publication. */
  ghost function Entered(env: Env, c: Context, p: Publication, g: Graph, nodes: seq<ObservedNode>,
                         edges: seq<ObservedEdge>): Draft {
    EdgeEntries(env, c, p.head, Placed(env, c, p, g, nodes), edges)
  }

  /** The node entries have been accepted, and of the edges only generations and lifecycles may differ. */
  ghost predicate OnlyNodes(g: Graph, d: Draft) {
    && d.Draft? && Tracks(g, d) && d.keys == {} && d.names == {} && d.g.edges.Keys == g.edges.Keys
    && (forall e :: e in g.edges ==> Kept(g.edges, d.g.edges, e) && Live(g.edges[e]) == Live(d.g.edges[e]))
    && (forall k :: KeyListed(g, k) ==> KeyListed(d.g, k))
    && (forall n :: NameListed(g, n) ==> NameListed(d.g, n))
  }

  lemma PlacedOnlyNodes(env: Env, c: Context, p: Publication, g: Graph, nodes: seq<ObservedNode>)
    requires Shaped(g) && p.head.domain in g.domains && Placed(env, c, p, g, nodes).Draft?
    ensures OnlyNodes(g, Placed(env, c, p, g, nodes))
  {
    hide Tracks, NodeEntries, KeyListed, NameListed, AcyclicWhereRequired, EntitiesUnique, EndpointsExist,
         EdgesNormalized, EdgeScopesDeclared, NodeScopesDeclared, NodesFiled;
    FirstDraftTracks(g);
    NodeEntriesTrack(env, c, p.head, g, FirstDraft(g), nodes);
    NodeEntriesIds(env, c, p.head, FirstDraft(g), nodes);
    NodeEntriesFind(env, c, p.head, FirstDraft(g), nodes);
  }

  // ---- Where the new relationships come from ----------------------------------------------

  /** The edge is what this entry files. */
  predicate FiledBy(env: Env, p: Header, g: Graph, o: ObservedEdge, e: EdgeId, after: Edges)
    requires e in after
  {
    && IsNew(env, p, g, o) && e == ObservedEdgeId(env, p, o) && KeyOf(after[e]) == ObservedKey(p, o)
    && after[e].relationship == ObservedName(env, p, o)
  }

  ghost predicate Observed(env: Env, p: Header, g: Graph, os: seq<ObservedEdge>, after: Edges, e: EdgeId)
    requires e in after
  {
    exists i :: 0 <= i < |os| && FiledBy(env, p, g, os[i], e, after)
  }

  /** Every edge of the draft was there when the node entries had been accepted, or is filed by one of the entries. */
  ghost predicate NewcomersObserved(env: Env, p: Header, g: Graph, after: Edges, os: seq<ObservedEdge>) {
    forall e :: e in after ==> Kept(g.edges, after, e) || Observed(env, p, g, os, after, e)
  }

  /** What the edge entries come to, all at once. */
  ghost predicate AllSettled(env: Env, p: Header, g: Graph, d: Draft, os: seq<ObservedEdge>)
    requires d.Draft?
  {
    && AgreeOutside(g.edges, d.g.edges, ObservedKeys(p, os))
    && KeysOutside(g.lookups, d.g.lookups, ObservedKeys(p, os))
    && d.keys == ObservedKeys(p, os)
    && (forall i :: 0 <= i < |os| ==> Settled(env, p, g, d.g.edges, os[i]))
    && (forall i, j :: 0 <= i < j < |os| ==> ObservedKey(p, os[i]) != ObservedKey(p, os[j]))
  }

  lemma SettledArrives(env: Env, p: Header, g: Graph, after: Edges, os: seq<ObservedEdge>, i: nat, e: EdgeId)
    requires i < |os| && Settled(env, p, g, after, os[i]) && e in after && KeyOf(after[e]) == ObservedKey(p, os[i])
    ensures Kept(g.edges, after, e) || FiledBy(env, p, g, os[i], e, after)
  {
    hide KeyOf, ObservedKey, ObservedName, ObservedEdgeId;
  }

  lemma SettledNewcomers(env: Env, p: Header, g: Graph, d: Draft, os: seq<ObservedEdge>)
    requires d.Draft? && AllSettled(env, p, g, d, os)
    ensures NewcomersObserved(env, p, g, d.g.edges, os)
  {
    hide Settled, KeyOf, ObservedKey, FiledBy, Kept;
    forall e | e in d.g.edges
      ensures Kept(g.edges, d.g.edges, e) || Observed(env, p, g, os, d.g.edges, e)
    {
      if KeyOf(d.g.edges[e]) in d.keys {
        var i :| 0 <= i < |os| && ObservedKey(p, os[i]) == KeyOf(d.g.edges[e]);
        SettledArrives(env, p, g, d.g.edges, os, i, e);
      } else {
        SameIsKept(g.edges, d.g.edges, e);
      }
    }
  }

  lemma SameIsKept(before: Edges, after: Edges, e: EdgeId)
    requires e in before && e in after && after[e] == before[e]
    ensures Kept(before, after, e)
  {
  }

  // ---- What the name lookup points to ---------------------------------------------------------

  /** A relationship an entry has settled: its key is mentioned, and a snapshot leaves it live. */
  predicate Mentioned(p: Header, d: Draft, e: Edge)
    requires d.Draft?
  {
    KeyOf(e) in d.keys && (p.mode == AuthoritativeSnapshot ==> Live(e))
  }

  /** The name was right before the edge entries, or one of them has filed an edge under it. */
  ghost predicate Tended(g: Graph, after: Edges, name: RelId) {
    NameListed(g, name) || exists y :: y in after && after[y].relationship == name && !Kept(g.edges, after, y)
  }

  /** A tended name is found, and where two relationships hold it the lookup points to a mentioned one. */
  ghost predicate Pointed(p: Header, g: Graph, d: Draft)
    requires d.Draft?
  {
    forall e :: e in d.g.edges && Tended(g, d.g.edges, d.g.edges[e].relationship) ==>
      var found := FindRelationship(d.g, d.g.edges[e].relationship);
      found.Some? && (found.value == e || Mentioned(p, d, d.g.edges[found.value]))
  }

  lemma FirstPointed(p: Header, d: Draft)
    requires d.Draft?
    ensures Pointed(p, d.g, d)
  {
    hide KeyOf;
  }

  /** The edges keep their names and keys, and one of them, now mentioned, takes its name in the lookup. */
  lemma RepointedStaysPointed(p: Header, g: Graph, d: Draft, d': Draft, id: EdgeId)
    requires d.Draft? && d'.Draft? && Pointed(p, g, d) && d.keys <= d'.keys && id in d'.g.edges
    requires Mentioned(p, d', d'.g.edges[id])
    requires d'.g.lookups.names == d.g.lookups.names[d'.g.edges[id].relationship := id]
    requires forall e :: e in d.g.edges && e != id ==> e in d'.g.edges && d'.g.edges[e] == d.g.edges[e]
    requires forall e :: e in d'.g.edges ==> e == id || e in d.g.edges
    requires id in d.g.edges ==> Kept(d.g.edges, d'.g.edges, id)
    ensures Pointed(p, g, d')
  {
    hide KeyOf, NameListed, SameShape;
    forall e | e in d'.g.edges && Tended(g, d'.g.edges, d'.g.edges[e].relationship)
      ensures var found := FindRelationship(d'.g, d'.g.edges[e].relationship);
              found.Some? && (found.value == e || Mentioned(p, d', d'.g.edges[found.value]))
    {
      var name := d'.g.edges[e].relationship;
      if name != d'.g.edges[id].relationship {
        assert e in d.g.edges && d.g.edges[e] == d'.g.edges[e];
        assert Tended(g, d.g.edges, name) by { TendedBefore(g, d.g.edges, d'.g.edges, id, name); }
      }
    }
  }

  lemma TendedBefore(g: Graph, before: Edges, after: Edges, id: EdgeId, name: RelId)
    requires Tended(g, after, name) && id in after ==> after[id].relationship != name
    requires Tended(g, after, name)
    requires forall e :: e in after && e != id ==> e in before && before[e] == after[e]
    ensures Tended(g, before, name)
  {
    hide NameListed;
    if !NameListed(g, name) {
      var y :| y in after && after[y].relationship == name && !Kept(g.edges, after, y);
      assert y in before && before[y].relationship == name && !Kept(g.edges, before, y);
    }
  }

  /** Without an edge, every name finds what it found, unless that was the edge. */
  lemma FoundWithout(g: Graph, h: Graph, id: EdgeId)
    requires id in g.edges && g.edges[id].id == id
    requires h.edges == g.edges - {id} && h.lookups == Delist(g.lookups, g.edges[id])
    ensures forall n :: FindRelationship(h, n) == if FindRelationship(g, n) == Some(id) then None
                                                  else FindRelationship(g, n)
    ensures forall k :: FindKey(h, k) == if FindKey(g, k) == Some(id) then None else FindKey(g, k)
  {
    hide KeyOf;
  }

  /** An erased edge whose key was not mentioned was the only one its name pointed to it for. */
  lemma ErasedStaysPointed(p: Header, g: Graph, d: Draft, d': Draft, id: EdgeId)
    requires d.Draft? && d'.Draft? && Pointed(p, g, d) && d.keys <= d'.keys && id in d.g.edges
    requires KeyOf(d.g.edges[id]) !in d.keys && d.g.edges[id].id == id
    requires d'.g.lookups == Delist(d.g.lookups, d.g.edges[id]) && d'.g.edges == d.g.edges - {id}
    ensures Pointed(p, g, d')
  {
    hide KeyOf, NameListed, SameShape, FindRelationship, Delist;
    FoundWithout(d.g, d'.g, id);
    forall e | e in d'.g.edges && Tended(g, d'.g.edges, d'.g.edges[e].relationship)
      ensures var found := FindRelationship(d'.g, d'.g.edges[e].relationship);
              found.Some? && (found.value == e || Mentioned(p, d', d'.g.edges[found.value]))
    {
      var name := d'.g.edges[e].relationship;
      assert Tended(g, d.g.edges, name) by {
        if !NameListed(g, name) {
          var y :| y in d'.g.edges && d'.g.edges[y].relationship == name && !Kept(g.edges, d'.g.edges, y);
          assert y in d.g.edges && !Kept(g.edges, d.g.edges, y);
        }
      }
      var found := FindRelationship(d.g, name);
      assert found.value != id;
    }
  }

  lemma MentionedStaysPointed(p: Header, g: Graph, d: Draft, d': Draft)
    requires d.Draft? && d'.Draft? && Pointed(p, g, d) && d.keys <= d'.keys && d'.g == d.g
    ensures Pointed(p, g, d')
  {
    hide KeyOf, NameListed;
  }

  lemma PresentEdgePointed(env: Env, c: Context, p: Header, g: Graph, d: Draft, k: Candidate)
    requires d.Draft? && EdgesFiled(d.g.edges) && Pointed(p, g, d) && PresentEdge(env, c, p, d, k).Draft?
    requires MakeKey(k.relation, k.from, k.to, k.domain) in d.keys
    ensures Pointed(p, g, PresentEdge(env, c, p, d, k))
  {
    hide ValidateCandidate, SameStatement, MakeKey, Pointed, PublishedEdge, RestatedByPublication, KeyOf;
    var key := MakeKey(k.relation, k.from, k.to, k.domain);
    ValidCandidateFacts(d.g, k, FindKey(d.g, key).None?);
    var d' := PresentEdge(env, c, p, d, k);
    if d'.g == d.g {
      MentionedStaysPointed(p, g, d, d');
    } else {
      PublishedNames(c, p, d.g, k);
      if k.id in d.g.edges {
        RelistedName(d.g.lookups, d.g.edges[k.id], d'.g.edges[k.id]);
      }
      RepointedStaysPointed(p, g, d, d', k.id);
    }
  }

  /** Filing an edge anew under its own name points the name to it. */
  lemma RelistedName(l: Lookups, e: Edge, e': Edge)
    requires e'.relationship == e.relationship && e'.id == e.id
    ensures Relist(l, e, e').names == l.names[e.relationship := e.id]
  {
    hide KeyOf;
  }

  lemma AbsentEdgePointed(p: Header, g: Graph, d: Draft, noted: Draft, key: EdgeKey)
    requires d.Draft? && EdgesFiled(d.g.edges) && Pointed(p, g, d) && key !in d.keys
    requires noted == d.(keys := d.keys + {key}) && AbsentEdge(p, noted, key).Draft?
    ensures Pointed(p, g, AbsentEdge(p, noted, key))
  {
    hide MakeKey, Pointed, Relist, Delist;
    var d' := AbsentEdge(p, noted, key);
    if d' == noted {
      MentionedStaysPointed(p, g, d, d');
    } else if p.mode == AuthoritativeSnapshot {
      ErasedStaysPointed(p, g, d, d', FindKey(d.g, key).value);
    } else {
      var id := FindKey(d.g, key).value;
      RelistedName(d.g.lookups, d.g.edges[id], d'.g.edges[id]);
      RepointedStaysPointed(p, g, d, d', id);
    }
  }

  lemma EdgeEntryPointed(env: Env, c: Context, p: Header, g: Graph, d: Draft, o: ObservedEdge)
    requires d.Draft? && EdgesFiled(d.g.edges) && Pointed(p, g, d) && EdgeEntry(env, c, p, d, o).Draft?
    ensures Pointed(p, g, EdgeEntry(env, c, p, d, o))
  {
    hide PresentEdge, AbsentEdge, Pointed, ObservedCandidate, ObservedKey, EdgesFiled;
    var noted := d.(keys := d.keys + {ObservedKey(p, o)});
    MentionedStaysPointed(p, g, d, noted);
    if o.present {
      var layer := ResolveLayer(o.relation, o.layer).value;
      CandidateNames(env, p, o, layer);
      PresentEdgePointed(env, c, p, g, noted, ObservedCandidate(env, p, o, layer));
    } else {
      AbsentEdgePointed(p, g, d, noted, ObservedKey(p, o));
    }
  }

  lemma {:induction false} EdgeEntriesPointed(env: Env, c: Context, p: Header, g: Graph, first: Graph, d: Draft,
                                              os: seq<ObservedEdge>)
    requires Tracks(g, d) && Pointed(p, first, d) && p.domain in g.domains && EdgeEntries(env, c, p, d, os).Draft?
    ensures Pointed(p, first, EdgeEntries(env, c, p, d, os))
  {
    hide Tracks, Pointed, EdgeEntry, Shaped, EdgesFiled;
    if os != [] {
      var before := EdgeEntries(env, c, p, d, os[..|os| - 1]);
      EdgeEntriesPointed(env, c, p, g, first, d, os[..|os| - 1]);
      EdgeEntriesTrack(env, c, p, g, d, os[..|os| - 1]);
      TracksFacts(g, before);
      ShapedEdges(before.g);
      EdgeEntryPointed(env, c, p, first, before, os[|os| - 1]);
    }
  }

  lemma ShapedEdges(g: Graph)
    requires Shaped(g)
    ensures EdgesFiled(g.edges) && NodesFiled(g.nodes) && EdgesNormalized(g.edges)
  {
    hide EdgesFiled, AcyclicWhereRequired, NodesFiled, EntitiesUnique, EndpointsExist, EdgesNormalized,
         NodeScopesDeclared, EdgeScopesDeclared;
  }

  // ---- After the entries ------------------------------------------------------------------------

  /** Everything the later laws need to know about the draft after the entries. */
  ghost predicate EnteredFacts(env: Env, p: Header, g: Graph, d0: Draft, d: Draft, os: seq<ObservedEdge>) {
    && d0.Draft? && d.Draft? && OnlyNodes(g, d0) && Tracks(g, d)
    && AllSettled(env, p, d0.g, d, os)
    && NewNamesDiffer(d0.g.edges, d.g.edges)
    && NewcomersObserved(env, p, d0.g, d.g.edges, os)
    && Pointed(p, d0.g, d)
  }

  lemma EnteredHolds(env: Env, c: Context, p: Publication, g: Graph, nodes: seq<ObservedNode>, edges: seq<ObservedEdge>)
    requires Shaped(g) && p.head.domain in g.domains && Entered(env, c, p, g, nodes, edges).Draft?
    ensures Placed(env, c, p, g, nodes).Draft?
    ensures EnteredFacts(env, p.head, g, Placed(env, c, p, g, nodes), Entered(env, c, p, g, nodes, edges), edges)
  {
    hide Tracks, Shaped, NodeEntries, EdgeEntries, Pointed, NewcomersObserved, AgreeOutside, KeysOutside, Settled,
         ObservedKeys, KeyListed, NameListed, NewNamesDiffer, Kept, Live;
    var d0, d := Placed(env, c, p, g, nodes), Entered(env, c, p, g, nodes, edges);
    RejectionSticks(env, c, p.head, d0, edges);
    PlacedOnlyNodes(env, c, p, g, nodes);
    EdgeEntriesTrack(env, c, p.head, g, d0, edges);
    EdgeEntriesSettle(env, c, p.head, d0, edges);
    SettledNewcomers(env, p.head, d0.g, d, edges);
    FirstPointed(p.head, d0);
    EdgeEntriesPointed(env, c, p.head, g, d0.g, d0, edges);
    NewNamesFromPlaced(g, d0, d);
  }

  lemma RejectionSticks(env: Env, c: Context, p: Header, d: Draft, os: seq<ObservedEdge>)
    ensures d.Rejected? ==> EdgeEntries(env, c, p, d, os).Rejected?
    decreases |os|
  {
    hide EdgeEntry;
    if os != [] {
      RejectionSticks(env, c, p, d, os[..|os| - 1]);
    }
  }

  lemma NewNamesFromPlaced(g: Graph, d0: Draft, d: Draft)
    requires OnlyNodes(g, d0) && Tracks(g, d)
    ensures NewNamesDiffer(d0.g.edges, d.g.edges)
  {
    hide Shaped, DeadKept, Origins, UnmentionedKept, KeyListed, NameListed, Live;
    forall a | a in d.g.edges && Kept(g.edges, d.g.edges, a)
      ensures Kept(d0.g.edges, d.g.edges, a)
    {
      assert Kept(g.edges, d0.g.edges, a);
    }
  }

  /** Two holders of one name are one that was there and one that an entry files. */
  lemma TwoHolders(env: Env, p: Header, g: Graph, after: Edges, os: seq<ObservedEdge>, a: EdgeId, b: EdgeId)
    requires NewNamesDiffer(g.edges, after) && NewcomersObserved(env, p, g, after, os)
    requires a in after && b in after && a != b && after[a].relationship == after[b].relationship
    requires RelationshipsUnique(g.edges)
    ensures exists e, f :: (e, f) in [(a, b), (b, a)] && Kept(g.edges, after, f) && !Kept(g.edges, after, e)
                           && Observed(env, p, g, os, after, e)
  {
    hide Observed;
    if Kept(g.edges, after, a) {
      assert !Kept(g.edges, after, b);
      assert (b, a) in [(a, b), (b, a)];
    } else {
      assert Kept(g.edges, after, b);
      assert (a, b) in [(a, b), (b, a)];
    }
  }
}
