/** Exactly when a publication keeps relationship names unique, in every mode and whatever the lookups find. */
module NamesLaws {
  import opened Types
  import opened Graphs
  import opened Authority
  import opened Mutations
  import opened Reconcile
  import opened DraftLaws
  import opened PublishLaws
  import opened FrameLaws
  import opened EntryLaws
  import opened DraftNames
  import opened SnapshotLaws

  /** An entry has the key and does not strike out what stands for it. */
  ghost predicate Spared(p: Publication, g: Graph, key: EdgeKey) {
    exists o :: o in p.edges && ObservedKey(p.head, o) == key && (o.present || FindKey(g, key).None?)
  }

  /** Declared absences apart, the publication leaves this edge in place: always, unless it is a snapshot that erases
      it because it is live, in scope, and spared by no entry. */
  ghost predicate StaysPut(p: Publication, g: Graph, e: Edge) {
    p.head.mode == AuthoritativeSnapshot ==>
      !Live(e) || e.domain != p.head.domain || Spared(p, g, KeyOf(e))
  }

  /** The publication leaves the name of this edge taken: a snapshot frees it by declaring it absent. */
  ghost predicate StaysTaken(p: Publication, g: Graph, e: Edge) {
    StaysPut(p, g, e) && (p.head.mode == AuthoritativeSnapshot ==> !DeclaredAbsent(p, e.relationship))
  }

  /** No relationship that the entries file claims a name that stays taken; the graph is the one that the node
      entries have left. */
  ghost predicate NamesSettle(env: Env, p: Publication, g: Graph) {
    forall o, f | o in p.edges && IsNew(env, p.head, g, o) && f in g.edges ::
      g.edges[f].relationship == ObservedName(env, p.head, o) ==> !StaysTaken(p, g, g.edges[f])
  }

  // ---- What is left of the edges -------------------------------------------------------------

  /** The draft after absences and replacement, as far as its edges go. */
  ghost function Left(p: Publication, d: Draft): Edges
    requires d.Draft?
  {
    var a := AbsenceSet(p.head, d, Names(p.absences));
    if p.head.mode == AuthoritativeSnapshot then ReplaceScope(p.head, a).g.edges else a.g.edges
  }

  lemma LeftIs(env: Env, c: Context, p: Publication, g: Graph, nodes: seq<ObservedNode>, edges: seq<ObservedEdge>)
    requires Shaped(g) && p.head.domain in g.domains && Reconciled(env, c, p, g, nodes, edges).Draft?
    ensures var d0, d := Placed(env, c, p, g, nodes), Entered(env, c, p, g, nodes, edges);
            && d0.Draft? && d.Draft? && EnteredFacts(env, p.head, g, d0, d, edges) && EdgesFiled(d.g.edges)
            && Reconciled(env, c, p, g, nodes, edges).g.edges == Left(p, d)
  {
    hide Shaped, AbsenceSet, ReplaceScope, Reconciled, OnlyNodes, Pointed, NewcomersObserved, NewNamesDiffer,
         AllSettled, Tracks, EdgesFiled;
    ReconciledInSteps(env, c, p, g, nodes, edges);
    ShapedEdges(Entered(env, c, p, g, nodes, edges).g);
  }

  /** What is left was in the draft, under the same name and key. */
  lemma LeftFromDraft(p: Publication, d: Draft, e: EdgeId)
    requires d.Draft? && e in Left(p, d)
    ensures e in d.g.edges && Left(p, d)[e].relationship == d.g.edges[e].relationship
    ensures KeyOf(Left(p, d)[e]) == KeyOf(d.g.edges[e])
    ensures p.head.mode == AuthoritativeSnapshot ==> !Gone(p.head, d.g.lookups, Names(p.absences), d.g.edges[e])
  {
    hide MakeKey, LookupsWithoutGone, KeptNodes, Delisted, Gone, LeftOut, GoneKeys;
  }

  /** A snapshot keeps what no absence strikes and is dead, elsewhere or mentioned. */
  lemma LeftInSnapshot(p: Publication, d: Draft, e: EdgeId)
    requires d.Draft? && p.head.mode == AuthoritativeSnapshot && e in d.g.edges
    requires !Gone(p.head, d.g.lookups, Names(p.absences), d.g.edges[e])
    requires !Live(d.g.edges[e]) || d.g.edges[e].domain != p.head.domain || KeyOf(d.g.edges[e]) in d.keys
    ensures e in Left(p, d)
  {
    hide MakeKey, LookupsWithoutGone, KeptNodes, Delisted, Gone;
  }

  /** A snapshot erases a live edge of its scope whose key is neither mentioned nor that of a struck edge. */
  lemma LeftOutInSnapshot(p: Publication, d: Draft, e: EdgeId)
    requires d.Draft? && p.head.mode == AuthoritativeSnapshot && e in d.g.edges
    requires Live(d.g.edges[e]) && d.g.edges[e].domain == p.head.domain && KeyOf(d.g.edges[e]) !in d.keys
    requires forall x :: x in d.g.edges && KeyOf(d.g.edges[x]) == KeyOf(d.g.edges[e]) ==> x == e
    ensures e !in Left(p, d)
  {
    hide MakeKey, LookupsWithoutGone, KeptNodes, Delisted, Gone;
  }

  lemma LeftOtherwise(p: Publication, d: Draft, e: EdgeId)
    requires d.Draft? && p.head.mode != AuthoritativeSnapshot && e in d.g.edges
    ensures e in Left(p, d)
  {
    hide KeyOf, LookupsWithoutGone, Gone;
  }

  // ---- Which old edges stay --------------------------------------------------------------------

  /** An old edge that no entry strikes out is still in the draft. */
  lemma StaysInDraft(env: Env, p: Publication, g: Graph, d0: Draft, d: Draft, os: seq<ObservedEdge>, f: EdgeId)
    requires EnteredFacts(env, p.head, g, d0, d, os) && KeysUnique(d0.g.edges) && Rearranges(os, p.edges)
    requires f in d0.g.edges && StaysPut(p, d0.g, d0.g.edges[f])
    ensures f in d.g.edges && Kept(d0.g.edges, d.g.edges, f)
    ensures p.head.mode == AuthoritativeSnapshot ==>
              !Live(d.g.edges[f]) || d.g.edges[f].domain != p.head.domain || KeyOf(d.g.edges[f]) in d.keys
  {
    hide Tracks, KeyOf, ObservedKey, ObservedName, ObservedEdgeId, Pointed, NewcomersObserved, NewNamesDiffer,
         OnlyNodes, KeysOutside, Live, FindKey, StaysPut;
    SameMembers(os, p.edges);
    SparedKey(p, d0.g, os, d0.g.edges[f]);
    if KeyOf(d0.g.edges[f]) in d.keys {
      var i :| 0 <= i < |os| && ObservedKey(p.head, os[i]) == KeyOf(d0.g.edges[f]);
      assert Settled(env, p.head, d0.g, d.g.edges, os[i]);
      StaysSettledPut(env, p, d0.g, d.g.edges, os, i, f);
    } else {
      SameIsKept(d0.g.edges, d.g.edges, f);
    }
  }

  lemma SparedKey(p: Publication, g: Graph, os: seq<ObservedEdge>, e: Edge)
    requires StaysPut(p, g, e) && Rearranges(os, p.edges)
    ensures p.head.mode == AuthoritativeSnapshot && Live(e) && e.domain == p.head.domain ==>
              Spared(p, g, KeyOf(e)) && KeyOf(e) in ObservedKeys(p.head, os)
  {
    hide KeyOf, ObservedKey;
    SameMembers(os, p.edges);
  }

  lemma StaysSettledPut(env: Env, p: Publication, g: Graph, after: Edges, os: seq<ObservedEdge>, i: nat, f: EdgeId)
    requires i < |os| && Settled(env, p.head, g, after, os[i]) && KeysUnique(g.edges) && Rearranges(os, p.edges)
    requires f in g.edges && KeyOf(g.edges[f]) == ObservedKey(p.head, os[i]) && StaysPut(p, g, g.edges[f])
    requires forall i, j :: 0 <= i < j < |os| ==> ObservedKey(p.head, os[i]) != ObservedKey(p.head, os[j])
    ensures f in after && Kept(g.edges, after, f)
  {
    hide KeyOf, ObservedKey, ObservedName, ObservedEdgeId;
    FoundKeyDomain(p.head, g, os[i], f);
    if p.head.mode == AuthoritativeSnapshot && Live(g.edges[f]) {
      SparedEntry(p, g, os, i);
    }
    if Target(env, p.head, g, os[i]) != Some(f) {
      SameIsKept(g.edges, after, f);
    }
  }

  lemma SparedEntry(p: Publication, g: Graph, os: seq<ObservedEdge>, i: nat)
    requires i < |os| && Rearranges(os, p.edges) && Spared(p, g, ObservedKey(p.head, os[i]))
    requires forall i, j :: 0 <= i < j < |os| ==> ObservedKey(p.head, os[i]) != ObservedKey(p.head, os[j])
    ensures os[i].present || FindKey(g, ObservedKey(p.head, os[i])).None?
  {
    hide ObservedKey, FindKey;
    SameMembers(os, p.edges);
    var o :| o in p.edges && ObservedKey(p.head, o) == ObservedKey(p.head, os[i])
             && (o.present || FindKey(g, ObservedKey(p.head, os[i])).None?);
    var j :| 0 <= j < |os| && os[j] == o;
  }

  lemma FoundKeyDomain(p: Header, g: Graph, o: ObservedEdge, f: EdgeId)
    requires f in g.edges && KeyOf(g.edges[f]) == ObservedKey(p, o)
    ensures g.edges[f].domain == p.domain
  {
  }

  /** An old edge that stays put is left, unless an absence strikes it. */
  lemma StaysToTheEnd(env: Env, p: Publication, g: Graph, d0: Draft, d: Draft, os: seq<ObservedEdge>, f: EdgeId)
    requires EnteredFacts(env, p.head, g, d0, d, os) && KeysUnique(d0.g.edges) && Rearranges(os, p.edges)
    requires f in d0.g.edges && StaysTaken(p, d0.g, d0.g.edges[f])
    ensures f in Left(p, d) && f in d.g.edges && Kept(d0.g.edges, d.g.edges, f)
    ensures Left(p, d)[f].relationship == d0.g.edges[f].relationship
  {
    hide Tracks, KeyOf, Left, StaysPut, Live, OnlyNodes, AllSettled, Pointed, NewcomersObserved, NewNamesDiffer;
    StaysInDraft(env, p, g, d0, d, os, f);
    if p.head.mode == AuthoritativeSnapshot {
      NotGone(p, d, f);
      LeftInSnapshot(p, d, f);
    } else {
      LeftOtherwise(p, d, f);
    }
    LeftFromDraft(p, d, f);
  }

  lemma NotGone(p: Publication, d: Draft, e: EdgeId)
    requires d.Draft? && e in d.g.edges && !DeclaredAbsent(p, d.g.edges[e].relationship)
    ensures !Gone(p.head, d.g.lookups, Names(p.absences), d.g.edges[e])
  {
  }

  /** An old edge that does not stay put is not left. */
  lemma GoesInTheEnd(env: Env, p: Publication, g: Graph, d0: Draft, d: Draft, os: seq<ObservedEdge>, f: EdgeId)
    requires EnteredFacts(env, p.head, g, d0, d, os) && KeysUnique(d0.g.edges) && Rearranges(os, p.edges)
    requires f in d0.g.edges && !StaysPut(p, d0.g, d0.g.edges[f])
    ensures f in Left(p, d) ==> f in d.g.edges && !Kept(d0.g.edges, d.g.edges, f)
  {
    hide Tracks, KeyOf, ObservedName, ObservedEdgeId, Pointed, NewcomersObserved, NewNamesDiffer, OnlyNodes,
         KeysOutside, Left, FindKey, ObservedKey;
    SameMembers(os, p.edges);
    var key := KeyOf(d0.g.edges[f]);
    if key in d.keys {
      var i :| 0 <= i < |os| && ObservedKey(p.head, os[i]) == key;
      StruckEntry(env, p, d0.g, d.g.edges, os[i], f);
      if f in Left(p, d) {
        LeftFromDraft(p, d, f);
        KeptKeys(d0.g.edges, d.g.edges, f);
      }
    } else {
      forall x | x in d.g.edges && KeyOf(d.g.edges[x]) == key
        ensures x == f
      {
      }
      LeftOutInSnapshot(p, d, f);
    }
  }

  lemma KeptKeys(before: Edges, after: Edges, e: EdgeId)
    requires e in after
    ensures Kept(before, after, e) ==> KeyOf(before[e]) == KeyOf(after[e])
  {
    hide MakeKey;
  }

  lemma StruckEntry(env: Env, p: Publication, g: Graph, after: Edges, o: ObservedEdge, f: EdgeId)
    requires Settled(env, p.head, g, after, o) && KeysUnique(g.edges) && o in p.edges
    requires f in g.edges && KeyOf(g.edges[f]) == ObservedKey(p.head, o) && !StaysPut(p, g, g.edges[f])
    ensures !(f in after && KeyOf(after[f]) == ObservedKey(p.head, o))
  {
    hide KeyOf, ObservedKey, ObservedName, ObservedEdgeId;
    assert !o.present && FindKey(g, ObservedKey(p.head, o)).Some?;
    assert FindKey(g, ObservedKey(p.head, o)) == Some(f);
  }

  // ---- Two holders of a name ---------------------------------------------------------------------

  lemma AtMostTwoHold(before: Edges, after: Edges, a: EdgeId, b: EdgeId, x: EdgeId)
    requires NewNamesDiffer(before, after) && RelationshipsUnique(before)
    requires a in after && b in after && a != b && x in after
    requires after[a].relationship == after[b].relationship == after[x].relationship
    ensures x == a || x == b
  {
  }

  /** Of two holders of a name that is declared absent, one is struck by the absence. */
  lemma OneOfTwoStruck(env: Env, p: Publication, g: Graph, d0: Draft, d: Draft, os: seq<ObservedEdge>, a: EdgeId,
                       b: EdgeId)
    requires EnteredFacts(env, p.head, g, d0, d, os) && RelationshipsUnique(d0.g.edges) && EdgesFiled(d.g.edges)
    requires p.head.mode == AuthoritativeSnapshot
    requires a in d.g.edges && b in d.g.edges && a != b && d.g.edges[a].relationship == d.g.edges[b].relationship
    requires DeclaredAbsent(p, d.g.edges[a].relationship)
    ensures var found := FindRelationship(d.g, d.g.edges[a].relationship);
            && found.Some? && found.value in [a, b]
            && Gone(p.head, d.g.lookups, Names(p.absences), d.g.edges[found.value])
  {
    hide Tracks, MakeKey, OnlyNodes, NewcomersObserved, AllSettled, NameListed;
    var name := d.g.edges[a].relationship;
    TwoHoldersTended(d0.g, d.g.edges, a, b);
    assert Tended(d0.g, d.g.edges, name);
    var x := FindRelationship(d.g, name).value;
    AtMostTwoHold(d0.g.edges, d.g.edges, a, b, x);
    assert Mentioned(p.head, d, d.g.edges[x]);
    MentionedInScope(env, p, d0.g, d, os, d.g.edges[x]);
  }

  lemma TwoHoldersTended(g: Graph, after: Edges, a: EdgeId, b: EdgeId)
    requires NewNamesDiffer(g.edges, after) && RelationshipsUnique(g.edges)
    requires a in after && b in after && a != b && after[a].relationship == after[b].relationship
    ensures Tended(g, after, after[a].relationship)
  {
    hide NameListed;
  }

  lemma MentionedInScope(env: Env, p: Publication, g: Graph, d: Draft, os: seq<ObservedEdge>, e: Edge)
    requires d.Draft? && AllSettled(env, p.head, g, d, os) && KeyOf(e) in d.keys
    ensures e.domain == p.head.domain
  {
    hide Settled, AgreeOutside, KeysOutside;
    var o :| o in os && ObservedKey(p.head, o) == KeyOf(e);
  }

  lemma PlacedUnique(g: Graph, d0: Draft)
    requires OnlyNodes(g, d0)
    ensures RelationshipsUnique(g.edges) ==> RelationshipsUnique(d0.g.edges)
    ensures KeysUnique(g.edges) ==> KeysUnique(d0.g.edges)
  {
    hide Tracks, MakeKey, KeyListed, NameListed, Live;
    assert forall e :: e in g.edges ==> Kept(g.edges, d0.g.edges, e) && KeyOf(g.edges[e]) == KeyOf(d0.g.edges[e]);
  }

  /** When names settle, what is left goes by names of its own. */
  lemma SettledNamesAreUnique(env: Env, p: Publication, g: Graph, d0: Draft, d: Draft, os: seq<ObservedEdge>)
    requires EnteredFacts(env, p.head, g, d0, d, os) && KeysUnique(d0.g.edges) && RelationshipsUnique(d0.g.edges)
    requires EdgesFiled(d.g.edges) && Rearranges(os, p.edges) && NamesSettle(env, p, d0.g)
    ensures RelationshipsUnique(Left(p, d))
  {
    hide OnlyNodes, Tracks, AllSettled, Pointed, KeyOf, IsNew, ObservedKey, ObservedName, NewcomersObserved,
         NewNamesDiffer, Left, Gone, Observed, KeysUnique, StaysPut, NamesSettle;
    var r := Left(p, d);
    forall a, b | a in r && b in r && a != b
      ensures r[a].relationship != r[b].relationship
    {
      LeftFromDraft(p, d, a);
      LeftFromDraft(p, d, b);
      if r[a].relationship == r[b].relationship {
        TwoHolders(env, p.head, d0.g, d.g.edges, os, a, b);
        var e, f :| (e, f) in [(a, b), (b, a)] && Kept(d0.g.edges, d.g.edges, f)
                    && Observed(env, p.head, d0.g, os, d.g.edges, e);
        ClaimedIsReleased(env, p, d0.g, os, d.g.edges, e, f);
        if p.head.mode == AuthoritativeSnapshot && DeclaredAbsent(p, d.g.edges[a].relationship) {
          OneOfTwoStruck(env, p, g, d0, d, os, a, b);
        } else {
          GoesInTheEnd(env, p, g, d0, d, os, f);
        }
        assert false;
      }
    }
  }

  /** When names settle, an old holder of a name that an entry files under does not stay. */
  lemma ClaimedIsReleased(env: Env, p: Publication, g: Graph, os: seq<ObservedEdge>, after: Edges, e: EdgeId, f: EdgeId)
    requires NamesSettle(env, p, g) && Rearranges(os, p.edges) && e in after && Observed(env, p.head, g, os, after, e)
    requires f in after && Kept(g.edges, after, f) && after[f].relationship == after[e].relationship
    ensures f in g.edges && g.edges[f].relationship == after[f].relationship && !StaysTaken(p, g, g.edges[f])
  {
    hide KeyOf, IsNew, ObservedKey, ObservedName, StaysTaken, ObservedEdgeId;
    SameMembers(os, p.edges);
  }

  /** A filed relationship is in the draft, live, in scope and mentioned, under the name it claims. */
  lemma NewStands(env: Env, p: Publication, g: Graph, d0: Draft, d: Draft, os: seq<ObservedEdge>, o: ObservedEdge)
    returns (y: EdgeId)
    requires EnteredFacts(env, p.head, g, d0, d, os) && o in os && IsNew(env, p.head, d0.g, o)
    ensures y in d.g.edges && d.g.edges[y].relationship == ObservedName(env, p.head, o)
    ensures d.g.edges[y].domain == p.head.domain && Live(d.g.edges[y]) && KeyOf(d.g.edges[y]) in d.keys
    ensures KeyOf(d.g.edges[y]) == ObservedKey(p.head, o) && !Kept(d0.g.edges, d.g.edges, y)
  {
    hide Tracks, MakeKey, Pointed, NewcomersObserved, NewNamesDiffer, OnlyNodes, KeysOutside, AgreeOutside,
         ObservedName, ObservedEdgeId, SameButFor;
    var i :| 0 <= i < |os| && os[i] == o;
    assert Settled(env, p.head, d0.g, d.g.edges, os[i]);
    y := ObservedEdgeId(env, p.head, o);
    assert Target(env, p.head, d0.g, o) == Some(y);
    assert ObservedKey(p.head, o) in ObservedKeys(p.head, os);
    MentionedInScope(env, p, d0.g, d, os, d.g.edges[y]);
  }

  /** A name that stays taken is used twice when an entry files under it. */
  lemma TakenNameClashes(env: Env, p: Publication, g: Graph, d0: Draft, d: Draft, os: seq<ObservedEdge>,
                         o: ObservedEdge, f: EdgeId)
    requires EnteredFacts(env, p.head, g, d0, d, os) && KeysUnique(d0.g.edges) && Rearranges(os, p.edges)
    requires o in p.edges && IsNew(env, p.head, d0.g, o) && f in d0.g.edges && StaysTaken(p, d0.g, d0.g.edges[f])
    requires d0.g.edges[f].relationship == ObservedName(env, p.head, o)
    ensures !RelationshipsUnique(Left(p, d))
  {
    hide Tracks, KeyOf, Pointed, NewcomersObserved, NewNamesDiffer, OnlyNodes, AllSettled, ObservedName, Left, IsNew,
         StaysPut, Live, ObservedKey, KeysUnique;
    SameMembers(os, p.edges);
    var y := NewStands(env, p, g, d0, d, os, o);
    StaysToTheEnd(env, p, g, d0, d, os, f);
    assert f != y;
    if p.head.mode == AuthoritativeSnapshot {
      NotGone(p, d, y);
      LeftInSnapshot(p, d, y);
    } else {
      LeftOtherwise(p, d, y);
    }
    LeftFromDraft(p, d, y);
    assert Left(p, d)[f].relationship == Left(p, d)[y].relationship;
  }

  // ---- The exact condition ------------------------------------------------------------------------

  /** A committed publication, in any mode, leaves a sound graph sound exactly when no
      relationship that it files claims a name that stays taken. */
  lemma PublishSoundExactlyWhenNamesSettle(s: State, env: Env, c: Context, p: Publication, nodes: seq<ObservedNode>,
                                           edges: seq<ObservedEdge>, persisted: bool)
    requires Sound(s.graph) && Rearranges(nodes, p.nodes) && Rearranges(edges, p.edges)
    requires Publish(s, env, c, p, nodes, edges, persisted).verdict == Committed
    ensures Placed(env, c, p, s.graph, nodes).Draft?
    ensures Sound(Publish(s, env, c, p, nodes, edges, persisted).state.graph)
            <==> NamesSettle(env, p, Placed(env, c, p, s.graph, nodes).g)
  {
    hide Publish, Shaped, KeysUnique, IsNew, StaysTaken, ObservedName, Reconciled, RelationshipsUnique, Left,
         ValidTopology, Tracks, Pointed, NewcomersObserved, NewNamesDiffer, OnlyNodes, AllSettled, EdgesFiled;
    var g := s.graph;
    PublishLawful(s, env, c, p, nodes, edges, persisted);
    CommittedIsGuarded(s, env, c, p, nodes, edges, persisted);
    LeftIs(env, c, p, g, nodes, edges);
    var d0, d := Placed(env, c, p, g, nodes), Entered(env, c, p, g, nodes, edges);
    PlacedUnique(g, d0);
    if NamesSettle(env, p, d0.g) {
      SettledNamesAreUnique(env, p, g, d0, d, edges);
    } else {
      var o, f :| o in p.edges && IsNew(env, p.head, d0.g, o) && f in d0.g.edges
                  && d0.g.edges[f].relationship == ObservedName(env, p.head, o) && StaysTaken(p, d0.g, d0.g.edges[f]);
      TakenNameClashes(env, p, g, d0, d, edges, o, f);
    }
  }
}
