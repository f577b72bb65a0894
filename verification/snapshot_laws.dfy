/** After a committed authoritative snapshot, the scope holds exactly what the snapshot said. */
module SnapshotLaws {
  import opened Types
  import opened Graphs
  import opened Authority
  import opened Mutations
  import opened Reconcile
  import opened DraftLaws
  import opened PublishLaws
  import opened FrameLaws
  import opened EntryLaws
  import opened DraftNames

  // ---- Declared absences as one set operation --------------------------------------------

  /** A live relationship of the scope that the name lookup finds under one of these names. */
  predicate Gone(p: Header, l: Lookups, names: set<RelId>, e: Edge) {
    && e.domain == p.domain && Live(e) && e.relationship != "" && e.relationship in names
    && e.relationship in l.names && l.names[e.relationship] == e.id
  }

  function GoneIds(p: Header, g: Graph, names: set<RelId>): set<EdgeId> {
    set e | e in g.edges && Gone(p, g.lookups, names, g.edges[e])
  }

  function GoneKeys(p: Header, g: Graph, names: set<RelId>): set<EdgeKey> {
    set e | e in g.edges && Gone(p, g.lookups, names, g.edges[e]) :: KeyOf(g.edges[e])
  }

  function WithoutGone(p: Header, g: Graph, names: set<RelId>): Edges {
    if p.mode == AuthoritativeSnapshot then map e | e in g.edges && !Gone(p, g.lookups, names, g.edges[e]) :: g.edges[e]
    else map e | e in g.edges :: if Gone(p, g.lookups, names, g.edges[e]) then RetiredEdge(g.edges[e]) else g.edges[e]
  }

  /** The edge that stands for a relationship, whether it is listed or not. */
  ghost function Holder(edges: Edges, key: EdgeKey): (r: Option<EdgeId>)
    ensures r.Some? ==> r.value in edges && KeyOf(edges[r.value]) == key
    ensures r.None? ==> forall id :: id in edges ==> KeyOf(edges[id]) != key
  {
    if exists id :: id in edges && KeyOf(edges[id]) == key
    then var id :| id in edges && KeyOf(edges[id]) == key; Some(id)
    else None
  }

  /** A retired edge is filed anew under its key and name; an erased one is withdrawn. */
  ghost function LookupsWithoutGone(p: Header, g: Graph, names: set<RelId>): Lookups {
    var keys := GoneKeys(p, g, names);
    if p.mode == AuthoritativeSnapshot then Delisted(g.lookups, g.edges, GoneIds(p, g, names))
    else
      Lookups(map k | k in g.lookups.keys.Keys + keys ::
                if k in keys && Holder(g.edges, k).Some? then Holder(g.edges, k).value
                else if k in g.lookups.keys then g.lookups.keys[k] else "",
              g.lookups.names)
  }

  /** The draft after honouring a set of declared absences. */
  ghost function AbsenceSet(p: Header, d: Draft, names: set<RelId>): (r: Draft)
    requires d.Draft?
    ensures r.Draft? && r.nodeIds == d.nodeIds
  {
    d.(g := d.g.(edges := WithoutGone(p, d.g, names), lookups := LookupsWithoutGone(p, d.g, names)),
       keys := d.keys + GoneKeys(p, d.g, names), changed := d.changed || GoneKeys(p, d.g, names) != {})
  }

  /** Two drafts alike but for the key lookup. */
  predicate LikeButKeys(a: Draft, b: Draft) {
    a.Draft? && b.Draft? && a == b.(g := b.g.(lookups := b.g.lookups.(keys := a.g.lookups.keys)))
  }

  /** In a snapshot, and where no relationship is stored twice, the key lookup is alike as well. */
  ghost predicate KeysToo(p: Header, g: Graph) {
    p.mode == AuthoritativeSnapshot || KeysUnique(g.edges)
  }

  /** Declared absences are honoured one after the other, which comes to honouring
      the set of them: their order and their repetitions do not matter. */
  lemma {:induction false} AbsencesAreASet(p: Header, d: Draft, names: seq<RelId>)
    requires d.Draft? && EdgesFiled(d.g.edges)
    ensures LikeButKeys(Absences(p, d, names), AbsenceSet(p, d, Names(names)))
    ensures KeysToo(p, d.g) ==> Absences(p, d, names) == AbsenceSet(p, d, Names(names))
  {
    hide KeyOf, WithoutGone, LookupsWithoutGone, GoneKeys, Absence, EdgesFiled;
    if names == [] {
      assert Names(names) == {};
      NoAbsences(p, d);
    } else {
      var init, name := names[..|names| - 1], names[|names| - 1];
      LastEntry(names);
      assert Names(names) == Names(init) + {name};
      AbsencesAreASet(p, d, init);
      AbsenceIgnoresKeys(p, Absences(p, d, init), AbsenceSet(p, d, Names(init)), name);
      AbsenceExtendsSet(p, d, Names(init), name);
    }
  }

  lemma NoAbsences(p: Header, d: Draft)
    requires d.Draft?
    ensures AbsenceSet(p, d, {}) == d
  {
    hide KeyOf;
    assert GoneKeys(p, d.g, {}) == {} && GoneIds(p, d.g, {}) == {} && WithoutGone(p, d.g, {}) == d.g.edges;
    DelistedNone(d.g.lookups, d.g.edges);
    assert (map k | k in d.g.lookups.keys.Keys + {} ::
              if k in d.g.lookups.keys then d.g.lookups.keys[k] else "") == d.g.lookups.keys;
  }

  /** What an absence does, it does whatever the keys find. */
  lemma AbsenceIgnoresKeys(p: Header, a: Draft, b: Draft, name: RelId)
    requires LikeButKeys(a, b)
    ensures LikeButKeys(Absence(p, a, name), Absence(p, b, name))
  {
    hide KeyOf;
  }

  lemma AbsenceExtendsSet(p: Header, d: Draft, names: set<RelId>, name: RelId)
    requires d.Draft? && EdgesFiled(d.g.edges)
    ensures var a, b := Absence(p, AbsenceSet(p, d, names), name), AbsenceSet(p, d, names + {name});
            LikeButKeys(a, b) && (KeysToo(p, d.g) ==> a == b)
  {
    hide KeyOf, WithoutGone, LookupsWithoutGone, GoneKeys, GoneIds, Absence, EdgesFiled;
    var found := FindRelationship(d.g, name);
    if found.Some? && Gone(p, d.g.lookups, {name}, d.g.edges[found.value]) && name !in names {
      AbsenceStrikes(p, d, names, name);
    } else {
      AbsenceMisses(p, d, names, name);
    }
  }

  /** The absence names nothing, something dead, something elsewhere, or something already gone. */
  lemma AbsenceMisses(p: Header, d: Draft, names: set<RelId>, name: RelId)
    requires d.Draft? && EdgesFiled(d.g.edges)
    requires var found := FindRelationship(d.g, name);
             found.None? || !Gone(p, d.g.lookups, {name}, d.g.edges[found.value]) || name in names
    ensures AbsenceSet(p, d, names + {name}) == AbsenceSet(p, d, names)
    ensures Absence(p, AbsenceSet(p, d, names), name) == AbsenceSet(p, d, names)
  {
    hide KeyOf;
    forall e | e in d.g.edges
      ensures Gone(p, d.g.lookups, names + {name}, d.g.edges[e]) <==> Gone(p, d.g.lookups, names, d.g.edges[e])
    {
      assert d.g.edges[e].id == e;
    }
    assert WithoutGone(p, d.g, names + {name}) == WithoutGone(p, d.g, names);
    assert GoneKeys(p, d.g, names + {name}) == GoneKeys(p, d.g, names);
    assert GoneIds(p, d.g, names + {name}) == GoneIds(p, d.g, names);
    MissedAgain(p, d, names, name);
  }

  lemma MissedAgain(p: Header, d: Draft, names: set<RelId>, name: RelId)
    requires d.Draft? && EdgesFiled(d.g.edges)
    requires var found := FindRelationship(d.g, name);
             found.None? || !Gone(p, d.g.lookups, {name}, d.g.edges[found.value]) || name in names
    ensures Absence(p, AbsenceSet(p, d, names), name) == AbsenceSet(p, d, names)
  {
    hide KeyOf, GoneKeys;
    var a := AbsenceSet(p, d, names);
    var found := FindRelationship(a.g, name);
    if name != "" && found.Some? {
      var e := found.value;
      assert e in d.g.edges && d.g.edges[e].id == e && d.g.edges[e].relationship == name;
      assert a.g.edges[e].domain != p.domain || !Live(a.g.edges[e]);
    }
  }

  lemma AbsenceStrikes(p: Header, d: Draft, names: set<RelId>, name: RelId)
    requires d.Draft? && EdgesFiled(d.g.edges) && name !in names && FindRelationship(d.g, name).Some?
    requires Gone(p, d.g.lookups, {name}, d.g.edges[FindRelationship(d.g, name).value])
    ensures var a, b := Absence(p, AbsenceSet(p, d, names), name), AbsenceSet(p, d, names + {name});
            LikeButKeys(a, b) && (KeysToo(p, d.g) ==> a == b)
  {
    hide KeyOf, Gone, EdgesFiled, Enlist, Delist, LookupsWithoutGone;
    var a, id := AbsenceSet(p, d, names), FindRelationship(d.g, name).value;
    var more := names + {name};
    StruckAlone(p, d, names, name);
    StruckFound(p, d, names, name);
    assert GoneKeys(p, d.g, more) == GoneKeys(p, d.g, names) + {KeyOf(d.g.edges[id])};
    assert WithoutGone(p, d.g, more)
           == if p.mode == AuthoritativeSnapshot then a.g.edges - {id} else a.g.edges[id := RetiredEdge(d.g.edges[id])];
    StruckLookups(p, d, names, name);
  }

  lemma StruckAlone(p: Header, d: Draft, names: set<RelId>, name: RelId)
    requires d.Draft? && EdgesFiled(d.g.edges) && name !in names && FindRelationship(d.g, name).Some?
    requires Gone(p, d.g.lookups, {name}, d.g.edges[FindRelationship(d.g, name).value])
    ensures var id := FindRelationship(d.g, name).value;
            && !Gone(p, d.g.lookups, names, d.g.edges[id]) && name != "" && d.g.edges[id].id == id
            && d.g.edges[id].relationship == name && d.g.edges[id].domain == p.domain && Live(d.g.edges[id])
            && (forall e :: e in d.g.edges ==>
                  (Gone(p, d.g.lookups, names + {name}, d.g.edges[e]) <==>
                   Gone(p, d.g.lookups, names, d.g.edges[e]) || e == id))
  {
    assert forall e :: e in d.g.edges ==> d.g.edges[e].id == e;
  }

  /** What is struck now is still found after the other absences. */
  lemma StruckFound(p: Header, d: Draft, names: set<RelId>, name: RelId)
    requires d.Draft? && EdgesFiled(d.g.edges) && name !in names && FindRelationship(d.g, name).Some?
    ensures var a, id := AbsenceSet(p, d, names), FindRelationship(d.g, name).value;
            FindRelationship(a.g, name) == Some(id) && a.g.edges[id] == d.g.edges[id]
  {
    hide KeyOf, GoneKeys;
  }

  lemma StruckLookups(p: Header, d: Draft, names: set<RelId>, name: RelId)
    requires d.Draft? && EdgesFiled(d.g.edges) && name !in names && FindRelationship(d.g, name).Some?
    requires Gone(p, d.g.lookups, {name}, d.g.edges[FindRelationship(d.g, name).value])
    ensures var e := d.g.edges[FindRelationship(d.g, name).value];
            var before, after := LookupsWithoutGone(p, d.g, names), LookupsWithoutGone(p, d.g, names + {name});
            var struck := if p.mode == AuthoritativeSnapshot then Delist(before, e)
                          else Relist(before, e, RetiredEdge(e));
            struck.names == after.names && (KeysToo(p, d.g) ==> struck == after)
  {
    hide MakeKey, Gone, EdgesFiled, Enlist, Delist, LookupsWithoutGone;
    var id := FindRelationship(d.g, name).value;
    StruckAlone(p, d, names, name);
    assert GoneIds(p, d.g, names + {name}) == GoneIds(p, d.g, names) + {id};
    assert GoneKeys(p, d.g, names + {name}) == GoneKeys(p, d.g, names) + {KeyOf(d.g.edges[id])};
    if p.mode == AuthoritativeSnapshot {
      WithdrawnLookups(p, d.g, names, name, id);
    } else {
      RetiredLookups(p, d.g, names, name, id);
    }
  }

  lemma WithdrawnLookups(p: Header, g: Graph, names: set<RelId>, name: RelId, id: EdgeId)
    requires p.mode == AuthoritativeSnapshot && id in g.edges && g.edges[id].id == id
    requires GoneIds(p, g, names + {name}) == GoneIds(p, g, names) + {id}
    ensures Delist(LookupsWithoutGone(p, g, names), g.edges[id]) == LookupsWithoutGone(p, g, names + {name})
  {
    hide MakeKey, GoneIds, Delist, Delisted;
    DelistedOneMore(g.lookups, g.edges, GoneIds(p, g, names), id);
  }

  lemma RetiredLookups(p: Header, g: Graph, names: set<RelId>, name: RelId, id: EdgeId)
    requires p.mode != AuthoritativeSnapshot && FindRelationship(g, name) == Some(id) && g.edges[id].id == id
    requires GoneKeys(p, g, names + {name}) == GoneKeys(p, g, names) + {KeyOf(g.edges[id])}
    ensures var e := g.edges[id];
            var before, after := LookupsWithoutGone(p, g, names), LookupsWithoutGone(p, g, names + {name});
            var struck := Relist(before, e, RetiredEdge(e));
            struck.names == after.names && (KeysUnique(g.edges) ==> struck == after)
  {
    hide MakeKey, GoneKeys, Relist;
    var e := g.edges[id];
    var before := LookupsWithoutGone(p, g, names);
    RelistedName(before, e, RetiredEdge(e));
    assert before.names[name := id] == before.names;
    if KeysUnique(g.edges) {
      assert Holder(g.edges, KeyOf(e)) == Some(id);
      RelistedKey(before, e, RetiredEdge(e));
      assert before.keys[KeyOf(e) := id] == LookupsWithoutGone(p, g, names + {name}).keys;
    }
  }

  lemma RelistedKey(l: Lookups, e: Edge, e': Edge)
    requires KeyOf(e') == KeyOf(e) && e'.id == e.id
    ensures Relist(l, e, e').keys == l.keys[KeyOf(e) := e.id]
  {
    hide KeyOf;
  }

  // ---- The scope after the snapshot -----------------------------------------------------------

  /** The name a present entry ends up stored under: the one already on file, or the one it brings. */
  ghost function StoredName(env: Env, p: Header, edges: Edges, o: ObservedEdge): RelId {
    var found := Holder(edges, ObservedKey(p, o));
    if found.Some? then edges[found.value].relationship else ObservedName(env, p, o)
  }

  ghost predicate LiveIn(edges: Edges, domain: DomainId, e: EdgeId) {
    e in edges && edges[e].domain == domain && Live(edges[e])
  }

  predicate DeclaredAbsent(p: Publication, name: RelId) {
    name != "" && name in p.absences
  }

  /** A present entry that the same publication does not also declare absent. */
  ghost predicate Asserted(env: Env, p: Publication, edges: Edges, o: ObservedEdge) {
    o.present && !DeclaredAbsent(p, StoredName(env, p.head, edges, o))
  }

  /** The live edges of the scope are exactly the asserted entries, and all of them are current. */
  ghost predicate ScopeExact(env: Env, p: Publication, before: Edges, after: Edges) {
    && (forall e :: LiveIn(after, p.head.domain, e) ==>
          && after[e].lifecycle == Current
          && exists o :: o in p.edges && Asserted(env, p, before, o) && KeyOf(after[e]) == ObservedKey(p.head, o))
    && (forall o :: o in p.edges && Asserted(env, p, before, o) ==>
          exists e :: LiveIn(after, p.head.domain, e) && KeyOf(after[e]) == ObservedKey(p.head, o))
  }

  /** Every node of the scope was mentioned, or is retired and still carries a relationship. */
  ghost predicate NodesExact(domain: DomainId, ids: set<NodeId>, g: Graph) {
    forall n :: n in g.nodes && g.nodes[n].domain == domain && n !in ids ==>
      g.nodes[n].lifecycle == Retired && exists e :: e in g.edges && Touches(g.edges[e], n)
  }

  /** Whatever stands for a relationship that the publication mentions is found by its key. */
  ghost predicate KeysFound(p: Publication, g: Graph) {
    forall o :: o in p.edges ==> KeyListed(g, ObservedKey(p.head, o))
  }

  /** Whatever goes by a name that is declared absent is found by it. */
  ghost predicate AbsencesFound(p: Publication, g: Graph) {
    forall n :: n in p.absences ==> NameListed(g, n)
  }

  /** No two present entries are stored under one name that is declared absent. */
  ghost predicate AbsencesDiffer(env: Env, p: Publication, edges: Edges) {
    forall o, o' :: o in p.edges && o' in p.edges && o.present && o'.present && o != o'
                    && StoredName(env, p.head, edges, o) == StoredName(env, p.head, edges, o') ==>
      !DeclaredAbsent(p, StoredName(env, p.head, edges, o))
  }

  // ---- Where every key is found --------------------------------------------------------------------

  lemma PlacedKeysUnique(g: Graph, d0: Draft)
    requires OnlyNodes(g, d0) && KeysUnique(g.edges)
    ensures KeysUnique(d0.g.edges)
    ensures forall k :: Holder(d0.g.edges, k) == Holder(g.edges, k)
  {
    hide Tracks, MakeKey, KeyListed, NameListed, Live;
    assert forall e :: e in g.edges ==> Kept(g.edges, d0.g.edges, e) && KeyOf(g.edges[e]) == KeyOf(d0.g.edges[e]);
    forall k
      ensures Holder(d0.g.edges, k) == Holder(g.edges, k)
    {
      var a, b := Holder(d0.g.edges, k), Holder(g.edges, k);
      assert a.Some? ==> KeyOf(g.edges[a.value]) == k;
      assert b.Some? ==> KeyOf(d0.g.edges[b.value]) == k;
    }
  }

  lemma ListedIsHolder(g: Graph, key: EdgeKey)
    requires KeysUnique(g.edges) && KeyListed(g, key)
    ensures FindKey(g, key) == Holder(g.edges, key)
  {
    hide KeyOf;
  }

  /** Where keys are found, an entry is about the only edge of its key. */
  lemma EntryAlone(env: Env, p: Publication, g: Graph, d0: Draft, d: Draft, os: seq<ObservedEdge>, i: nat)
    requires EnteredFacts(env, p.head, g, d0, d, os) && KeysUnique(g.edges) && i < |os|
    requires KeyListed(g, ObservedKey(p.head, os[i]))
    ensures var o := os[i];
            var target := Target(env, p.head, d0.g, o);
            && (forall e :: e in d.g.edges && KeyOf(d.g.edges[e]) == ObservedKey(p.head, o) ==> Some(e) == target)
            && (o.present ==>
                  && target.Some? && target.value in d.g.edges && Reports(p.head, d.g.edges[target.value])
                  && KeyOf(d.g.edges[target.value]) == ObservedKey(p.head, o)
                  && d.g.edges[target.value].relationship == StoredName(env, p.head, g.edges, o))
            && (!o.present ==> forall e :: e in d.g.edges && KeyOf(d.g.edges[e]) == ObservedKey(p.head, o) ==>
                  !Live(d.g.edges[e]))
  {
    hide Tracks, KeyOf, ObservedKey, ObservedName, ObservedEdgeId, Pointed, NewcomersObserved, NewNamesDiffer,
         AgreeOutside, KeysOutside, NameListed, Live, KeysUnique;
    var o := os[i];
    PlacedKeysUnique(g, d0);
    ListedIsHolder(d0.g, ObservedKey(p.head, o));
    assert Settled(env, p.head, d0.g, d.g.edges, o);
    HolderIsOnly(d0.g.edges, ObservedKey(p.head, o));
    if Target(env, p.head, d0.g, o).Some? && Target(env, p.head, d0.g, o).value in d0.g.edges {
      KeptName(g, d0, Target(env, p.head, d0.g, o).value);
    }
  }

  lemma KeptName(g: Graph, d0: Draft, e: EdgeId)
    requires OnlyNodes(g, d0) && e in d0.g.edges
    ensures e in g.edges && g.edges[e].relationship == d0.g.edges[e].relationship
  {
    hide Tracks, KeyListed, NameListed, Live, KeyOf;
  }

  lemma HolderIsOnly(edges: Edges, key: EdgeKey)
    requires KeysUnique(edges)
    ensures forall e :: e in edges && KeyOf(edges[e]) == key ==> Holder(edges, key) == Some(e)
  {
    hide KeyOf;
  }

  lemma EnteredKeysUnique(env: Env, p: Publication, g: Graph, d0: Draft, d: Draft, os: seq<ObservedEdge>)
    requires EnteredFacts(env, p.head, g, d0, d, os) && KeysUnique(g.edges) && KeysFound(p, g)
    requires Rearranges(os, p.edges)
    ensures KeysUnique(d.g.edges)
  {
    hide Tracks, KeyOf, ObservedKey, Pointed, NewcomersObserved, NewNamesDiffer, Settled, KeyListed, NameListed, Live,
         KeysOutside, Rearranges;
    SameMembers(os, p.edges);
    PlacedKeysUnique(g, d0);
    forall a, b | a in d.g.edges && b in d.g.edges && KeyOf(d.g.edges[a]) == KeyOf(d.g.edges[b])
      ensures a == b
    {
      var key := KeyOf(d.g.edges[a]);
      if key in d.keys {
        var i :| 0 <= i < |os| && ObservedKey(p.head, os[i]) == key;
        EntryAlone(env, p, g, d0, d, os, i);
      }
    }
  }

  // ---- What replacement leaves ------------------------------------------------------------------------

  /** What the snapshot leaves live in its scope was live there, mentioned, and not struck by an absence. */
  lemma ReplacedEdges(p: Header, d: Draft, names: set<RelId>, e: EdgeId)
    requires d.Draft? && p.mode == AuthoritativeSnapshot && KeysUnique(d.g.edges)
    ensures var f := ReplaceScope(p, AbsenceSet(p, d, names)).g.edges;
            && (LiveIn(f, p.domain, e)
                <==> LiveIn(d.g.edges, p.domain, e) && !Gone(p, d.g.lookups, names, d.g.edges[e])
                     && KeyOf(d.g.edges[e]) in d.keys)
            && (e in f ==> e in d.g.edges && f[e] == d.g.edges[e])
  {
    hide MakeKey, KeptNodes, LookupsWithoutGone, Delisted;
    var a := AbsenceSet(p, d, names);
    if LiveIn(d.g.edges, p.domain, e) && !Gone(p, d.g.lookups, names, d.g.edges[e]) {
      assert e in a.g.edges && a.g.edges[e] == d.g.edges[e];
      assert KeyOf(d.g.edges[e]) !in GoneKeys(p, d.g, names);
    }
  }

  lemma KeyDomain(e: Edge)
    ensures KeyOf(e).domain == e.domain
  {
  }

  /** A live mentioned relationship is the one that a present entry reports. */
  lemma MentionedIsReported(env: Env, p: Publication, g: Graph, d0: Draft, d: Draft, os: seq<ObservedEdge>, e: EdgeId)
    returns (o: ObservedEdge)
    requires EnteredFacts(env, p.head, g, d0, d, os) && KeysUnique(g.edges) && KeysFound(p, g)
    requires Rearranges(os, p.edges) && e in d.g.edges && Live(d.g.edges[e]) && KeyOf(d.g.edges[e]) in d.keys
    ensures o in os && o in p.edges && o.present && ObservedKey(p.head, o) == KeyOf(d.g.edges[e])
    ensures Target(env, p.head, d0.g, o) == Some(e) && Reports(p.head, d.g.edges[e])
    ensures d.g.edges[e].relationship == StoredName(env, p.head, g.edges, o)
    ensures d.g.edges[e].domain == p.head.domain
  {
    hide Tracks, MakeKey, Pointed, NewcomersObserved, NewNamesDiffer, Settled, KeyListed, NameListed, KeysOutside,
         OnlyNodes, AgreeOutside, KeysUnique, Rearranges;
    SameMembers(os, p.edges);
    var i :| 0 <= i < |os| && ObservedKey(p.head, os[i]) == KeyOf(d.g.edges[e]);
    o := os[i];
    EntryAlone(env, p, g, d0, d, os, i);
    KeyDomain(d.g.edges[e]);
    ObservedDomain(p.head, o);
  }

  lemma ObservedDomain(p: Header, o: ObservedEdge)
    ensures ObservedKey(p, o).domain == p.domain
  {
  }

  /** A declared absence strikes the only entry stored under its name. */
  lemma OnlyReportStruck(env: Env, p: Publication, g: Graph, d0: Draft, d: Draft, os: seq<ObservedEdge>, e: EdgeId)
    requires EnteredFacts(env, p.head, g, d0, d, os) && KeysUnique(g.edges) && KeysFound(p, g) && AbsencesFound(p, g)
    requires p.head.mode == AuthoritativeSnapshot && Rearranges(os, p.edges) && AbsencesDiffer(env, p, g.edges)
    requires e in d.g.edges && Live(d.g.edges[e]) && KeyOf(d.g.edges[e]) in d.keys
    requires DeclaredAbsent(p, d.g.edges[e].relationship)
    ensures Gone(p.head, d.g.lookups, Names(p.absences), d.g.edges[e])
  {
    hide Shaped, KeyOf, NewcomersObserved, NewNamesDiffer, AllSettled, KeyListed, NameListed, KeysUnique, Rearranges,
         StoredName, KeysFound, Target, ObservedKey, Origins, DeadKept, UnmentionedKept;
    var o := MentionedIsReported(env, p, g, d0, d, os, e);
    var name := d.g.edges[e].relationship;
    assert Tended(d0.g, d.g.edges, name);
    var found := FindRelationship(d.g, name).value;
    if found != e {
      var o' := MentionedIsReported(env, p, g, d0, d, os, found);
    }
    ShapedEdges(d.g);
  }

  lemma SnapshotScopeExact(env: Env, p: Publication, g: Graph, d0: Draft, d: Draft, os: seq<ObservedEdge>)
    requires EnteredFacts(env, p.head, g, d0, d, os) && KeysUnique(g.edges) && KeysFound(p, g) && AbsencesFound(p, g)
    requires p.head.mode == AuthoritativeSnapshot && Rearranges(os, p.edges)
    ensures AbsencesDiffer(env, p, g.edges) ==>
              ScopeExact(env, p, g.edges, ReplaceScope(p.head, AbsenceSet(p.head, d, Names(p.absences))).g.edges)
  {
    hide ReplaceScope, AbsenceSet, StoredName, KeyOf, KeysUnique, KeysFound, AbsencesFound, Rearranges, OnlyNodes,
         Pointed, NewcomersObserved, NewNamesDiffer, AllSettled, Tracks, AbsencesDiffer, Target, ObservedKey;
    var names := Names(p.absences);
    var f := ReplaceScope(p.head, AbsenceSet(p.head, d, names)).g.edges;
    SameMembers(os, p.edges);
    EnteredKeysUnique(env, p, g, d0, d, os);
    if AbsencesDiffer(env, p, g.edges) {
      forall e | LiveIn(f, p.head.domain, e)
        ensures f[e].lifecycle == Current
        ensures exists o :: o in p.edges && Asserted(env, p, g.edges, o) && KeyOf(f[e]) == ObservedKey(p.head, o)
      {
        ReplacedEdges(p.head, d, names, e);
        var o := MentionedIsReported(env, p, g, d0, d, os, e);
        if DeclaredAbsent(p, d.g.edges[e].relationship) {
          OnlyReportStruck(env, p, g, d0, d, os, e);
        }
      }
      forall o | o in p.edges && Asserted(env, p, g.edges, o)
        ensures exists e :: LiveIn(f, p.head.domain, e) && KeyOf(f[e]) == ObservedKey(p.head, o)
      {
        AssertedStays(env, p, g, d0, d, os, o);
      }
    }
  }

  /** What an asserted entry reports is still live in the scope at the end. */
  lemma AssertedStays(env: Env, p: Publication, g: Graph, d0: Draft, d: Draft, os: seq<ObservedEdge>, o: ObservedEdge)
    requires EnteredFacts(env, p.head, g, d0, d, os) && KeysUnique(g.edges) && KeysFound(p, g)
    requires p.head.mode == AuthoritativeSnapshot && Rearranges(os, p.edges) && o in p.edges
    requires Asserted(env, p, g.edges, o)
    ensures var f := ReplaceScope(p.head, AbsenceSet(p.head, d, Names(p.absences))).g.edges;
            exists e :: LiveIn(f, p.head.domain, e) && KeyOf(f[e]) == ObservedKey(p.head, o)
  {
    hide ReplaceScope, AbsenceSet, StoredName, KeyOf, KeysUnique, Rearranges, Target, ObservedKey, OnlyNodes,
         Pointed, NewcomersObserved, NewNamesDiffer, KeysOutside, AgreeOutside, Tracks, Settled, KeyListed;
    SameMembers(os, p.edges);
    EnteredKeysUnique(env, p, g, d0, d, os);
    var i :| 0 <= i < |os| && os[i] == o;
    EntryAlone(env, p, g, d0, d, os, i);
    var e := Target(env, p.head, d0.g, o).value;
    KeyDomain(d.g.edges[e]);
    ObservedDomain(p.head, o);
    assert ObservedKey(p.head, o) in ObservedKeys(p.head, os);
    ReplacedEdges(p.head, d, Names(p.absences), e);
  }

  /** Of two reports under one name that is declared absent, one is left although it is not asserted. */
  lemma SecondReportLeft(env: Env, p: Publication, g: Graph, d0: Draft, d: Draft, os: seq<ObservedEdge>,
                         o: ObservedEdge, o': ObservedEdge)
    requires EnteredFacts(env, p.head, g, d0, d, os) && KeysUnique(g.edges) && KeysFound(p, g)
    requires p.head.mode == AuthoritativeSnapshot && Rearranges(os, p.edges)
    requires o in p.edges && o' in p.edges && o.present && o'.present && o != o'
    requires StoredName(env, p.head, g.edges, o) == StoredName(env, p.head, g.edges, o')
    requires DeclaredAbsent(p, StoredName(env, p.head, g.edges, o))
    ensures !ScopeExact(env, p, g.edges, ReplaceScope(p.head, AbsenceSet(p.head, d, Names(p.absences))).g.edges)
  {
    hide ReplaceScope, AbsenceSet, StoredName, KeyOf, KeysUnique, Rearranges, Target, ObservedKey, OnlyNodes, Pointed,
         NewcomersObserved, NewNamesDiffer, KeysOutside, AgreeOutside, Settled, KeyListed, Shaped, Origins, DeadKept,
         UnmentionedKept;
    var names := Names(p.absences);
    var f := ReplaceScope(p.head, AbsenceSet(p.head, d, names)).g.edges;
    SameMembers(os, p.edges);
    EnteredKeysUnique(env, p, g, d0, d, os);
    ShapedEdges(d.g);
    var i :| 0 <= i < |os| && os[i] == o;
    var j :| 0 <= j < |os| && os[j] == o';
    EntryAlone(env, p, g, d0, d, os, i);
    EntryAlone(env, p, g, d0, d, os, j);
    var a, b := Target(env, p.head, d0.g, o).value, Target(env, p.head, d0.g, o').value;
    assert ObservedKey(p.head, o) != ObservedKey(p.head, o');
    assert a != b && d.g.edges[a].id == a && d.g.edges[b].id == b;
    var (left, k) := if Gone(p.head, d.g.lookups, names, d.g.edges[a]) then (b, j) else (a, i);
    KeyDomain(d.g.edges[left]);
    ObservedDomain(p.head, os[k]);
    assert ObservedKey(p.head, os[k]) in ObservedKeys(p.head, os);
    ReplacedEdges(p.head, d, names, left);
    assert LiveIn(f, p.head.domain, left) && KeyOf(f[left]) == ObservedKey(p.head, os[k]);
    forall o'' | o'' in p.edges && ObservedKey(p.head, o'') == ObservedKey(p.head, os[k])
      ensures o'' == os[k]
    {
      var m :| 0 <= m < |os| && os[m] == o'';
    }
    assert !Asserted(env, p, g.edges, os[k]);
  }

  // ---- The snapshot as a whole ------------------------------------------------------------------------------

  lemma CommittedIsGuarded(s: State, env: Env, c: Context, p: Publication, nodes: seq<ObservedNode>,
                           edges: seq<ObservedEdge>, persisted: bool)
    requires Publish(s, env, c, p, nodes, edges, persisted).verdict == Committed
    ensures p.head.domain in s.graph.domains && Reconciled(env, c, p, s.graph, nodes, edges).Draft?
    ensures var after := Publish(s, env, c, p, nodes, edges, persisted).state.graph;
            && after == Reconciled(env, c, p, s.graph, nodes, edges).g.(generation := after.generation)
            && ValidTopology(env, after)
  {
    hide Reconciled, ValidTopology, CheckAuthority, WellFormed, Record;
  }

  /** Where a draft was not rejected, it is the entries, then the absences as a set, then the replacement. */
  lemma ReconciledInSteps(env: Env, c: Context, p: Publication, g: Graph, nodes: seq<ObservedNode>,
                          edges: seq<ObservedEdge>)
    requires Shaped(g) && p.head.domain in g.domains && Reconciled(env, c, p, g, nodes, edges).Draft?
    ensures var d, r := Entered(env, c, p, g, nodes, edges), Reconciled(env, c, p, g, nodes, edges);
            && d.Draft? && Shaped(d.g)
            && EnteredFacts(env, p.head, g, Placed(env, c, p, g, nodes), d, edges)
            && (p.head.mode == AuthoritativeSnapshot ==>
                  r == ReplaceScope(p.head, AbsenceSet(p.head, d, Names(p.absences))))
            && (p.head.mode != AuthoritativeSnapshot ==> LikeButKeys(r, AbsenceSet(p.head, d, Names(p.absences))))
            && (p.head.mode != AuthoritativeSnapshot && KeysUnique(d.g.edges) ==>
                  r == AbsenceSet(p.head, d, Names(p.absences)))
  {
    hide Tracks, Shaped, NodeEntries, EdgeEntries, Absences, AbsenceSet, ReplaceScope, AllSettled, OnlyNodes, Pointed,
         NewcomersObserved, NewNamesDiffer, KeysUnique, EdgesFiled;
    var d := Entered(env, c, p, g, nodes, edges);
    EnteredHolds(env, c, p, g, nodes, edges);
    TracksFacts(g, d);
    ShapedEdges(d.g);
    AbsencesAreASet(p.head, d, p.absences);
  }

  /** A committed authoritative snapshot leaves its scope holding exactly what it asserted, if and only if no two of
      its entries are stored under one name that it declares absent. */
  lemma SnapshotIsExact(s: State, env: Env, c: Context, p: Publication, nodes: seq<ObservedNode>,
                        edges: seq<ObservedEdge>, persisted: bool)
    requires Structured(s.graph) && KeysFound(p, s.graph) && AbsencesFound(p, s.graph)
    requires p.head.mode == AuthoritativeSnapshot && Rearranges(nodes, p.nodes) && Rearranges(edges, p.edges)
    requires Publish(s, env, c, p, nodes, edges, persisted).verdict == Committed
    ensures ScopeExact(env, p, s.graph.edges, Publish(s, env, c, p, nodes, edges, persisted).state.graph.edges)
            <==> AbsencesDiffer(env, p, s.graph.edges)
  {
    hide ScopeExact, Publish, Reconciled, Shaped, KeysUnique, KeysFound, AbsencesFound, EnteredFacts, ReplaceScope,
         AbsenceSet, ValidTopology, StoredName, Rearranges;
    var g := s.graph;
    CommittedIsGuarded(s, env, c, p, nodes, edges, persisted);
    ReconciledInSteps(env, c, p, g, nodes, edges);
    var d0, d := Placed(env, c, p, g, nodes), Entered(env, c, p, g, nodes, edges);
    SnapshotScopeExact(env, p, g, d0, d, edges);
    if !AbsencesDiffer(env, p, g.edges) {
      var o, o' :| o in p.edges && o' in p.edges && o.present && o'.present && o != o'
                   && StoredName(env, p.head, g.edges, o) == StoredName(env, p.head, g.edges, o')
                   && DeclaredAbsent(p, StoredName(env, p.head, g.edges, o));
      SecondReportLeft(env, p, g, d0, d, edges, o, o');
    }
  }

  lemma KeptNodesExact(p: Header, d: Draft)
    requires d.Draft? && NodesFiled(d.g.nodes)
    ensures NodesExact(p.domain, d.nodeIds, ReplaceScope(p, d).g)
  {
    hide Delisted, LeftOut;
  }

  /** Whatever the lookups find, a committed snapshot leaves of the unmentioned nodes of its scope only those that
      still carry a relationship, and these are retired. */
  lemma SnapshotNodesExact(s: State, env: Env, c: Context, p: Publication, nodes: seq<ObservedNode>,
                           edges: seq<ObservedEdge>, persisted: bool)
    requires Shaped(s.graph) && p.head.mode == AuthoritativeSnapshot && Rearranges(nodes, p.nodes)
    requires Publish(s, env, c, p, nodes, edges, persisted).verdict == Committed
    ensures NodesExact(p.head.domain, ObservedIds(env, p.nodes),
                       Publish(s, env, c, p, nodes, edges, persisted).state.graph)
  {
    hide NodesExact, Publish, NodeEntries, EdgeEntries, Absences, Shaped, Tracks, ReplaceScope, AbsenceSet, Settled,
         AgreeOutside, KeysOutside, ValidTopology, EnteredFacts, NodesFiled, Rearranges, EdgesFiled;
    var g := s.graph;
    CommittedIsGuarded(s, env, c, p, nodes, edges, persisted);
    ReconciledInSteps(env, c, p, g, nodes, edges);
    var d0, d := Placed(env, c, p, g, nodes), Entered(env, c, p, g, nodes, edges);
    EnteredHolds(env, c, p, g, nodes, edges);
    NodeEntriesIds(env, c, p.head, FirstDraft(g), nodes);
    EdgeEntriesSettle(env, c, p.head, d0, edges);
    SameMembers(nodes, p.nodes);
    assert ObservedIds(env, nodes) == ObservedIds(env, p.nodes);
    var a := AbsenceSet(p.head, d, Names(p.absences));
    ShapedEdges(d.g);
    SameNodes(p.head, d, Names(p.absences));
    KeptNodesExact(p.head, a);
    assert a.nodeIds == ObservedIds(env, p.nodes);
    assert NodesExact(p.head.domain, a.nodeIds, ReplaceScope(p.head, a).g);
    NodesExactAnyGeneration(p.head.domain, ObservedIds(env, p.nodes), ReplaceScope(p.head, a).g,
                            Publish(s, env, c, p, nodes, edges, persisted).state.graph);
  }

  lemma SameNodes(p: Header, d: Draft, names: set<RelId>)
    requires d.Draft?
    ensures AbsenceSet(p, d, names).g.nodes == d.g.nodes && AbsenceSet(p, d, names).nodeIds == d.nodeIds
  {
  }

  lemma NodesExactAnyGeneration(domain: DomainId, ids: set<NodeId>, g: Graph, out: Graph)
    requires NodesExact(domain, ids, g) && out.nodes == g.nodes && out.edges == g.edges
    ensures NodesExact(domain, ids, out)
  {
  }
}
