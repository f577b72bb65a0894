/** The order in which a publication lists its entries does not matter. */
module PermutationLaws {
  import opened Types
  import opened Graphs
  import opened Authority
  import opened Mutations
  import opened Reconcile
  import opened DraftLaws
  import opened PublishLaws
  import opened FrameLaws
  import opened DraftNames
  import opened SnapshotLaws

  // ---- Rendered keys --------------------------------------------------------------------

  function RelationName(r: Relation): string {
    match r
    case UnknownRelation => "UNKNOWN"
    case ConnectedTo => "CONNECTED_TO"
    case AttachedTo => "ATTACHED_TO"
    case Contains => "CONTAINS"
    case MemberOf => "MEMBER_OF"
    case UplinkTo => "UPLINK_TO"
    case DownlinkTo => "DOWNLINK_TO"
    case PeersWith => "PEERS_WITH"
    case BackedBy => "BACKED_BY"
    case TunneledOver => "TUNNELED_OVER"
    case LogicallyConnectedTo => "LOGICALLY_CONNECTED_TO"
    case HostedBy => "HOSTED_BY"
    case PresentsEndpoint => "PRESENTS_ENDPOINT"
    case FabricMembership => "FABRIC_MEMBERSHIP"
  }

  /** Length and first letter tell the relation names apart. */
  function NameMark(r: Relation): (m: (nat, char))
    ensures |RelationName(r)| == m.0 > 0 && RelationName(r)[0] == m.1
    ensures '|' !in RelationName(r)
  {
    match r
    case UnknownRelation => (7, 'U')
    case ConnectedTo => (12, 'C')
    case AttachedTo => (11, 'A')
    case Contains => (8, 'C')
    case MemberOf => (9, 'M')
    case UplinkTo => (9, 'U')
    case DownlinkTo => (11, 'D')
    case PeersWith => (10, 'P')
    case BackedBy => (9, 'B')
    case TunneledOver => (13, 'T')
    case LogicallyConnectedTo => (22, 'L')
    case HostedBy => (9, 'H')
    case PresentsEndpoint => (17, 'P')
    case FabricMembership => (17, 'F')
  }

  lemma NamesDiffer(r: Relation, q: Relation)
    requires RelationName(r) == RelationName(q)
    ensures r == q
  {
    hide RelationName;
    var _ := NameMark(r);
    var _ := NameMark(q);
    assert NameMark(r) == NameMark(q);
  }

  function Render(k: EdgeKey): string {
    RelationName(k.relation) + "|" + (k.first + "|" + (k.second + "|" + k.domain))
  }

  lemma CutAtBar(a: string, b: string, c: string, d: string)
    requires '|' !in a && '|' !in c && a + "|" + b == c + "|" + d
    ensures a == c && b == d
  {
    var s := a + "|" + b;
    assert s[|a|] == '|' && s[|c|] == '|';
    assert a == s[..|a|] && c == s[..|c|] && b == s[|a| + 1..] && d == s[|c| + 1..];
  }

  predicate CanonicalKey(k: EdgeKey) {
    '|' !in k.first && '|' !in k.second
  }

  /** Canonical identifiers never contain the separator, so a rendered key names one key. */
  lemma RenderInjective(j: EdgeKey, k: EdgeKey)
    requires CanonicalKey(j) && CanonicalKey(k) && Render(j) == Render(k)
    ensures j == k
  {
    hide RelationName;
    var _ := NameMark(j.relation);
    var _ := NameMark(k.relation);
    CutAtBar(RelationName(j.relation), j.first + "|" + (j.second + "|" + j.domain),
             RelationName(k.relation), k.first + "|" + (k.second + "|" + k.domain));
    CutAtBar(j.first, j.second + "|" + j.domain, k.first, k.second + "|" + k.domain);
    CutAtBar(j.second, j.domain, k.second, k.domain);
    NamesDiffer(j.relation, k.relation);
  }

  // ---- Orders ------------------------------------------------------------------------------

  ghost predicate InOrder<T>(xs: seq<T>, key: T -> string) {
    forall i, j :: 0 <= i < j < |xs| ==> !Less(key(xs[j]), key(xs[i]))
  }

  ghost predicate Distinct<T, U>(xs: seq<T>, f: T -> U) {
    forall i, j :: 0 <= i < j < |xs| ==> f(xs[i]) != f(xs[j])
  }

  lemma DropLast<T>(xs: seq<T>, ys: seq<T>)
    requires Rearranges(xs, ys) && xs != [] && ys != [] && xs[|xs| - 1] == ys[|ys| - 1]
    ensures Rearranges(xs[..|xs| - 1], ys[..|ys| - 1])
  {
    assert xs == xs[..|xs| - 1] + [xs[|xs| - 1]] && ys == ys[..|ys| - 1] + [ys[|ys| - 1]];
    assert multiset(xs[..|xs| - 1]) == multiset(xs) - multiset{xs[|xs| - 1]};
    assert multiset(ys[..|ys| - 1]) == multiset(ys) - multiset{ys[|ys| - 1]};
  }

  lemma SameLength<T>(xs: seq<T>, ys: seq<T>)
    requires Rearranges(xs, ys)
    ensures |xs| == |ys|
  {
    assert |multiset(xs)| == |xs| && |multiset(ys)| == |ys|;
  }

  /** There is only one way to sort entries whose keys are distinct. */
  lemma {:induction false} SortedUnique<T>(xs: seq<T>, ys: seq<T>, key: T -> string)
    requires Rearranges(xs, ys) && InOrder(xs, key) && InOrder(ys, key) && Distinct(xs, key) && Distinct(ys, key)
    ensures xs == ys
  {
    SameLength(xs, ys);
    if xs != [] {
      var m := |xs| - 1;
      RearrangedIn(xs, ys, m);
      RearrangedIn(ys, xs, m);
      var j :| 0 <= j < |ys| && ys[j] == xs[m];
      var i :| 0 <= i < |xs| && xs[i] == ys[m];
      LessTotal(key(xs[m]), key(ys[m]));
      assert j == m;
      DropLast(xs, ys);
      SortedUnique(xs[..m], ys[..m], key);
      assert xs == xs[..m] + [xs[m]] && ys == ys[..m] + [ys[m]];
    }
  }

  ghost function Image<T, U>(xs: seq<T>, f: T -> U): set<U> {
    set x | x in xs :: f(x)
  }

  lemma DistinctLast<T, U>(xs: seq<T>, f: T -> U)
    requires xs != []
    ensures Distinct(xs, f) <==> Distinct(xs[..|xs| - 1], f) && f(xs[|xs| - 1]) !in Image(xs[..|xs| - 1], f)
  {
    var init, x := xs[..|xs| - 1], xs[|xs| - 1];
    if f(x) in Image(init, f) {
      var y :| y in init && f(y) == f(x);
      var i :| 0 <= i < |init| && init[i] == y;
      assert f(xs[i]) == f(xs[|init|]);
    } else {
      assert forall i :: 0 <= i < |init| ==> init[i] in init && f(xs[i]) in Image(init, f);
    }
  }

  lemma {:induction false} DistinctCounts<T, U>(xs: seq<T>, f: T -> U)
    ensures |Image(xs, f)| <= |xs|
    ensures |Image(xs, f)| == |xs| <==> Distinct(xs, f)
  {
    hide Distinct;
    if xs == [] {
      assert Image(xs, f) == {};
      assert Distinct(xs, f) by { DistinctEmpty(f); }
    } else {
      var init, x := xs[..|xs| - 1], xs[|xs| - 1];
      DistinctCounts(init, f);
      DistinctLast(xs, f);
      LastEntry(xs);
      assert Image(xs, f) == Image(init, f) + {f(x)};
      if f(x) in Image(init, f) {
        assert Image(xs, f) == Image(init, f);
      }
    }
  }

  lemma DistinctEmpty<T, U>(f: T -> U)
    ensures Distinct([], f)
  {
  }

  lemma DistinctRearranged<T, U>(xs: seq<T>, ys: seq<T>, f: T -> U)
    requires Rearranges(xs, ys)
    ensures Distinct(xs, f) <==> Distinct(ys, f)
  {
    hide Distinct;
    DistinctCounts(xs, f);
    DistinctCounts(ys, f);
    SameMembers(xs, ys);
    SameLength(xs, ys);
    assert Image(xs, f) == Image(ys, f);
  }

  // ---- Nodes: entries that only say "absent" commute with everything ---------------------------

  function PresentOnly(os: seq<ObservedNode>): seq<ObservedNode> {
    if os == [] then []
    else
      var init, o := PresentOnly(os[..|os| - 1]), os[|os| - 1];
      if o.present then init + [o] else init
  }

  lemma {:induction false} PresentOnlyMembers(os: seq<ObservedNode>)
    ensures forall o :: o in PresentOnly(os) <==> o in os && o.present
    ensures forall o :: multiset(PresentOnly(os))[o] == if o.present then multiset(os)[o] else 0
  {
    if os != [] {
      PresentOnlyMembers(os[..|os| - 1]);
      LastEntry(os);
      assert os == os[..|os| - 1] + [os[|os| - 1]];
    }
  }

  lemma {:induction false} PresentOnlyInOrder(os: seq<ObservedNode>, key: ObservedNode -> string)
    requires InOrder(os, key)
    ensures InOrder(PresentOnly(os), key)
  {
    if os != [] {
      var init, o := os[..|os| - 1], os[|os| - 1];
      PresentOnlyInOrder(init, key);
      PresentOnlyMembers(init);
      forall x | x in PresentOnly(init)
        ensures !Less(key(o), key(x))
      {
        var i :| 0 <= i < |init| && init[i] == x;
        assert os[i] == x;
      }
    }
  }

  predicate Admissible(p: Header, o: ObservedNode) {
    (o.domain == "" || o.domain == p.domain) && o.nodeClass != UnknownNodeClass
        && (o.present || p.mode != PartialObservation)
  }

  /** An entry reads the mentioned identifiers only to refuse a repetition. */
  lemma NodeEntryIgnoresOtherIds(env: Env, c: Context, p: Header, d: Draft, o: ObservedNode, ids: set<NodeId>)
    requires d.Draft? && d.nodeIds <= ids && o.present
    ensures NodeEntry(env, c, p, d.(nodeIds := ids), o).Draft?
            <==> Admissible(p, o) && ObservedId(env, o) !in ids && NodeEntry(env, c, p, d, o).Draft?
    ensures NodeEntry(env, c, p, d.(nodeIds := ids), o).Draft? ==>
              NodeEntry(env, c, p, d.(nodeIds := ids), o)
              == NodeEntry(env, c, p, d, o).(nodeIds := ids + {ObservedId(env, o)})
  {
  }

  lemma NodeEntryAbsent(env: Env, c: Context, p: Header, d: Draft, o: ObservedNode)
    requires d.Draft? && !o.present
    ensures NodeEntry(env, c, p, d, o).Draft? <==> Admissible(p, o) && ObservedId(env, o) !in d.nodeIds
    ensures NodeEntry(env, c, p, d, o).Draft? ==>
        NodeEntry(env, c, p, d, o) == d.(nodeIds := d.nodeIds + {ObservedId(env, o)})
  {
  }

  ghost predicate AllAdmissible(p: Header, os: seq<ObservedNode>) {
    forall o :: o in os ==> Admissible(p, o)
  }

  /** The node phase is the phase over the present entries, plus the mention of every identifier. */
  lemma {:induction false} NodeEntriesFilter(env: Env, c: Context, p: Header, d: Draft, os: seq<ObservedNode>)
    requires d.Draft? && d.nodeIds == {}
    ensures NodeEntries(env, c, p, d, os).Draft?
            <==> AllAdmissible(p, os) && Distinct(os, o => ObservedId(env, o))
                 && NodeEntries(env, c, p, d, PresentOnly(os)).Draft?
    ensures NodeEntries(env, c, p, d, os).Draft? ==>
              NodeEntries(env, c, p, d, os)
              == NodeEntries(env, c, p, d, PresentOnly(os)).(nodeIds := ObservedIds(env, os))
  {
    hide NodeEntry, Distinct, Admissible;
    var id := o => ObservedId(env, o);
    if os == [] {
      DistinctEmpty<ObservedNode, NodeId>(id);
      assert ObservedIds(env, os) == {};
    } else {
      var init, o := os[..|os| - 1], os[|os| - 1];
      NodeEntriesFilter(env, c, p, d, init);
      DistinctLast(os, id);
      LastEntry(os);
      assert Image(init, id) == ObservedIds(env, init);
      assert ObservedIds(env, os) == ObservedIds(env, init) + {ObservedId(env, o)};
      assert AllAdmissible(p, os) <==> AllAdmissible(p, init) && Admissible(p, o);
      var before, core := NodeEntries(env, c, p, d, init), NodeEntries(env, c, p, d, PresentOnly(init));
      if o.present {
        assert PresentOnly(os)[..|PresentOnly(os)| - 1] == PresentOnly(init);
        if core.Draft? {
          NodeEntriesIds(env, c, p, d, PresentOnly(init));
          PresentOnlyMembers(init);
          assert core.nodeIds <= ObservedIds(env, init);
          NodeEntryIgnoresOtherIds(env, c, p, core, o, ObservedIds(env, init));
        }
      } else if before.Draft? {
        NodeEntryAbsent(env, c, p, before, o);
      }
    }
  }

  lemma {:induction false} EntitiesDistinct(env: Env, c: Context, p: Header, d: Draft, os: seq<ObservedNode>)
    requires d.Draft? && (forall o :: o in os ==> o.present) && NodeEntries(env, c, p, d, os).Draft?
    ensures Distinct(os, (o: ObservedNode) => o.entity)
    ensures NodeEntries(env, c, p, d, os).entities == d.entities + Image(os, (o: ObservedNode) => o.entity)
  {
    hide Lookup, NodeSettled, FindEntity;
    var f := (o: ObservedNode) => o.entity;
    if os == [] {
      assert Image(os, f) == {};
    } else {
      var init, o := os[..|os| - 1], os[|os| - 1];
      EntitiesDistinct(env, c, p, d, init);
      DistinctLast(os, f);
      LastEntry(os);
      assert Image(os, f) == Image(init, f) + {f(o)};
    }
  }

  ghost predicate Alike(a: Draft, b: Draft) {
    (a.Rejected? && b.Rejected?) || a == b
  }

  lemma PresentEntriesAlike(env: Env, c: Context, p: Header, d: Draft, xs: seq<ObservedNode>, ys: seq<ObservedNode>)
    requires d.Draft? && Rearranges(xs, ys) && (forall o :: o in xs ==> o.present)
    requires InOrder(xs, (o: ObservedNode) => o.entity) && InOrder(ys, (o: ObservedNode) => o.entity)
    ensures Alike(NodeEntries(env, c, p, d, xs), NodeEntries(env, c, p, d, ys))
  {
    hide NodeEntries, InOrder, Distinct;
    var f := (o: ObservedNode) => o.entity;
    SameMembers(xs, ys);
    if NodeEntries(env, c, p, d, xs).Draft? || NodeEntries(env, c, p, d, ys).Draft? {
      if NodeEntries(env, c, p, d, xs).Draft? {
        EntitiesDistinct(env, c, p, d, xs);
      } else {
        EntitiesDistinct(env, c, p, d, ys);
      }
      DistinctRearranged(xs, ys, f);
      SortedUnique(xs, ys, f);
    }
  }

  lemma NodePhaseAlike(env: Env, c: Context, p: Header, d: Draft, xs: seq<ObservedNode>, ys: seq<ObservedNode>)
    requires d.Draft? && d.nodeIds == {} && Rearranges(xs, ys)
    requires InOrder(xs, (o: ObservedNode) => o.entity) && InOrder(ys, (o: ObservedNode) => o.entity)
    ensures Alike(NodeEntries(env, c, p, d, xs), NodeEntries(env, c, p, d, ys))
  {
    hide NodeEntries, InOrder, Distinct, Admissible;
    var f := (o: ObservedNode) => o.entity;
    NodeEntriesFilter(env, c, p, d, xs);
    NodeEntriesFilter(env, c, p, d, ys);
    SameMembers(xs, ys);
    assert AllAdmissible(p, xs) <==> AllAdmissible(p, ys);
    assert ObservedIds(env, xs) == ObservedIds(env, ys);
    DistinctRearranged(xs, ys, o => ObservedId(env, o));
    PresentOnlyMembers(xs);
    PresentOnlyMembers(ys);
    assert multiset(PresentOnly(xs)) == multiset(PresentOnly(ys));
    PresentOnlyInOrder(xs, f);
    PresentOnlyInOrder(ys, f);
    PresentEntriesAlike(env, c, p, d, PresentOnly(xs), PresentOnly(ys));
  }

  // ---- Edges ---------------------------------------------------------------------------------------

  function RawKey(o: ObservedEdge): EdgeKey {
    MakeKey(o.relation, o.from, o.to, o.domain)
  }

  function EdgeOrder(o: ObservedEdge): string {
    Render(RawKey(o))
  }

  lemma EdgeEntryKey(env: Env, c: Context, p: Header, d: Draft, o: ObservedEdge)
    requires d.Draft? && EdgeEntry(env, c, p, d, o).Draft?
    ensures ObservedKey(p, o) !in d.keys && EdgeEntry(env, c, p, d, o).keys == d.keys + {ObservedKey(p, o)}
  {
    hide ValidateCandidate, SameStatement, MakeKey, ObservedCandidate, Enlist, Delist;
  }

  lemma {:induction false} KeysDistinct(env: Env, c: Context, p: Header, d: Draft, os: seq<ObservedEdge>)
    requires d.Draft? && EdgeEntries(env, c, p, d, os).Draft?
    ensures Distinct(os, o => ObservedKey(p, o))
    ensures EdgeEntries(env, c, p, d, os).keys == d.keys + Image(os, o => ObservedKey(p, o))
  {
    hide EdgeEntry;
    var f := o => ObservedKey(p, o);
    if os == [] {
      assert Image(os, f) == {};
    } else {
      var init, o := os[..|os| - 1], os[|os| - 1];
      KeysDistinct(env, c, p, d, init);
      EdgeEntryKey(env, c, p, EdgeEntries(env, c, p, d, init), o);
      DistinctLast(os, f);
      LastEntry(os);
      assert Image(os, f) == Image(init, f) + {f(o)};
    }
  }

  ghost predicate CanonicalEntries(os: seq<ObservedEdge>) {
    forall o :: o in os ==> '|' !in o.from && '|' !in o.to
  }

  /** Entries with different keys are rendered differently. */
  lemma OrderDistinct(p: Header, os: seq<ObservedEdge>)
    requires CanonicalEntries(os) && Distinct(os, o => ObservedKey(p, o))
    ensures Distinct(os, EdgeOrder)
  {
    hide Render, Less;
    var f := o => ObservedKey(p, o);
    forall i, j | 0 <= i < j < |os|
      ensures EdgeOrder(os[i]) != EdgeOrder(os[j])
    {
      assert os[i] in os && os[j] in os && f(os[i]) != f(os[j]);
      if EdgeOrder(os[i]) == EdgeOrder(os[j]) {
        RenderInjective(RawKey(os[i]), RawKey(os[j]));
      }
    }
  }

  lemma EdgePhaseAlike(env: Env, c: Context, p: Header, d: Draft, xs: seq<ObservedEdge>, ys: seq<ObservedEdge>)
    requires d.Draft? && Rearranges(xs, ys) && InOrder(xs, EdgeOrder) && InOrder(ys, EdgeOrder) && CanonicalEntries(xs)
    ensures Alike(EdgeEntries(env, c, p, d, xs), EdgeEntries(env, c, p, d, ys))
  {
    hide EdgeEntries, InOrder, Distinct;
    SameMembers(xs, ys);
    if EdgeEntries(env, c, p, d, xs).Draft? || EdgeEntries(env, c, p, d, ys).Draft? {
      if EdgeEntries(env, c, p, d, xs).Draft? {
        KeysDistinct(env, c, p, d, xs);
      } else {
        KeysDistinct(env, c, p, d, ys);
      }
      DistinctRearranged(xs, ys, o => ObservedKey(p, o));
      OrderDistinct(p, xs);
      OrderDistinct(p, ys);
      SortedUnique(xs, ys, EdgeOrder);
    }
  }

  // ---- Whole publications ------------------------------------------------------------------------------

  /** The same publication with its three lists in another order. */
  ghost predicate SamePublication(p: Publication, q: Publication) {
    && q == p.(nodes := q.nodes, edges := q.edges, absences := q.absences)
    && Rearranges(p.nodes, q.nodes) && Rearranges(p.edges, q.edges) && Rearranges(p.absences, q.absences)
  }

  /** The orders in which the reconciler processes a publication: nodes by entity, edges by rendered key. */
  ghost predicate Processes(p: Publication, nodes: seq<ObservedNode>, edges: seq<ObservedEdge>) {
    && Rearranges(nodes, p.nodes) && InOrder(nodes, (o: ObservedNode) => o.entity)
    && Rearranges(edges, p.edges) && InOrder(edges, EdgeOrder)
  }

  lemma ForAllMembers<T(!new)>(xs: seq<T>, ys: seq<T>, good: T -> bool)
    requires Rearranges(xs, ys)
    ensures (forall i :: 0 <= i < |xs| ==> good(xs[i])) <==> (forall i :: 0 <= i < |ys| ==> good(ys[i]))
  {
    forall i | 0 <= i < |xs|
      ensures exists j :: 0 <= j < |ys| && ys[j] == xs[i]
    {
      RearrangedIn(xs, ys, i);
    }
    forall i | 0 <= i < |ys|
      ensures exists j :: 0 <= j < |xs| && xs[j] == ys[i]
    {
      RearrangedIn(ys, xs, i);
    }
  }

  lemma SameWellFormed(env: Env, p: Publication, q: Publication)
    requires SamePublication(p, q)
    ensures WellFormed(env, p) <==> WellFormed(env, q)
  {
    hide MetadataOk;
    SameLength(p.nodes, q.nodes);
    SameLength(p.edges, q.edges);
    SameLength(p.absences, q.absences);
    var goodNode := (o: ObservedNode) =>
        MetadataOk(o.metadata, env.limits) && 0 < |o.entity| <= env.limits.maxIdentifier;
    var goodEdge := (o: ObservedEdge) => MetadataOk(o.metadata, env.limits);
    ForAllMembers(p.nodes, q.nodes, goodNode);
    ForAllMembers(p.edges, q.edges, goodEdge);
    assert WellFormedBy(env, p, goodNode, goodEdge);
    assert WellFormedBy(env, q, goodNode, goodEdge);
  }

  ghost predicate WellFormedBy(env: Env, p: Publication, goodNode: ObservedNode -> bool,
                               goodEdge: ObservedEdge -> bool) {
    WellFormed(env, p) <==>
      && p.head.id != "" && p.head.domain != "" && |p.note| <= env.limits.maxString
      && |p.nodes| <= env.limits.maxPublishedNodes && |p.edges| <= env.limits.maxPublishedEdges
      && |p.absences| <= env.limits.maxPublishedEdges
      && (forall i :: 0 <= i < |p.nodes| ==> goodNode(p.nodes[i]))
      && (forall i :: 0 <= i < |p.edges| ==> goodEdge(p.edges[i]))
  }

  /** Alike, but for the key lookup where a relationship is stored twice. */
  ghost predicate AlikeWhereUnique(a: Draft, b: Draft) {
    (a.Rejected? && b.Rejected?) || (LikeButKeys(a, b) && (KeysUnique(a.g.edges) ==> a == b))
  }

  /** In any order, the absences come to the same. */
  lemma AbsencesAlike(p: Header, d: Draft, xs: seq<RelId>, ys: seq<RelId>)
    requires d.Draft? && EdgesFiled(d.g.edges) && Rearranges(xs, ys)
    ensures AlikeWhereUnique(Absences(p, d, xs), Absences(p, d, ys))
    ensures p.mode == AuthoritativeSnapshot ==> Absences(p, d, xs) == Absences(p, d, ys)
  {
    hide Absences, AbsenceSet, EdgesFiled, KeysUnique;
    AbsencesAreASet(p, d, xs);
    AbsencesAreASet(p, d, ys);
    SameMembers(xs, ys);
    assert Names(xs) == Names(ys);
    if p.mode != AuthoritativeSnapshot {
      RetiredKeysUnique(p, d, Names(xs));
    }
  }

  lemma RetiredKeysUnique(p: Header, d: Draft, names: set<RelId>)
    requires d.Draft? && p.mode != AuthoritativeSnapshot
    ensures KeysUnique(AbsenceSet(p, d, names).g.edges) ==> KeysUnique(d.g.edges)
  {
    hide MakeKey, LookupsWithoutGone, Gone, GoneKeys;
    var after := AbsenceSet(p, d, names).g.edges;
    assert forall e :: e in d.g.edges ==> e in after && KeyOf(after[e]) == KeyOf(d.g.edges[e]);
  }

  lemma ReconciledAlike(env: Env, c: Context, p: Publication, q: Publication, g: Graph,
                        nodes: seq<ObservedNode>, edges: seq<ObservedEdge>,
                        nodes': seq<ObservedNode>, edges': seq<ObservedEdge>)
    requires SamePublication(p, q) && Processes(p, nodes, edges) && Processes(q, nodes', edges')
    requires CanonicalEntries(p.edges) && Shaped(g) && p.head.domain in g.domains
    ensures AlikeWhereUnique(Reconciled(env, c, p, g, nodes, edges), Reconciled(env, c, q, g, nodes', edges'))
  {
    hide NodeEntries, EdgeEntries, Absences, ReplaceScope, InOrder, Shaped, Tracks, EdgesFiled, KeysUnique;
    var d := FirstDraft(g);
    assert Rearranges(nodes, nodes') && Rearranges(edges, edges');
    SameMembers(edges, p.edges);
    NodePhaseAlike(env, c, p.head, d, nodes, nodes');
    var a := NodeEntries(env, c, p.head, d, nodes);
    if a.Draft? {
      EdgePhaseAlike(env, c, p.head, a, edges, edges');
      var b := EdgeEntries(env, c, p.head, a, edges);
      if b.Draft? {
        FirstDraftTracks(g);
        NodeEntriesTrack(env, c, p.head, g, d, nodes);
        EdgeEntriesTrack(env, c, p.head, g, a, edges);
        TracksFacts(g, b);
        ShapedEdges(b.g);
        AbsencesAlike(p.head, b, p.absences, q.absences);
      }
    }
  }

  /** Validation does not ask what the lookups find. */
  lemma SameValidity(env: Env, g: Graph, h: Graph)
    requires g.nodes == h.nodes && g.edges == h.edges
    ensures ValidTopology(env, g) <==> ValidTopology(env, h)
  {
    hide NodeValid, KeysUnique, SlotsExclusive, AcyclicWhereRequired, EndpointsPermitted, LayerPermitted;
    assert forall e :: EdgeValid(g, e) <==> EdgeValid(h, e);
  }

  /** Permuting the lists of a publication changes neither whether it commits nor the state it leaves. */
  lemma PublishIgnoresOrder(s: State, env: Env, c: Context, p: Publication, q: Publication,
                            nodes: seq<ObservedNode>, edges: seq<ObservedEdge>,
                            nodes': seq<ObservedNode>, edges': seq<ObservedEdge>, persisted: bool)
    requires SamePublication(p, q) && Processes(p, nodes, edges) && Processes(q, nodes', edges')
    requires CanonicalEntries(p.edges) && Shaped(s.graph)
    ensures var r := Publish(s, env, c, p, nodes, edges, persisted);
            var r' := Publish(s, env, c, q, nodes', edges', persisted);
            r.state == r'.state && (r.verdict == r'.verdict || (r.verdict.Refused? && r'.verdict.Refused?))
  {
    hide Reconciled, WellFormed, CheckAuthority, NodeValid, EdgeValid, SlotsExclusive, AcyclicWhereRequired, Shaped,
         Processes, Record, KeysUnique;
    SameWellFormed(env, p, q);
    if PublishGuard(s, env, c, p) == Ok {
      ReconciledAlike(env, c, p, q, s.graph, nodes, edges, nodes', edges');
      var a, b := Reconciled(env, c, p, s.graph, nodes, edges), Reconciled(env, c, q, s.graph, nodes', edges');
      if a.Draft? && CanAdvance(a.g.generation) {
        SameValidity(env, a.g.(generation := a.g.generation + 1), b.g.(generation := b.g.generation + 1));
      }
    }
  }
}
