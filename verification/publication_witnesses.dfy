/** Small concrete runs on which the runtime departs from what it promises, one for each departure of a publication. */
module PublicationWitnesses {
  import opened Types
  import opened Graphs
  import opened Authority
  import opened Mutations
  import opened MutationLaws
  import opened Reconcile
  import opened EntryLaws
  import opened PublishLaws
  import opened RepublishLaws
  import opened SnapshotLaws
  import opened Runs
  import opened StampLaws
  import opened Witnesses

  // ---- Small publications ------------------------------------------------------------------

  function Seen(id: NodeId, c: NodeClass): ObservedNode {
    ObservedNode(id, id, c, Unspecified, "", [], true)
  }

  const SEEN: seq<ObservedNode> := [Seen("n", Nic), Seen("s", Switch), Seen("t", Switch)]

  /** An entry about how the card is related to a switch. */
  function Entry(id: Option<EdgeId>, name: RelId, r: Relation, to: NodeId): ObservedEdge {
    ObservedEdge(id, name, r, "n", to, None, "", 1, "", None, None, false, [], true)
  }

  function Proposal(id: EdgeId, name: RelId, r: Relation, to: NodeId): Candidate {
    Candidate(id, name, r, "n", to, Physical, "d", false, "", 1, None, None, false, "", [])
  }

  predicate Relates(r: Relation, to: NodeId) {
    (r == AttachedTo && to in {"s", "t"}) || (r == HostedBy && to == "s")
  }

  function KeyTo(r: Relation, to: NodeId): EdgeKey {
    EdgeKey(r, "n", to, "d")
  }

  function Report(id: string, mode: Mode, absences: seq<RelId>, nodes: seq<ObservedNode>, edges: seq<ObservedEdge>)
    : Reconcile.Publication
  {
    Reconcile.Publication(Header(id, "d", mode, RealEvidence, UnknownSource, 1), 0, "", absences, nodes, edges)
  }

  function Snapshot(id: string, absences: seq<RelId>, edges: seq<ObservedEdge>): Reconcile.Publication {
    Report(id, AuthoritativeSnapshot, absences, SEEN, edges)
  }

  lemma EntryIsProposed(p: Header, id: Option<EdgeId>, name: RelId, r: Relation, to: NodeId)
    requires p.domain == "d" && name != "" && Relates(r, to)
    ensures ObservedCandidate(AnyEnv(), p, Entry(id, name, r, to), Physical)
            == Proposal(if id.Some? then id.value else "y", name, r, to)
    ensures ResolveLayer(r, None) == Some(Physical)
    ensures ObservedKey(p, Entry(id, name, r, to)) == KeyTo(r, to) == MakeKey(r, "n", to, "d")
  {
    hide Less;
  }

  lemma ProposalIsValid(g: Graph, id: EdgeId, name: RelId, r: Relation, to: NodeId, isNew: bool)
    requires g.nodes == NODES && id != "" && name != "" && Relates(r, to) && (isNew ==> r == AttachedTo)
    ensures ValidateCandidate(g, Proposal(id, name, r, to), isNew) == Ok
  {
    hide WouldCycle;
    NodesOfWorld();
    assert NODES["n"] == Card("n") && NODES["s"] == Switch1("s") && NODES["t"] == Switch1("t");
    assert isNew ==> !MustStayAcyclic(r);
    NoCycle(g.edges, r, to);
  }

  lemma NoCycle(edges: Edges, r: Relation, to: NodeId)
    ensures !MustStayAcyclic(r) ==> !WouldCycle(edges, r, "n", to)
  {
  }

  /** An entry leads to its candidate. */
  lemma EntryIs(p: Header, d: Draft, id: Option<EdgeId>, name: RelId, r: Relation, to: NodeId)
    requires d.Draft? && p.domain == "d" && name != "" && Relates(r, to) && KeyTo(r, to) !in d.keys
    ensures EdgeEntry(AnyEnv(), CALLER, p, d, Entry(id, name, r, to))
            == PresentEdge(AnyEnv(), CALLER, p, d.(keys := d.keys + {KeyTo(r, to)}),
                           Proposal(if id.Some? then id.value else "y", name, r, to))
  {
    hide ObservedCandidate, ObservedKey, PresentEdge, ResolveLayer;
    EntryIsProposed(p, id, name, r, to);
  }

  lemma NoEntries(p: Header, d: Draft)
    ensures NodeEntries(AnyEnv(), CALLER, p, d, []) == d && EdgeEntries(AnyEnv(), CALLER, p, d, []) == d
    ensures Absences(p, d, []) == d
  {
  }

  lemma OneEntry(p: Header, d: Draft, o: ObservedEdge)
    requires d.Draft?
    ensures EdgeEntries(AnyEnv(), CALLER, p, d, [o]) == EdgeEntry(AnyEnv(), CALLER, p, d, o)
  {
    hide EdgeEntry;
    assert [o][..0] == [];
    NoEntries(p, d);
  }

  lemma TwoEntries(p: Header, d: Draft, o: ObservedEdge, o': ObservedEdge)
    requires d.Draft? && EdgeEntry(AnyEnv(), CALLER, p, d, o).Draft?
    ensures EdgeEntries(AnyEnv(), CALLER, p, d, [o, o'])
            == EdgeEntry(AnyEnv(), CALLER, p, EdgeEntry(AnyEnv(), CALLER, p, d, o), o')
  {
    hide EdgeEntry;
    assert [o, o'][..1] == [o];
    OneEntry(p, d, o);
  }

  lemma OneAbsence(p: Header, d: Draft, name: RelId)
    requires d.Draft?
    ensures Absences(p, d, [name]) == Absence(p, d, name)
  {
    hide Absence;
    assert [name][..0] == [];
    NoEntries(p, d);
  }

  /** A valid candidate that is new in every respect is filed. */
  lemma NewEntryIsFiled(p: Header, d: Draft, id: EdgeId, name: RelId, to: NodeId)
    requires d.Draft? && d.g.nodes == NODES && name !in d.names && id !in d.g.edges && |d.g.edges| < 100
    requires id != "" && name != "" && Relates(AttachedTo, to) && FindKey(d.g, KeyTo(AttachedTo, to)).None?
    ensures var e := PublishedEdge(CALLER, p, d.g, Proposal(id, name, AttachedTo, to));
            PresentEdge(AnyEnv(), CALLER, p, d, Proposal(id, name, AttachedTo, to))
            == d.(g := d.g.(edges := d.g.edges[id := e], lookups := Enlist(d.g.lookups, e)), names := d.names + {name},
                  changed := true)
  {
    hide ValidateCandidate, PublishedEdge, MakeKey, FindKey, Enlist;
    ProposalIsValid(d.g, id, name, AttachedTo, to, true);
    EntryIsProposed(Header("", "d", Incremental, RealEvidence, UnknownSource, 1), Some(id), name, AttachedTo, to);
  }

  /** What is filed is a current relationship of the card, with the key, name and identifier that were proposed. */
  lemma FiledFacts(p: Header, g: Graph, id: EdgeId, name: RelId, to: NodeId)
    requires g.nodes == NODES && Relates(AttachedTo, to)
    ensures var e := PublishedEdge(CALLER, p, g, Proposal(id, name, AttachedTo, to));
            e.id == id && e.relationship == name && KeyOf(e) == KeyTo(AttachedTo, to) && OfCard(e) && e.domain == "d"
            && Live(e)
  {
    hide Less;
    NodesOfWorld();
    assert NODES["n"] == Card("n") && NODES["s"] == Switch1("s") && NODES["t"] == Switch1("t");
  }

  // ---- Whole-graph validation ----------------------------------------------------------------

  /** The card may be attached to either switch, or hosted by the first. */
  predicate OfCard(e: Edge) {
    && e.from == "n" && Relates(e.relation, e.to) && e.layer == Physical && !e.crossDomain && e.domain == "d"
    && e.secondary == "d" && e.fromGeneration == 1 && e.toGeneration == 1 && e.supportedBy == None
    && e.supersededBy != Some(e.id) && e.attachment == None
  }

  lemma NodesAreValid()
    ensures forall n :: n in NODES ==> NodeValid(AnyEnv(), NODES[n])
  {
    assert NodeValid(AnyEnv(), Card("n"));
    assert NodeValid(AnyEnv(), Switch1("s"));
    assert NodeValid(AnyEnv(), Switch1("t"));
  }

  lemma CardEdgeIsValid(g: Graph, e: Edge)
    requires g.nodes == NODES && OfCard(e)
    ensures EdgeValid(g, e) && Fits(e)
  {
    hide Less;
    assert g.nodes["n"] == Card("n") && g.nodes["s"] == Switch1("s") && g.nodes["t"] == Switch1("t");
  }

  lemma SmallIsValid(g: Graph)
    requires g.nodes == NODES && KeysUnique(g.edges)
    requires forall e :: e in g.edges ==> g.edges[e].id == e && OfCard(g.edges[e])
    ensures ValidTopology(AnyEnv(), g)
  {
    hide NodeValid, EdgeValid, KeysUnique, AcyclicWhereRequired, Fits, Shaped;
    NodesAreValid();
    forall e | e in g.edges
      ensures EdgeValid(g, g.edges[e]) && Fits(g.edges[e])
    {
      CardEdgeIsValid(g, g.edges[e]);
    }
    WorldIsShaped(g.edges, map["n" := 1, "s" := 0, "t" := 0]);
  }

  // ---- Commitment --------------------------------------------------------------------------------

  predicate Modest(p: Reconcile.Publication) {
    && p.head.id != "" && p.head.domain == "d" && p.note == "" && p.expected == 0
    && |p.nodes| <= 3 && |p.edges| <= 2 && |p.absences| <= 1
    && (forall i :: 0 <= i < |p.nodes| ==> p.nodes[i].metadata == [] && 0 < |p.nodes[i].entity| <= 1)
    && (forall i :: 0 <= i < |p.edges| ==> p.edges[i].metadata == [])
  }

  /** Such a publication commits whatever difference it makes, if that is valid. */
  lemma ModestCommits(g: Graph, p: Reconcile.Publication, nodes: seq<ObservedNode>, edges: seq<ObservedEdge>)
    requires Modest(p) && "d" in g.domains && g.generation < 100
    requires var d := Reconciled(AnyEnv(), CALLER, p, g, nodes, edges);
             && d.Draft? && d.changed && d.g.generation == g.generation
             && ValidTopology(AnyEnv(), d.g.(generation := g.generation + 1))
    ensures var d := Reconciled(AnyEnv(), CALLER, p, g, nodes, edges);
            Publish(Under(g), AnyEnv(), CALLER, p, nodes, edges, true)
            == Result(Under(d.g.(generation := g.generation + 1)).(ledger := [p.head.id]), Committed)
  {
    hide CheckAuthority, Reconciled, ValidTopology, MetadataOk;
    CallerIsGranted(RequiredGrant(p));
    NoMetadata(BOUNDS);
    assert [] + [p.head.id] == [p.head.id];
  }

  // ---- Small snapshots --------------------------------------------------------------------------

  /** Entries that find their nodes as they say are only mentioned. */
  lemma SettledEntry(p: Header, d: Draft, id: NodeId, c: NodeClass)
    requires d.Draft? && d.g.nodes == NODES && id in NODES && NODES[id].nodeClass == c
    requires id !in d.nodeIds && id !in d.entities
    ensures NodeEntry(AnyEnv(), CALLER, p, d, Seen(id, c))
            == d.(nodeIds := d.nodeIds + {id}, entities := d.entities + {id})
  {
    NodesOfWorld();
  }

  /** The draft of a snapshot that has mentioned every node. */
  function Begun(g: Graph): (d: Draft)
    ensures d.Draft?
  {
    Draft.Draft(g, {"n", "s", "t"}, {"n", "s", "t"}, {}, {}, false)
  }

  lemma NodesAreMentioned(p: Header, g: Graph)
    requires g.nodes == NODES
    ensures NodeEntries(AnyEnv(), CALLER, p, FirstDraft(g), SEEN) == Begun(g)
  {
    hide NodeEntry;
    var env, d := AnyEnv(), FirstDraft(g);
    assert SEEN[..2] == [SEEN[0], SEEN[1]] && SEEN[..2][..1] == [SEEN[0]] && [SEEN[0]][..0] == [];
    NoEntries(p, d);
    assert NodeEntries(env, CALLER, p, d, [SEEN[0]]) == NodeEntry(env, CALLER, p, d, SEEN[0]);
    SettledEntry(p, d, "n", Nic);
    var one := NodeEntries(env, CALLER, p, d, [SEEN[0]]);
    SettledEntry(p, one, "s", Switch);
    assert NodeEntries(env, CALLER, p, d, SEEN[..2]) == NodeEntry(env, CALLER, p, one, SEEN[1]);
    var two := NodeEntries(env, CALLER, p, d, SEEN[..2]);
    SettledEntry(p, two, "t", Switch);
    assert NodeEntries(env, CALLER, p, d, SEEN) == NodeEntry(env, CALLER, p, two, SEEN[2]);
  }

  /** A snapshot that mentions every node replaces edges only. */
  lemma OnlyEdgesReplaced(p: Header, d: Draft, gone: set<EdgeId>)
    requires d.Draft? && d.g.nodes == NODES && d.nodeIds == {"n", "s", "t"} && gone == LeftOutIds(p, d)
    ensures var r := ReplaceScope(p, d);
            && r.g == d.g.(edges := d.g.edges - gone, lookups := Delisted(d.g.lookups, d.g.edges, gone))
            && r.changed == (d.changed || gone != {})
  {
    hide LeftOut, Delisted, Isolated;
    NodesOfWorld();
    assert KeptEdges(p, d) == d.g.edges - gone;
    assert KeptNodes(p, d, KeptEdges(p, d)) == NODES;
    assert (exists e :: e in d.g.edges && LeftOut(p, d.keys, d.g.edges[e])) <==> gone != {} by {
      if e :| e in d.g.edges && LeftOut(p, d.keys, d.g.edges[e]) {
        assert e in gone;
      }
    }
  }

  /** The draft of such a snapshot, from the draft after its entries. */
  lemma SnapshotIs(p: Reconcile.Publication, g: Graph, d: Draft, gone: set<EdgeId>)
    requires g.nodes == NODES && p.head.mode == AuthoritativeSnapshot
    requires d == EdgeEntries(AnyEnv(), CALLER, p.head, Begun(g), p.edges) && d.Draft?
    requires var a := Absences(p.head, d, p.absences);
             a.Draft? && a.g.nodes == NODES && a.nodeIds == {"n", "s", "t"} && gone == LeftOutIds(p.head, a)
    ensures var a, r := Absences(p.head, d, p.absences), Reconciled(AnyEnv(), CALLER, p, g, SEEN, p.edges);
            && r.Draft? && r.changed == (a.changed || gone != {})
            && r.g == a.g.(edges := a.g.edges - gone, lookups := Delisted(a.g.lookups, a.g.edges, gone))
  {
    hide NodeEntries, EdgeEntries, Absences, ReplaceScope, LeftOutIds, Delisted;
    NodesAreMentioned(p.head, g);
    OnlyEdgesReplaced(p.head, Absences(p.head, d, p.absences), gone);
  }

  // ---- A publication that takes a name in use ------------------------------------------------------------

  const CLAIM := Entry(None, "r", AttachedTo, "t")

  const PUBLICATION := Report("pub", Incremental, [], [], [CLAIM])

  lemma ClaimIsFiled()
    ensures var d := Reconciled(AnyEnv(), CALLER, PUBLICATION, STATE.graph, [], [CLAIM]);
            var e := PublishedEdge(CALLER, PUBLICATION.head, STATE.graph, Proposal("y", "r", AttachedTo, "t"));
            d.Draft? && d.changed && d.g == STATE.graph.(edges := ALONE["y" := e], lookups := d.g.lookups)
  {
    hide NodeEntries, EdgeEntries, EdgeEntry, PresentEdge, PublishedEdge, Absences, Enlist, FindKey;
    var p, first := PUBLICATION.head, FirstDraft(STATE.graph);
    NoEntries(p, first);
    OneEntry(p, first, CLAIM);
    EntryIs(p, first, None, "r", AttachedTo, "t");
    ClaimIsNew();
    OnlyAttached();
    NewEntryIsFiled(p, first.(keys := first.keys + {KeyTo(AttachedTo, "t")}), "y", "r", "t");
    NoEntries(p, EdgeEntries(AnyEnv(), CALLER, p, first, [CLAIM]));
  }

  lemma ClaimIsNew()
    ensures FindKey(STATE.graph, KeyTo(AttachedTo, "t")).None?
  {
    hide KeyOf;
    OnlyAttached();
    KeysAsStored();
  }

  /** A publication may commit a new relationship under a name that is already in use. */
  lemma PublicationDuplicatesName()
    ensures var r := Publish(STATE, AnyEnv(), CALLER, PUBLICATION, [], [CLAIM], true);
            r.verdict == Committed && !RelationshipsUnique(r.state.graph.edges)
  {
    hide Reconciled, ValidTopology, PublishedEdge, Publish, KeyOf;
    ClaimIsFiled();
    OnlyAttached();
    KeysAsStored();
    FiledFacts(PUBLICATION.head, STATE.graph, "y", "r", "t");
    var d := Reconciled(AnyEnv(), CALLER, PUBLICATION, STATE.graph, [], [CLAIM]);
    SmallIsValid(d.g.(generation := 2));
    ModestCommits(STATE.graph, PUBLICATION, [], [CLAIM]);
    assert d.g.edges["a"].relationship == "r" && d.g.edges["y"].relationship == "r";
  }

  // ---- A snapshot that takes a name in use ---------------------------------------------------------------

  /** What is left of an attachment that was retired; its name is still held. */
  const DETACHED := ATTACHED.(lifecycle := Lifecycle.Retired)

  const LEFT: Edges := map["a" := DETACHED]

  const ON_LEFT := World(LEFT, Lookups(map[TO_S := "a"], map["r" := "a"]))

  const SNAPSHOT := Snapshot("snap", [], [CLAIM])

  lemma OnlyDetached()
    ensures forall e :: e in LEFT ==> e == "a" && LEFT[e] == DETACHED
    ensures "a" in LEFT && LEFT["a"] == DETACHED && Fits(DETACHED) && KeyOf(DETACHED) == TO_S && OfCard(DETACHED)
    ensures FindKey(ON_LEFT, KeyTo(AttachedTo, "t")).None?
  {
    hide Less;
    KeysAsStored();
  }

  /** What the entry files. */
  function Claimed(g: Graph): Edge
    requires g.nodes == NODES
  {
    NodesOfWorld();
    PublishedEdge(CALLER, SNAPSHOT.head, g, Proposal("y", "r", AttachedTo, "t"))
  }

  lemma ClaimEntered()
    ensures EdgeEntries(AnyEnv(), CALLER, SNAPSHOT.head, Begun(ON_LEFT), [CLAIM])
            == Begun(ON_LEFT).(g := ON_LEFT.(edges := LEFT["y" := Claimed(ON_LEFT)],
                                             lookups := Enlist(ON_LEFT.lookups, Claimed(ON_LEFT))),
                               keys := {TO_T}, names := {"r"}, changed := true)
  {
    hide EdgeEntries, EdgeEntry, PresentEdge, PublishedEdge, Enlist, FindKey, KeyOf;
    var p, first := SNAPSHOT.head, Begun(ON_LEFT);
    OneEntry(p, first, CLAIM);
    EntryIs(p, first, None, "r", AttachedTo, "t");
    OnlyDetached();
    NewEntryIsFiled(p, first.(keys := first.keys + {KeyTo(AttachedTo, "t")}), "y", "r", "t");
    assert {} + {TO_T} == {TO_T} && {} + {"r"} == {"r"};
  }

  /** The new relationship is filed, and the retired one, which is not live, stays. */
  lemma SnapshotDraft()
    ensures var d := Reconciled(AnyEnv(), CALLER, SNAPSHOT, ON_LEFT, SEEN, [CLAIM]);
            d.Draft? && d.changed && d.g == ON_LEFT.(edges := LEFT["y" := Claimed(ON_LEFT)], lookups := d.g.lookups)
  {
    hide EdgeEntries, PublishedEdge, Enlist, KeyOf, Delisted, Reconciled, Claimed;
    var p := SNAPSHOT.head;
    ClaimEntered();
    OnlyDetached();
    ClaimFacts();
    var d := EdgeEntries(AnyEnv(), CALLER, p, Begun(ON_LEFT), [CLAIM]);
    NoEntries(p, d);
    assert LeftOutIds(p, d) == {};
    SnapshotIs(SNAPSHOT, ON_LEFT, d, {});
    assert d.g.edges - {} == d.g.edges;
  }

  lemma ClaimFacts()
    ensures var e := Claimed(ON_LEFT);
            e.id == "y" && e.relationship == "r" && KeyOf(e) == TO_T && OfCard(e) && e.domain == "d" && Live(e)
  {
    hide PublishedEdge, KeyOf;
    FiledFacts(SNAPSHOT.head, ON_LEFT, "y", "r", "t");
  }

  /** An authoritative snapshot may commit a new relationship under the name of one that it does not erase. */
  lemma SnapshotDuplicatesName()
    ensures Healthy(Under(ON_LEFT))
    ensures var r := Publish(Under(ON_LEFT), AnyEnv(), CALLER, SNAPSHOT, SEEN, [CLAIM], true);
            r.verdict == Committed && !RelationshipsUnique(r.state.graph.edges)
  {
    hide Reconciled, ValidTopology, Publish, KeyOf, Shaped, FindKey, Claimed;
    SnapshotDraft();
    OnlyDetached();
    WorldIsShaped(LEFT, map["n" := 1, "s" := 0]);
    ClaimFacts();
    var d := Reconciled(AnyEnv(), CALLER, SNAPSHOT, ON_LEFT, SEEN, [CLAIM]);
    SmallIsValid(d.g.(generation := 2));
    ModestCommits(ON_LEFT, SNAPSHOT, SEEN, [CLAIM]);
    assert d.g.edges["a"].relationship == "r" && d.g.edges["y"].relationship == "r";
  }

  // ---- A key that is lost, and an addition that erases its holder ------------------------------------------

  /** The attachment after it was moved to its own target: superseded by the edge that has taken its key over. */
  const MOVED := SupersededEdge(ATTACHED, Some("z"))

  ghost const STAYED := Step(STATE, Mutation(AnyEnv(), CALLER, STAY, true)).graph

  /** After the edge that took the key over is gone, nothing is found by it. */
  const LOST := World(map["a" := MOVED], Lookups(map[], map["r" := "a"])).(generation := 3)

  const NOTHING_LEFT := Snapshot("snap", [], [])

  lemma StayedLookups(created: Edge)
    requires KeyOf(created) == TO_S && created.relationship == "q" && created.id == "z"
    ensures Enlist(Relist(STATE.graph.lookups, ATTACHED, MOVED), created)
            == Lookups(map[TO_S := "z"], map["r" := "a", "q" := "z"])
  {
    hide MakeKey;
    KeysAsStored();
    assert KeyOf(MOVED) == TO_S;
    var one := Relist(STATE.graph.lookups, ATTACHED, MOVED);
    assert one.keys == map[TO_S := "a"] && one.names == map["r" := "a"];
    assert Enlist(one, created).keys == map[TO_S := "z"] && Enlist(one, created).names == map["r" := "a", "q" := "z"];
  }

  lemma StayIsMade()
    ensures var k := MovedCandidate(AnyEnv(), STAY, ATTACHED);
            k.from in NODES && k.to in NODES && STAYED == FinishMove(STATE, "a", NewEdge(STATE.graph, CALLER, k,
                RealEvidence, OperatorDeclaration), true).state.graph
  {
    hide MoveGuard, MakeKey, Mutate, FinishMove, NewEdge;
    StayGuardPasses();
    OnlyAttached();
    NodesOfWorld();
    MutateIs(STATE, AnyEnv(), CALLER, STAY, true);
  }

  lemma MoveStayed()
    ensures "z" in STAYED.edges && STAYED.edges == map["a" := MOVED, "z" := STAYED.edges["z"]]
    ensures var e := STAYED.edges["z"];
            e.id == "z" && e.relationship == "q" && KeyOf(e) == TO_S && Live(e) && e.domain == "d"
    ensures STAYED == World(STAYED.edges, Lookups(map[TO_S := "z"], map["r" := "a", "q" := "z"])).(generation := 2)
  {
    hide MakeKey, Mutate, Enlist, Delist, Relist;
    StayIsMade();
    OnlyAttached();
    KeysAsStored();
    var k := MovedCandidate(AnyEnv(), STAY, ATTACHED);
    var created := NewEdge(STATE.graph, CALLER, k, RealEvidence, OperatorDeclaration);
    KeyOfNew(STATE.graph, CALLER, k);
    StayedLookups(created);
    assert ALONE["a" := MOVED]["z" := created] == map["a" := MOVED, "z" := created];
  }

  lemma ZIsLeftOut()
    ensures LeftOutIds(NOTHING_LEFT.head, Begun(STAYED)) == {"z"} && STAYED.edges - {"z"} == map["a" := MOVED]
  {
    hide KeyOf, Mutate;
    MoveStayed();
  }

  lemma ZIsDelisted()
    ensures Delisted(STAYED.lookups, STAYED.edges, {"z"}) == LOST.lookups
  {
    hide KeyOf, Mutate;
    MoveStayed();
    var left := Delisted(STAYED.lookups, STAYED.edges, {"z"});
    assert left.keys == map[] && left.names == map["r" := "a"];
  }

  lemma NothingIsLeft()
    ensures var d := Reconciled(AnyEnv(), CALLER, NOTHING_LEFT, STAYED, SEEN, []);
            d.Draft? && d.changed && d.g == LOST.(generation := 2)
  {
    hide NodeEntries, EdgeEntries, Mutate, Reconciled, LeftOutIds, Delisted;
    MoveStayed();
    ZIsLeftOut();
    ZIsDelisted();
    var d := Begun(STAYED);
    NoEntries(NOTHING_LEFT.head, d);
    SnapshotIs(NOTHING_LEFT, STAYED, d, {"z"});
  }

  lemma OnlyMoved()
    ensures forall e :: e in LOST.edges ==> e == "a" && LOST.edges[e] == MOVED
    ensures "a" in LOST.edges && KeyOf(MOVED) == TO_S && OfCard(MOVED) && Fits(MOVED)
  {
    hide Less;
    KeysAsStored();
  }

  lemma LostIsReached()
    ensures Publish(Under(STAYED), AnyEnv(), CALLER, NOTHING_LEFT, SEEN, [], true).state
            == Under(LOST).(ledger := ["snap"])
  {
    hide Reconciled, ValidTopology, Publish, KeyOf, Mutate;
    MoveStayed();
    NothingIsLeft();
    OnlyMoved();
    SmallIsValid(LOST);
    ModestCommits(STAYED, NOTHING_LEFT, SEEN, []);
  }

  const TAKE := AddRelationship(Some("a"), "bar", AttachedTo, "n", "s", None, "", 0, 1, None, None, false, false, [])

  lemma TakeErases()
    ensures ErasesUnlisted(Under(LOST), AnyEnv(), CALLER, TAKE)
  {
    hide AddGuard, Asked, ValidateCandidate, MakeKey;
    OnlyMoved();
    KeysAsStored();
    AdditionIsInOrder(LOST, "a", "bar", "s");
  }

  lemma LedgerIsNotAsked(s: State, ledger: seq<string>, c: Context, r: Request)
    requires r.AddRelationship?
    ensures ErasesUnlisted(s.(ledger := ledger), AnyEnv(), c, r) <==> ErasesUnlisted(s, AnyEnv(), c, r)
  {
    hide ValidateCandidate, MetadataOk, ResolveScope, Normalize;
  }

  /** Three steps from a healthy state: an attachment is moved to where it is, a snapshot erases the edge that has
      taken its key over, and an addition under the old identifier is refused and erases the old edge. */
  lemma LostKeyErasesEdge()
    ensures var s1 := Step(STATE, Mutation(AnyEnv(), CALLER, STAY, true));
            var s2 := Step(s1, Op.Publication(AnyEnv(), CALLER, NOTHING_LEFT, SEEN, [], true));
            var op := Mutation(AnyEnv(), CALLER, TAKE, true);
            && Healthy(STATE) && Complete(STATE.graph)
            && LeavesResidue(s2, op) && SameStamp(s2, Step(s2, op)) && !SameTopology(s2, Step(s2, op))
  {
    hide Mutate, Publish, ErasesUnlisted, Healthy, Complete, Step;
    StateIsHealthy();
    StayedIsState();
    LostIsReached();
    TakeErases();
    var s2 := Under(LOST).(ledger := ["snap"]);
    PublicationIsStep(Under(STAYED), NOTHING_LEFT, SEEN, []);
    LedgerIsNotAsked(Under(LOST), ["snap"], CALLER, TAKE);
    ResidueBreaksStamp(s2, Mutation(AnyEnv(), CALLER, TAKE, true));
  }

  lemma StayedIsState()
    ensures Step(STATE, Mutation(AnyEnv(), CALLER, STAY, true)) == Under(STAYED)
  {
    hide MoveGuard, NewEdge, Enlist, Delist, Mutate;
    MutateIs(STATE, AnyEnv(), CALLER, STAY, true);
    MoveStamped(STATE, AnyEnv(), CALLER, STAY, true);
  }

  lemma PublicationIsStep(s: State, p: Reconcile.Publication, nodes: seq<ObservedNode>, edges: seq<ObservedEdge>)
    ensures Step(s, Op.Publication(AnyEnv(), CALLER, p, nodes, edges, true))
            == Publish(s, AnyEnv(), CALLER, p, nodes, edges, true).state
  {
    hide Publish;
  }

  // ---- A key that is lost, and a snapshot that drops an entry -----------------------------------------------

  const BACK := Entry(Some("a"), "bar", AttachedTo, "s")

  const REPORTED := Snapshot("back", [], [BACK])

  /** The edge whose identifier is taken is not filed, and nobody is told. */
  lemma BackIsIgnored()
    ensures var d := Reconciled(AnyEnv(), CALLER, REPORTED, LOST, SEEN, [BACK]); d.Draft? && d.changed && d.g == LOST
  {
    hide NodeEntries, EdgeEntries, EdgeEntry, KeyOf, Reconciled, ValidateCandidate, MakeKey;
    var p, first := REPORTED.head, Begun(LOST);
    OnlyMoved();
    KeysAsStored();
    OneEntry(p, first, BACK);
    EntryIs(p, first, Some("a"), "bar", AttachedTo, "s");
    ProposalIsValid(LOST, "a", "bar", AttachedTo, "s", true);
    var d := EdgeEntries(AnyEnv(), CALLER, p, first, [BACK]);
    NoEntries(p, d);
    assert LeftOutIds(p, d) == {};
    SnapshotIs(REPORTED, LOST, d, {});
    DelistedNone(LOST.lookups, LOST.edges);
    assert LOST.edges - {} == LOST.edges;
  }

  /** Where a key is lost, a snapshot may report a relationship present, commit, and leave no live edge for it. */
  lemma SnapshotDropsEntry()
    ensures Structured(LOST) && !KeysFound(REPORTED, LOST)
    ensures var r := Publish(Under(LOST), AnyEnv(), CALLER, REPORTED, SEEN, [BACK], true);
            && r.verdict == Committed
            && !exists e :: LiveIn(r.state.graph.edges, "d", e)
                            && KeyOf(r.state.graph.edges[e]) == ObservedKey(REPORTED.head, BACK)
  {
    hide Reconciled, ValidTopology, Publish, KeyOf, Shaped;
    BackIsIgnored();
    OnlyMoved();
    KeysAsStored();
    SmallIsValid(LOST.(generation := 4));
    ModestCommits(LOST, REPORTED, SEEN, [BACK]);
    WorldIsShaped(LOST.edges, map["n" := 1, "s" := 0]);
    ShapedAnyGeneration(World(LOST.edges, LOST.lookups));
    EntryIsProposed(REPORTED.head, Some("a"), "bar", AttachedTo, "s");
    assert BACK in REPORTED.edges;
    assert FindKey(LOST, TO_S) == None;
    assert !KeyListed(LOST, ObservedKey(REPORTED.head, BACK));
  }

  // ---- A name that is lost, and a snapshot that misses an absence --------------------------------------------

  const SAME := Entry(Some("h"), "q", HostedBy, "s")

  const ABSENT := Snapshot("absent", ["q"], [SAME])

  lemma OnlyHosted(edges: Edges)
    requires edges == map["h" := HOSTED]
    ensures forall e :: e in edges ==> e == "h" && edges[e] == HOSTED
    ensures OfCard(HOSTED) && Fits(HOSTED) && KeyOf(HOSTED) == IN_S && BOTH - {"a"} == edges
  {
    hide Less;
    KeysAsStored();
    EdgesOfBoth();
    assert BOTH - {"a"} == map["h" := HOSTED];
  }

  /** An entry that says what is on file is only mentioned, whatever name it comes under. */
  lemma HostingIsMentioned(p: Header, d: Draft, name: RelId)
    requires d.Draft? && d.g.nodes == NODES && name != "" && name !in d.names && p.domain == "d"
    requires "h" in d.g.edges && d.g.edges["h"] == HOSTED && IN_S !in d.keys && FindKey(d.g, IN_S) == Some("h")
    ensures EdgeEntry(AnyEnv(), CALLER, p, d, Entry(Some("h"), name, HostedBy, "s"))
            == d.(keys := d.keys + {IN_S}, names := d.names + {name})
  {
    hide EdgeEntry, ValidateCandidate, MakeKey, FindKey;
    KeysAsStored();
    EntryIs(p, d, Some("h"), name, HostedBy, "s");
    ProposalIsValid(d.g, "h", name, HostedBy, "s", false);
  }

  lemma AbsenceIsMissed()
    ensures var d := Reconciled(AnyEnv(), CALLER, ABSENT, World(BOTH, PARTED), SEEN, [SAME]);
            d.Draft? && d.changed && d.g == World(map["h" := HOSTED], d.g.lookups)
  {
    hide NodeEntries, EdgeEntries, EdgeEntry, KeyOf, Reconciled, Delisted;
    var p, first := ABSENT.head, Begun(World(BOTH, PARTED));
    EdgesOfBoth();
    KeysAsStored();
    OnlyHosted(map["h" := HOSTED]);
    OneEntry(p, first, SAME);
    assert FindKey(first.g, IN_S) == Some("h");
    HostingIsMentioned(p, first, "q");
    var d := EdgeEntries(AnyEnv(), CALLER, p, first, [SAME]);
    OneAbsence(p, d, "q");
    assert FindRelationship(d.g, "q") == None;
    assert LeftOutIds(p, d) == {"a"};
    SnapshotIs(ABSENT, World(BOTH, PARTED), d, {"a"});
  }

  lemma AbsentIsUnlisted()
    ensures Structured(World(BOTH, PARTED)) && KeysFound(ABSENT, World(BOTH, PARTED))
    ensures !AbsencesFound(ABSENT, World(BOTH, PARTED)) && DeclaredAbsent(ABSENT, "q")
  {
    hide MakeKey, Shaped, ObservedKey;
    EdgesOfBoth();
    KeysAsStored();
    WorldIsShaped(BOTH, map["n" := 1, "s" := 0]);
    EntryIsProposed(ABSENT.head, Some("h"), "q", HostedBy, "s");
    assert FindRelationship(World(BOTH, PARTED), "q") == None;
    assert "q" in ABSENT.absences && !NameListed(World(BOTH, PARTED), "q");
  }

  /** Where a name is lost, a snapshot may declare it absent, commit, and leave its holder live. */
  lemma SnapshotMissesAbsence()
    ensures Structured(World(BOTH, PARTED)) && KeysFound(ABSENT, World(BOTH, PARTED))
    ensures !AbsencesFound(ABSENT, World(BOTH, PARTED))
    ensures var r := Publish(Under(World(BOTH, PARTED)), AnyEnv(), CALLER, ABSENT, SEEN, [SAME], true);
            && r.verdict == Committed && DeclaredAbsent(ABSENT, "q")
            && LiveIn(r.state.graph.edges, "d", "h") && r.state.graph.edges["h"].relationship == "q"
  {
    hide Reconciled, ValidTopology, Publish, KeyOf, Structured, KeysFound, AbsencesFound;
    AbsentIsUnlisted();
    AbsenceIsMissed();
    OnlyHosted(map["h" := HOSTED]);
    var d := Reconciled(AnyEnv(), CALLER, ABSENT, World(BOTH, PARTED), SEEN, [SAME]);
    SmallIsValid(d.g.(generation := 2));
    ModestCommits(World(BOTH, PARTED), ABSENT, SEEN, [SAME]);
  }

  // ---- An absence that strikes a newcomer --------------------------------------------------------------------

  const HOSTING := World(map["h" := HOSTED], Lookups(map[IN_S := "h"], map["q" := "h"]))

  const ALIASED := Entry(Some("h"), "alias", HostedBy, "s")

  const NEWCOMER := Entry(None, "q", AttachedTo, "t")

  const SWAP := Snapshot("swap", ["q"], [ALIASED, NEWCOMER])

  function Newcomer(): Edge {
    NodesOfWorld();
    PublishedEdge(CALLER, SWAP.head, HOSTING, Proposal("y", "q", AttachedTo, "t"))
  }

  lemma NewcomerFacts()
    ensures var e := Newcomer();
            e.id == "y" && e.relationship == "q" && KeyOf(e) == TO_T && e.domain == "d" && Live(e)
    ensures FindKey(HOSTING, KeyTo(AttachedTo, "t")).None? && FindKey(HOSTING, IN_S) == Some("h")
  {
    hide PublishedEdge, KeyOf;
    FiledFacts(SWAP.head, HOSTING, "y", "q", "t");
    OnlyHosted(HOSTING.edges);
  }

  lemma NewcomerEntered(d: Draft)
    requires d == Draft.Draft(HOSTING, {"n", "s", "t"}, {"n", "s", "t"}, {IN_S}, {"alias"}, false)
    ensures EdgeEntry(AnyEnv(), CALLER, SWAP.head, d, NEWCOMER)
            == d.(g := HOSTING.(edges := HOSTING.edges["y" := Newcomer()],
                                lookups := Enlist(HOSTING.lookups, Newcomer())),
                  keys := {IN_S, TO_T}, names := {"alias", "q"}, changed := true)
  {
    hide EdgeEntry, KeyOf, PublishedEdge, PresentEdge, Enlist, FindKey;
    OnlyHosted(HOSTING.edges);
    NewcomerFacts();
    EntryIs(SWAP.head, d, None, "q", AttachedTo, "t");
    assert {IN_S} + {TO_T} == {IN_S, TO_T} && {"alias"} + {"q"} == {"alias", "q"};
    NewEntryIsFiled(SWAP.head, d.(keys := {IN_S, TO_T}), "y", "q", "t");
  }

  lemma SwapEntered()
    ensures EdgeEntries(AnyEnv(), CALLER, SWAP.head, Begun(HOSTING), SWAP.edges)
            == Begun(HOSTING).(g := HOSTING.(edges := HOSTING.edges["y" := Newcomer()],
                                             lookups := Enlist(HOSTING.lookups, Newcomer())),
                               keys := {IN_S, TO_T}, names := {"alias", "q"}, changed := true)
  {
    hide EdgeEntries, EdgeEntry, KeyOf, Newcomer, Enlist, FindKey;
    var p, first := SWAP.head, Begun(HOSTING);
    OnlyHosted(HOSTING.edges);
    NewcomerFacts();
    HostingIsMentioned(p, first, "alias");
    TwoEntries(p, first, ALIASED, NEWCOMER);
    assert {} + {IN_S} == {IN_S} && {} + {"alias"} == {"alias"};
    NewcomerEntered(EdgeEntry(AnyEnv(), CALLER, p, first, ALIASED));
  }

  lemma NewcomerIsStruck()
    ensures var d := Reconciled(AnyEnv(), CALLER, SWAP, HOSTING, SEEN, SWAP.edges);
            d.Draft? && d.changed && d.g == World(map["h" := HOSTED], d.g.lookups)
  {
    hide EdgeEntries, KeyOf, Reconciled, Delisted, Newcomer;
    var p := SWAP.head;
    OnlyHosted(HOSTING.edges);
    SwapEntered();
    NewcomerFacts();
    var d := EdgeEntries(AnyEnv(), CALLER, p, Begun(HOSTING), SWAP.edges);
    assert FindRelationship(d.g, "q") == Some("y");
    OneAbsence(p, d, "q");
    var a := Absence(p, d, "q");
    assert a.g.edges == HOSTING.edges;
    assert LeftOutIds(p, a) == {};
    SnapshotIs(SWAP, HOSTING, d, {});
    assert a.g.edges - {} == a.g.edges;
  }

  lemma SwapCommits()
    ensures var r := Publish(Under(HOSTING), AnyEnv(), CALLER, SWAP, SEEN, SWAP.edges, true);
            r.verdict == Committed && r.state.graph.edges == map["h" := HOSTED]
  {
    hide Reconciled, ValidTopology, Publish, KeyOf;
    NewcomerIsStruck();
    OnlyHosted(HOSTING.edges);
    var d := Reconciled(AnyEnv(), CALLER, SWAP, HOSTING, SEEN, SWAP.edges);
    SmallIsValid(d.g.(generation := 2));
    ModestCommits(HOSTING, SWAP, SEEN, SWAP.edges);
  }

  /** A snapshot that declares a name absent, reports its holder under an alias and files a new relationship under the
      name strikes the new one: the old one, which it declared absent, stays live. */
  lemma AbsenceStrikesNewcomer()
    ensures Structured(HOSTING) && KeysFound(SWAP, HOSTING) && AbsencesFound(SWAP, HOSTING)
    ensures !AbsencesDiffer(AnyEnv(), SWAP, HOSTING.edges)
    ensures var r := Publish(Under(HOSTING), AnyEnv(), CALLER, SWAP, SEEN, SWAP.edges, true);
            && r.verdict == Committed && DeclaredAbsent(SWAP, "q")
            && LiveIn(r.state.graph.edges, "d", "h") && r.state.graph.edges["h"].relationship == "q"
            && !ScopeExact(AnyEnv(), SWAP, HOSTING.edges, r.state.graph.edges)
  {
    hide Publish, Structured, KeysFound, AbsencesFound, ScopeExact, AbsencesDiffer;
    SwapCommits();
    HostingIsFound();
    SwapClashes();
    SnapshotIsExact(Under(HOSTING), AnyEnv(), CALLER, SWAP, SEEN, SWAP.edges, true);
  }

  lemma HostingIsFound()
    ensures Structured(HOSTING) && KeysFound(SWAP, HOSTING) && AbsencesFound(SWAP, HOSTING)
  {
    hide KeyOf, Shaped, ObservedKey;
    KeysAsStored();
    OnlyHosted(HOSTING.edges);
    WorldIsShaped(HOSTING.edges, map["n" := 1, "s" := 0]);
    EntryIsProposed(SWAP.head, Some("h"), "alias", HostedBy, "s");
    EntryIsProposed(SWAP.head, None, "q", AttachedTo, "t");
  }

  lemma SwapClashes()
    ensures !AbsencesDiffer(AnyEnv(), SWAP, HOSTING.edges)
  {
    hide KeyOf, ObservedKey;
    KeysAsStored();
    OnlyHosted(HOSTING.edges);
    EntryIsProposed(SWAP.head, Some("h"), "alias", HostedBy, "s");
    EntryIsProposed(SWAP.head, None, "q", AttachedTo, "t");
    assert KeyOf(HOSTING.edges["h"]) == IN_S;
    assert Holder(HOSTING.edges, IN_S) == Some("h") && Holder(HOSTING.edges, TO_T) == None;
    assert ALIASED in SWAP.edges && NEWCOMER in SWAP.edges && ALIASED != NEWCOMER;
    assert StoredName(AnyEnv(), SWAP.head, HOSTING.edges, ALIASED) == "q";
    assert StoredName(AnyEnv(), SWAP.head, HOSTING.edges, NEWCOMER) == "q";
    assert "q" in SWAP.absences;
  }

  // ---- A stale entry that is refused the second time -----------------------------------------------------

  /** A logical relationship on file with newer evidence, and the physical one a stale entry rests it on. */
  const KNOWN := Plainly("l", "lr", Contains, "s", "n", Logical).(evidence := 5)

  const SUPPORT := Plainly("k", "kr", Contains, "s", "t", Physical)

  const ON_FILE: Edges := map["l" := KNOWN, "k" := SUPPORT]

  const TO_N := EdgeKey(Contains, "s", "n", "d")
  const OVER_T := EdgeKey(Contains, "s", "t", "d")

  const FILE := World(ON_FILE, Lookups(map[TO_N := "l", OVER_T := "k"], map["lr" := "l", "kr" := "k"]))

  const STALE := ObservedEdge(
    Some("l"), "lr", Contains, "s", "n", Some(Logical), "", 1, "", Some("k"), None, false, [], true)

  const RELAYERED := ObservedEdge(
    Some("k"), "kr", Contains, "s", "t", Some(Logical), "", 2, "", None, None, false, [], true)

  const ENTRIES: seq<ObservedEdge> := [STALE, RELAYERED]

  const UPDATE := Report("one", Incremental, [], [], ENTRIES)

  const AGAIN := UPDATE.(head := UPDATE.head.(id := "two"))

  const WEAK := Candidate("l", "lr", Contains, "s", "n", Logical, "d", false, "", 1, Some("k"), None, false, "", [])

  const RESET := Candidate("k", "kr", Contains, "s", "t", Logical, "d", false, "", 2, None, None, false, "", [])

  const RESTATED := RestatedByPublication(CALLER, UPDATE.head, FILE, SUPPORT, RESET)

  const UPDATED: Edges := map["l" := KNOWN, "k" := RESTATED]

  lemma EntriesOnFile()
    ensures ObservedCandidate(AnyEnv(), UPDATE.head, STALE, Logical) == WEAK
    ensures ObservedCandidate(AnyEnv(), UPDATE.head, RELAYERED, Logical) == RESET
    ensures ResolveLayer(Contains, Some(Logical)) == Some(Logical)
    ensures ObservedKey(UPDATE.head, STALE) == MakeKey(Contains, "s", "n", "d") == TO_N
    ensures ObservedKey(UPDATE.head, RELAYERED) == MakeKey(Contains, "s", "t", "d") == OVER_T
    ensures KeyOf(KNOWN) == TO_N && KeyOf(SUPPORT) == OVER_T
  {
    hide Less;
  }

  lemma EdgesOnFile()
    ensures forall e :: e in ON_FILE ==> (e == "l" && ON_FILE[e] == KNOWN) || (e == "k" && ON_FILE[e] == SUPPORT)
    ensures "l" in ON_FILE && "k" in ON_FILE && ON_FILE["l"] == KNOWN && ON_FILE["k"] == SUPPORT
    ensures FindKey(FILE, TO_N) == Some("l")
    ensures FindKey(FILE, OVER_T) == Some("k")
  {
    hide Less;
    EntriesOnFile();
  }

  lemma WeakIsValid()
    ensures ValidateCandidate(FILE, WEAK, false) == Ok
  {
    hide Less, WouldCycle;
  }

  lemma ResetIsValid()
    ensures ValidateCandidate(FILE, RESET, false) == Ok
  {
    hide Less, WouldCycle;
  }

  lemma FirstIsStale(d: Draft)
    requires d.Draft? && d.g == FILE && d.keys == {} && d.names == {}
    ensures EdgeEntry(AnyEnv(), CALLER, UPDATE.head, d, STALE)
            == d.(keys := {TO_N}, names := {"lr"})
  {
    hide Less, ValidateCandidate, ObservedCandidate, MakeKey, RestatedByPublication;
    EntriesOnFile();
    EdgesOnFile();
    WeakIsValid();
  }

  lemma SecondRestates(d: Draft)
    requires d.Draft? && d.g == FILE && d.keys == {TO_N} && d.names == {"lr"}
    ensures var after := EdgeEntry(AnyEnv(), CALLER, UPDATE.head, d, RELAYERED);
            after.Draft? && after.g == FILE.(edges := UPDATED, lookups := after.g.lookups) && after.changed
  {
    hide Less, ValidateCandidate, ObservedCandidate, MakeKey, RestatedByPublication;
    EntriesOnFile();
    EdgesOnFile();
    ResetIsValid();
    assert ON_FILE["k" := RESTATED] == UPDATED;
  }

  lemma UpdateDraft()
    ensures var d := Reconciled(AnyEnv(), CALLER, UPDATE, FILE, [], ENTRIES);
            d.Draft? && d.changed && d.g == FILE.(edges := UPDATED, lookups := d.g.lookups)
  {
    hide EdgeEntry, RestatedByPublication, EdgeEntries, NodeEntries, Absences;
    var p, first := UPDATE.head, FirstDraft(FILE);
    NoEntries(p, first);
    FirstIsStale(first);
    TwoEntries(p, first, STALE, RELAYERED);
    SecondRestates(EdgeEntry(AnyEnv(), CALLER, p, first, STALE));
    NoEntries(p, EdgeEntries(AnyEnv(), CALLER, p, first, ENTRIES));
  }

  lemma RestatedFits()
    ensures RESTATED.id == "k" && RESTATED.from == "s" && RESTATED.to == "t" && Fits(RESTATED) && Fits(KNOWN)
    ensures Fits(SUPPORT) && RESTATED.layer == Logical && RESTATED.attachment == None && RESTATED.lifecycle == Current
    ensures KeyOf(RESTATED) == OVER_T
  {
    hide Less;
  }

  lemma EdgesOfUpdated()
    ensures forall e :: e in UPDATED ==> (e == "l" && UPDATED[e] == KNOWN) || (e == "k" && UPDATED[e] == RESTATED)
    ensures "l" in UPDATED && "k" in UPDATED && UPDATED["l"] == KNOWN && UPDATED["k"] == RESTATED
  {
    hide RestatedByPublication;
  }

  lemma UpdatedEdgesAreValid(g: Graph)
    requires g.nodes == NODES
    ensures EdgeValid(g, KNOWN) && EdgeValid(g, RESTATED)
  {
    assert g.nodes["n"] == Card("n") && g.nodes["s"] == Switch1("s") && g.nodes["t"] == Switch1("t");
  }

  lemma UpdatedIsValid(g: Graph)
    requires g.nodes == NODES && g.edges == UPDATED
    ensures ValidTopology(AnyEnv(), g)
  {
    hide Less, AcyclicWhereRequired, NodeValid, EdgeValid, RestatedByPublication, Shaped, KeyOf, Fits, MakeKey;
    NodesAreValid();
    EdgesOfUpdated();
    RestatedFits();
    EntriesOnFile();
    UpdatedEdgesAreValid(g);
    WorldIsShaped(UPDATED, map["s" := 1, "n" := 0, "t" := 0]);
  }

  lemma OnFileIsStructured()
    ensures Structured(FILE)
  {
    hide Less, AcyclicWhereRequired, Shaped;
    EdgesOnFile();
    RestatedFits();
    EntriesOnFile();
    WorldIsShaped(ON_FILE, map["s" := 1, "n" := 0, "t" := 0]);
  }

  lemma UpdateCommits()
    ensures var r := Publish(Under(FILE), AnyEnv(), CALLER, UPDATE, [], ENTRIES, true);
            r.verdict == Committed && r.state.graph.edges == UPDATED && r.state.ledger == ["one"]
  {
    hide Reconciled, ValidTopology, Publish, RestatedByPublication;
    UpdateDraft();
    var d := Reconciled(AnyEnv(), CALLER, UPDATE, FILE, [], ENTRIES);
    UpdatedIsValid(d.g.(generation := 2));
    ModestCommits(FILE, UPDATE, [], ENTRIES);
  }

  lemma UpdateCanRepeat()
    ensures CanRepeat(AnyEnv(), UPDATE, FILE) && KeysFound(UPDATE, FILE)
  {
    hide StoredName, ObservedKey, KeyOf;
    EntriesOnFile();
    EdgesOnFile();
  }

  lemma StaleLostSupport()
    ensures !StaleSupported(AnyEnv(), UPDATE, UPDATED)
  {
    hide Less, RestatedByPublication, ObservedCandidate, MakeKey;
    EdgesOfUpdated();
    EntriesOnFile();
    RestatedFits();
    var found := Holder(UPDATED, TO_N);
    assert found.Some? && found.value == "l";
    assert STALE in UPDATE.edges && IsStale(UPDATE.head, UPDATED, STALE);
    assert !Supported(AnyEnv(), UPDATE.head, UPDATED, STALE);
  }

  /** A publication commits, and the same content under a fresh identifier is
      refused: it moved the support of an entry that it skipped as stale. */
  lemma StaleEntryIsNotRepeated()
    ensures var r := Publish(Under(FILE), AnyEnv(), CALLER, UPDATE, [], ENTRIES, true);
            && r.verdict == Committed
            && Publish(r.state, AnyEnv(), CALLER, AGAIN, [], ENTRIES, true) == Refuse(r.state, RelationshipConflict)
  {
    hide Publish, Structured, CanRepeat, KeysFound, StaleSupported, RestatedByPublication;
    UpdateCommits();
    UpdateCanRepeat();
    StaleLostSupport();
    OnFileIsStructured();
    RepublicationIsIdempotent(Under(FILE), AnyEnv(), CALLER, UPDATE, AGAIN, [], ENTRIES, true);
  }
}
