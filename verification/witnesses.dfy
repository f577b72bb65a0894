/** Small concrete runs on which the runtime departs from what it promises, one for each departure of a mutation. */
module Witnesses {
  import opened Types
  import opened Paths
  import opened Graphs
  import opened GraphIndex
  import opened Authority
  import opened Mutations
  import opened MutationLaws
  import opened GraphStates
  import opened LookupLaws
  import opened Runs
  import opened StampLaws

  // ---- A stale roster ---------------------------------------------------------------------

  /** Filing and withdrawing any edge that reaches into an undeclared scope leaves that scope's empty roster behind. */
  lemma StaleRoster(e: Edge)
    requires Crosses(e) && e.secondary != e.domain
    ensures var ix := WithEdge(EMPTY, e);
            && Indexed(ix, {}, map[], map[e.id := e])
            && !Indexed(WithoutEdge(ix, {}, e), {}, map[], map[e.id := e] - {e.id})
  {
    hide Indexed, WithEdge, WithoutEdge;
    EmptyIsIndexed({}, map[]);
    var none: Edges := map[];
    assert none[e.id := e] == map[e.id := e];
    WithEdgeIndexed(EMPTY, {}, map[], none, e);
    WithoutEdgeIndexed(WithEdge(EMPTY, e), {}, map[], map[e.id := e], e.id);
  }

  // ---- Small topologies --------------------------------------------------------------------

  const NO_ONE := Provenance("", "", 1, UnknownSource, RealEvidence, 1, "", "", 1, 1)

  function Switch1(id: NodeId): Node {
    Node(id, id, SwitchEntity, 1, Switch, Unspecified, "d", 1, 1, 1, Current, NO_ONE, [])
  }

  function Card(id: NodeId): Node {
    Node(id, id, NicEntity, 1, Nic, Unspecified, "d", 1, 1, 1, Current, NO_ONE, [])
  }

  function Plainly(id: EdgeId, name: RelId, r: Relation, from: NodeId, to: NodeId, layer: Layer): Edge {
    Edge(id, name, r, from, to, layer, "d", false, "d", 1, 1, 1, 1, 1, 1, Current, None, None, None, NO_ONE, [])
  }

  /** A network card and two switches. */
  const NODES: Nodes := map["n" := Card("n"), "s" := Switch1("s"), "t" := Switch1("t")]

  function World(edges: Edges, lookups: Lookups): Graph {
    Graph(NODES, edges, lookups, 1, 0, map["d" := DomainDefinition("d", FabricScope, "", UnknownEntityClass, "")], [])
  }

  function Under(g: Graph): State {
    State(g, 1, map["p" := Publisher("b", 1, [ScopeGrant("d", AuthoritativeWrite)], false)], {}, [])
  }

  function At(edges: Edges, lookups: Lookups): State {
    Under(World(edges, lookups))
  }

  /** How the card may be related to a switch. */
  const TO_S := EdgeKey(AttachedTo, "n", "s", "d")
  const TO_T := EdgeKey(AttachedTo, "n", "t", "d")
  const IN_S := EdgeKey(HostedBy, "n", "s", "d")

  /** The card attached to the first switch. */
  const ATTACHED := Plainly("a", "r", AttachedTo, "n", "s", Physical)

  const ALONE: Edges := map["a" := ATTACHED]

  const STATE := At(ALONE, Lookups(map[TO_S := "a"], map["r" := "a"]))

  const CALLER := Context(1, "p", "b", 1, "")

  const BOUNDS := Limits(100, 100, 100, 100, 100, 100, 100, 100, 100, 100)

  const REGISTRY: map<string, EntityRecord> := map[
    "n" := EntityRecord(NicEntity, 1, false, false), "s" := EntityRecord(SwitchEntity, 1, false, false),
    "t" := EntityRecord(SwitchEntity, 1, false, false)]

  function AnyEnv(): Env {
    Env(Some(REGISTRY), BOUNDS, (s: string) => "x", (k: EdgeKey) => "y", (k: EdgeKey) => "q")
  }

  /** Every node is filed under the identity it is bound to. */
  lemma NodesOfWorld()
    ensures forall n :: n in NODES ==> n == "n" || n == "s" || n == "t"
    ensures forall n :: n in NODES ==> NODES[n].id == n && NODES[n].entity == n && NODES[n].domain == "d"
  {
  }

  lemma NodesInOrder()
    ensures NodesFiled(NODES) && EntitiesUnique(NODES) && NodeScopesDeclared(NODES, {"d"})
  {
    NodesOfWorld();
    FiledByEntity(NODES);
  }

  lemma FiledByEntity(nodes: Nodes)
    requires forall n :: n in nodes ==> nodes[n].id == n && nodes[n].entity == n && nodes[n].domain == "d"
    ensures NodesFiled(nodes) && EntitiesUnique(nodes) && NodeScopesDeclared(nodes, {"d"})
  {
  }

  /** An edge between two of the nodes, in scope, the way round it is stored. */
  predicate Fits(e: Edge) {
    e.from in NODES && e.to in NODES && e.domain == "d" && !e.crossDomain && !Swapped(e.relation, e.from, e.to)
  }

  /** A few edges that all lead downwards make a shaped graph. */
  lemma WorldIsShaped(edges: Edges, rank: map<NodeId, nat>)
    requires forall e :: e in edges ==> edges[e].id == e && Fits(edges[e])
    requires forall e :: e in edges ==>
      edges[e].from in rank && edges[e].to in rank && rank[edges[e].from] > rank[edges[e].to]
    ensures forall l :: Shaped(World(edges, l))
    ensures AcyclicWhereRequired(edges)
  {
    hide Less;
    NodesInOrder();
    assert World(edges, NO_LOOKUPS).domains.Keys == {"d"};
    forall r
      ensures Acyclic(LiveArcs(edges, r))
    {
      RankedIsAcyclic(LiveArcs(edges, r), rank);
    }
    ShapedAnyLookups(World(edges, NO_LOOKUPS));
  }

  lemma KeysAsStored()
    ensures MakeKey(AttachedTo, "n", "s", "d") == TO_S && MakeKey(AttachedTo, "n", "t", "d") == TO_T
    ensures MakeKey(HostedBy, "n", "s", "d") == IN_S && KeyOf(ATTACHED) == TO_S && KeyOf(HOSTED) == IN_S
  {
    hide Less;
  }

  lemma OnlyAttached()
    ensures forall e :: e in ALONE ==> e == "a" && ALONE[e] == ATTACHED
    ensures "a" in ALONE && ALONE["a"] == ATTACHED && Fits(ATTACHED)
  {
    hide Less;
  }

  lemma StateIsHealthy()
    ensures Healthy(STATE) && Complete(STATE.graph)
  {
    hide Less, AcyclicWhereRequired, Shaped, MakeKey;
    OnlyAttached();
    KeysAsStored();
    WorldIsShaped(ALONE, map["n" := 1, "s" := 0]);
  }

  lemma CallerIsGranted(m: GrantMode)
    ensures forall g :: CheckAuthority(Under(g), CALLER, "d", m) == Granted
  {
    var grants := [ScopeGrant("d", AuthoritativeWrite)];
    assert grants[0] == ScopeGrant("d", AuthoritativeWrite);
    assert Rank(GrantFor(grants, "d")) == 3;
  }

  lemma NoMetadata(limits: Limits)
    ensures MetadataOk([], limits)
  {
  }

  /** An attachment that conflicts with none may be filed between the card and a switch. */
  lemma AttachmentIsValid(g: Graph, k: Candidate)
    requires g.nodes == NODES && k.id != "" && k.relationship != "" && k.relation == AttachedTo && k.layer == Physical
    requires k.from == "n" && (k.to == "s" || k.to == "t") && k.supportedBy.None?
    requires !AttachmentConflict(g.edges, k)
    ensures ValidateCandidate(g, k, true) == Ok && ValidateCandidate(g, k, false) == Ok
  {
    hide AttachmentConflict, Reaches, LiveArcs;
    NodesOfWorld();
    assert NODES["n"] == Card("n") && NODES["s"] == Switch1("s") && NODES["t"] == Switch1("t");
  }

  // ---- A failed replacement ----------------------------------------------------------------------

  /** Advancing a node's entity generation without a durable write is refused, yet the node keeps the new binding. */
  lemma FailedReplacementLeavesResidue()
    ensures var op := Mutation(AnyEnv(), CALLER, ReplaceEndpoint("n", 2, "", false, 0, 0), false);
            && LeavesResidue(STATE, op)
            && Step(STATE, op).graph.nodes == NODES["n" := Card("n").(entityGeneration := 2)]
            && Step(STATE, op).graph.generation == 1
  {
    hide CheckAuthority, ReissueIncident, Refiled, FiledBack, ReissuedIds;
    CallerIsGranted(IncrementalWrite);
  }

  // ---- Moves ---------------------------------------------------------------------------------------

  /** A move of the only attachment, or of one that shares the card with a hosting, is in order when the key of its
      target is free or its own. */
  lemma MoveIsInOrder(edges: Edges, l: Lookups, r: Request)
    requires r.MoveAttachment? && r.edge == "a" && (r.target == "s" || r.target == "t") && r.slot != ""
    requires r.metadata == []
    requires r.domain == "" && r.expected == 0 && r.expectedEdge == 0 && r.newEdge.Some? && r.newEdge.value != ""
    requires "a" in edges && edges["a"] == ATTACHED
    requires forall e :: e in edges ==> edges[e].lifecycle == Current ==> e == "a" || edges[e].attachment.None?
    requires forall e :: e in edges && edges[e].relation == AttachedTo ==> e == "a"
    requires var clash := FindKey(World(edges, l), MakeKey(AttachedTo, "n", r.target, "d"));
             clash.None? || clash.value == "a"
    ensures MoveGuard(At(edges, l), AnyEnv(), CALLER, r) == Ok
  {
    hide CheckAuthority, MetadataOk, ValidateCandidate, MakeKey, FindKey;
    CallerIsGranted(IncrementalWrite);
    NoMetadata(BOUNDS);
    NodesOfWorld();
    var k := MovedCandidate(AnyEnv(), r, ATTACHED);
    assert !AttachmentConflict(edges, k);
    AttachmentIsValid(World(edges, l), k);
  }

  const MOVE := MoveAttachment("a", "t", "", Some("a"), 0, 0, 1, "slot", [])

  /** Moving an attachment under the identifier it already has is
      refused as an internal error, and erases the attachment. */
  lemma MoveOntoTakenIdErases()
    ensures var op := Mutation(AnyEnv(), CALLER, MOVE, true);
            && LeavesResidue(STATE, op) && KeepsKeys(STATE, op) && KeepsNames(STATE, op) && KeepsLookups(STATE, op)
            && "a" !in Step(STATE, op).graph.edges && Step(STATE, op).graph.generation == 1
  {
    hide MoveGuard, Enlist, Delist, MakeKey;
    OnlyAttached();
    KeysAsStored();
    MoveIsInOrder(ALONE, STATE.graph.lookups, MOVE);
    assert "a" !in ALONE - {"a"};
  }

  const STAY := MoveAttachment("a", "s", "", Some("z"), 0, 0, 1, "slot", [])

  lemma StayGuardPasses()
    ensures MoveGuard(STATE, AnyEnv(), CALLER, STAY) == Ok
  {
    hide MoveGuard, MakeKey;
    OnlyAttached();
    KeysAsStored();
    MoveIsInOrder(ALONE, STATE.graph.lookups, STAY);
  }

  /** Moving an attachment to its own target commits, and leaves two edges for one relationship. */
  lemma MoveToOwnTargetIsUnsound()
    ensures var r := DoMoveAttachment(STATE, AnyEnv(), CALLER, STAY, true);
            r.verdict == Committed && !Sound(r.state.graph)
  {
    hide MoveGuard, Shaped, NewEdge, KeysUnique, RelationshipsUnique, MakeKey, Enlist, Delist;
    StayGuardPasses();
    StateIsHealthy();
    OnlyAttached();
    KeysAsStored();
    MoveSoundExactlyWhenClean(STATE, AnyEnv(), CALLER, STAY, true);
  }

  // ---- A refused move that loses a name, and an addition that uses it again -----------------------------

  /** The card is also hosted by the switch, under the name that would be derived for its new attachment. */
  const HOSTED := Plainly("h", "q", HostedBy, "n", "s", Physical)

  const BOTH: Edges := map["a" := ATTACHED, "h" := HOSTED]

  /** Everything is found. */
  const PAIRED := Lookups(map[TO_S := "a", IN_S := "h"], map["r" := "a", "q" := "h"])

  /** The hosting is not found by its name. */
  const PARTED := Lookups(map[TO_S := "a", IN_S := "h"], map["r" := "a"])

  const GO := MoveAttachment("a", "t", "", Some("z"), 0, 0, 1, "slot", [])

  const GOING := Mutation(AnyEnv(), CALLER, GO, false)

  lemma EdgesOfBoth()
    ensures forall e :: e in BOTH ==> (e == "a" && BOTH[e] == ATTACHED) || (e == "h" && BOTH[e] == HOSTED)
    ensures "a" in BOTH && "h" in BOTH && BOTH["a"] == ATTACHED && BOTH["h"] == HOSTED
    ensures Fits(ATTACHED) && Fits(HOSTED)
  {
    hide Less;
  }

  lemma BothIsHealthy()
    ensures Healthy(At(BOTH, PAIRED)) && Healthy(At(BOTH, PARTED))
  {
    hide Shaped, MakeKey, AcyclicWhereRequired;
    EdgesOfBoth();
    KeysAsStored();
    WorldIsShaped(BOTH, map["n" := 1, "s" := 0]);
  }

  lemma PairIsComplete()
    ensures Complete(World(BOTH, PAIRED)) && !Complete(World(BOTH, PARTED))
  {
    hide MakeKey;
    EdgesOfBoth();
    KeysAsStored();
    assert FindRelationship(World(BOTH, PARTED), BOTH["h"].relationship) == None;
  }

  lemma GoGuardPasses()
    ensures MoveGuard(At(BOTH, PAIRED), AnyEnv(), CALLER, GO) == Ok
  {
    hide MoveGuard, MakeKey;
    EdgesOfBoth();
    KeysAsStored();
    MoveIsInOrder(BOTH, PAIRED, GO);
  }

  /** What the lookups are after the new attachment was filed and withdrawn again. */
  lemma PairIsParted(created: Edge)
    requires KeyOf(created) == TO_T && created.relationship == "q" && created.id == "z"
    ensures var e, e' := ATTACHED, SupersededEdge(ATTACHED, Some("z"));
            Relist(Delist(Enlist(Relist(PAIRED, e, e'), created), created), e', e) == PARTED
  {
    hide MakeKey;
    KeysAsStored();
    var e, e' := ATTACHED, SupersededEdge(ATTACHED, Some("z"));
    assert KeyOf(e') == TO_S;
    var one := Relist(PAIRED, e, e');
    assert one.keys == PAIRED.keys && one.names == PAIRED.names;
    var two := Delist(Enlist(one, created), created);
    assert two.keys == PAIRED.keys && two.names == PARTED.names;
    var three := Relist(two, e', e);
    assert three.keys == PARTED.keys && three.names == PARTED.names;
  }

  lemma GoIsUndone()
    ensures DoMoveAttachment(At(BOTH, PAIRED), AnyEnv(), CALLER, GO, false).state == At(BOTH, PARTED)
  {
    hide MoveGuard, MakeKey, NewEdge, Enlist, Delist, Relist;
    GoGuardPasses();
    EdgesOfBoth();
    KeysAsStored();
    var g := World(BOTH, PAIRED);
    var k := MovedCandidate(AnyEnv(), GO, ATTACHED);
    KeyOfNew(g, CALLER, k);
    PairIsParted(NewEdge(g, CALLER, k, RealEvidence, OperatorDeclaration));
  }

  /** A move that cannot be made durable is refused and leaves the topology as it was, yet
      its undoing loses the name of an edge it has nothing to do with. */
  lemma RefusedMoveLosesName()
    ensures Healthy(At(BOTH, PAIRED)) && Complete(World(BOTH, PAIRED)) && !KeepsLookups(At(BOTH, PAIRED), GOING)
    ensures Step(At(BOTH, PAIRED), GOING) == At(BOTH, PARTED) && !Complete(World(BOTH, PARTED))
  {
    hide Shaped, Complete, Mutate, DoMoveAttachment, KeysUnique, RelationshipsUnique, KeepsLookups;
    BothIsHealthy();
    PairIsComplete();
    GoIsUndone();
    MutateIs(At(BOTH, PAIRED), AnyEnv(), CALLER, GO, false);
    StepKeepsLookups(At(BOTH, PAIRED), GOING);
  }

  const REUSE := AddRelationship(Some("w"), "q", AttachedTo, "n", "t", None, "", 0, 1, None, None, false, false, [])

  const REUSING := Mutation(AnyEnv(), CALLER, REUSE, true)

  /** A request for a plain attachment of the card, under an identifier and a name of its own choice. */
  lemma AdditionIsInOrder(g: Graph, id: EdgeId, name: RelId, to: NodeId)
    requires g.nodes == NODES && "d" in g.domains && id != "" && name != "" && (to == "s" || to == "t")
    ensures var r := AddRelationship(Some(id), name, AttachedTo, "n", to, None, "", 0, 1, None, None, false, false, []);
            var k := Candidate(id, name, AttachedTo, "n", to, Physical, "d", false, "", 1, None, None, false, "", []);
            && AddGuard(Under(g), AnyEnv(), CALLER, r) == Ok && Asked(g, AnyEnv(), r) == Some(k)
            && ValidateCandidate(g, k, true) == Ok
  {
    hide CheckAuthority, MetadataOk, ValidateCandidate, Less, MakeKey;
    CallerIsGranted(IncrementalWrite);
    NoMetadata(BOUNDS);
    NodesOfWorld();
    assert NODES["n"] == Card("n") && NODES["s"] == Switch1("s") && NODES["t"] == Switch1("t");
    var k := Candidate(id, name, AttachedTo, "n", to, Physical, "d", false, "", 1, None, None, false, "", []);
    AttachmentIsValid(g, k);
  }

  lemma ReuseCommits()
    ensures Mutate(At(BOTH, PARTED), AnyEnv(), CALLER, REUSE, true).verdict == Committed
  {
    hide AddGuard, Asked, ValidateCandidate, MakeKey, NewEdge, Enlist, Delist;
    EdgesOfBoth();
    KeysAsStored();
    AdditionIsInOrder(World(BOTH, PARTED), "w", "q", "t");
  }

  /** From a state that is sound, but in which a refused move has lost a name, an addition commits that name again. */
  lemma LostNameIsUsedTwice()
    ensures Step(At(BOTH, PAIRED), GOING) == At(BOTH, PARTED) && Healthy(At(BOTH, PARTED))
    ensures !KeepsNames(At(BOTH, PARTED), REUSING)
    ensures !RelationshipsUnique(Step(At(BOTH, PARTED), REUSING).graph.edges)
  {
    hide Shaped, Mutate, Complete, AddGuard, Asked, KeysUnique, RelationshipsUnique, KeyOnlyFor, Sound, Structured;
    RefusedMoveLosesName();
    BothIsHealthy();
    ReuseCommits();
    EdgesOfBoth();
    AdditionIsInOrder(World(BOTH, PARTED), "w", "q", "t");
    var s := At(BOTH, PARTED);
    HealthyIsCoherent(s);
    HealthyNames(s);
    MutationLawful(s, AnyEnv(), CALLER, REUSE, true);
    assert !NameOnlyFor(BOTH, Asked(s.graph, AnyEnv(), REUSE).value);
  }

  lemma HealthyNames(s: State)
    requires Healthy(s)
    ensures RelationshipsUnique(s.graph.edges) && Shaped(s.graph)
  {
    hide Shaped, KeysUnique, RelationshipsUnique;
  }
}
