/** The reconciler: an untrusted publication folded into a draft of the topology, then committed whole or discarded. */
module Reconcile {
  import opened Types
  import opened Graphs
  import opened Authority
  import opened Mutations

  datatype ObservedNode = ObservedNode(
    nodeId: NodeId, entity: string, nodeClass: NodeClass, tier: Tier, domain: DomainId, metadata: Metadata,
    present: bool)

  datatype ObservedEdge = ObservedEdge(
    edgeId: Option<EdgeId>, relationship: RelId, relation: Relation, from: NodeId, to: NodeId, layer: Option<Layer>,
    domain: DomainId, evidence: Counter, sourceRelationship: string, supportedBy: Option<EdgeId>,
    attachment: Option<string>, exclusive: bool, metadata: Metadata, present: bool)

  datatype Header = Header(
    id: string, domain: DomainId, mode: Mode, evidenceType: EvidenceType, source: Source, evidence: Counter)

  datatype Publication = Publication(
    head: Header, expected: Counter, note: string, absences: seq<RelId>, nodes: seq<ObservedNode>,
    edges: seq<ObservedEdge>)

  /** The candidate graph and what has been mentioned so far; changed says whether any difference was recorded. */
  datatype Draft =
    | Rejected(outcome: Outcome)
    | Draft(g: Graph, nodeIds: set<NodeId>, entities: set<string>, keys: set<EdgeKey>, names: set<RelId>,
            changed: bool)

  function FirstDraft(g: Graph): Draft {
    Draft(g, {}, {}, {}, {}, false)
  }

  // ---- Observed nodes ----------------------------------------------------------------

  function ObservedId(env: Env, o: ObservedNode): NodeId {
    if o.nodeId != "" then o.nodeId else env.nodeIdOf(o.entity)
  }

  function PublishedProvenance(c: Context, p: Header, g: Graph): Provenance {
    Provenance(c.publisher, c.boot, c.epoch, p.source, p.evidenceType, p.evidence, "", p.id, g.generation, g.generation)
  }

  function PublishedNode(c: Context, p: Header, g: Graph, o: ObservedNode, id: NodeId, record: EntityRecord): Node {
    Node(id, o.entity, record.entityClass, record.generation, o.nodeClass, o.tier, p.domain, 1, g.generation,
        g.generation,
         Current, PublishedProvenance(c, p, g), o.metadata)
  }

  function RestatedNode(g: Graph, n: Node, o: ObservedNode, record: EntityRecord): Node {
    n.(entityGeneration := record.generation, tier := o.tier, metadata := o.metadata, lifecycle := Current,
       validated := g.generation, generation := Bump(n.generation))
  }

  predicate NodeSettled(n: Node, o: ObservedNode, record: EntityRecord) {
    n.entityGeneration == record.generation && n.tier == o.tier && n.nodeClass == o.nodeClass
        && n.metadata == o.metadata
    && n.lifecycle == Current
  }

  ghost function PlaceNode(env: Env, c: Context, p: Header, d: Draft, o: ObservedNode, id: NodeId, record: EntityRecord)
    : Draft
    requires d.Draft?
  {
    var g := d.g;
    if id !in g.nodes then
      if FindEntity(g.nodes, o.entity).Some? then Rejected(DuplicateIdentity)
      else if |g.nodes| >= env.limits.maxNodes then Rejected(ResourceLimit)
      else d.(g := g.(nodes := g.nodes[id := PublishedNode(c, p, g, o, id, record)]), changed := true)
    else
      var n := g.nodes[id];
      if n.entity != o.entity then Rejected(DuplicateIdentity)
      else if NodeSettled(n, o, record) then d
      else
        var moved := n.entityGeneration != record.generation;
        d.(g := g.(nodes := g.nodes[id := RestatedNode(g, n, o, record)],
                   edges := if moved then ReissueIncident(g.edges, id, record.generation) else g.edges,
                   lookups := if moved then Refiled(g.lookups, g.edges, ReissuedIds(g.edges, id)) else g.lookups),
           changed := true)
  }

  ghost function NodeEntry(env: Env, c: Context, p: Header, d: Draft, o: ObservedNode): Draft
    requires d.Draft?
  {
    var id := ObservedId(env, o);
    if o.domain != "" && o.domain != p.domain then Rejected(DomainViolation)
    else if o.nodeClass == UnknownNodeClass then Rejected(MalformedRequest)
    else if id in d.nodeIds then Rejected(DuplicateIdentity)
    else
      var noted := d.(nodeIds := d.nodeIds + {id});
      if !o.present then if p.mode == PartialObservation then Rejected(MalformedRequest) else noted
      else if o.entity in d.entities then Rejected(DuplicateIdentity)
      else if Lookup(env, o.entity).None? then Rejected(UnknownEntity)
      else
        var record := Lookup(env, o.entity).value;
        if record.retired then Rejected(EntityRetired)
        else if record.superseded then Rejected(EntitySuperseded)
        else if record.entityClass != EntityClassOf(o.nodeClass) then Rejected(IncompatibleEntityClass)
        else PlaceNode(env, c, p, noted.(entities := d.entities + {o.entity}), o, id, record)
  }

  ghost function NodeEntries(env: Env, c: Context, p: Header, d: Draft, os: seq<ObservedNode>): Draft {
    if os == [] then d
    else
      var before := NodeEntries(env, c, p, d, os[..|os| - 1]);
      if before.Rejected? then before else NodeEntry(env, c, p, before, os[|os| - 1])
  }

  // ---- Observed edges ----------------------------------------------------------------

  function ObservedKey(p: Header, o: ObservedEdge): EdgeKey {
    MakeKey(o.relation, o.from, o.to, p.domain)
  }

  function ObservedName(env: Env, p: Header, o: ObservedEdge): RelId {
    if o.relationship == "" then env.relIdOf(ObservedKey(p, o)) else o.relationship
  }

  function ObservedEdgeId(env: Env, p: Header, o: ObservedEdge): EdgeId {
    if o.edgeId.Some? then o.edgeId.value else env.edgeIdOf(ObservedKey(p, o))
  }

  function ObservedCandidate(env: Env, p: Header, o: ObservedEdge, layer: Layer): Candidate {
    var (from, to) := Normalize(o.relation, o.from, o.to);
    Candidate(ObservedEdgeId(env, p, o), ObservedName(env, p, o), o.relation, from, to, layer, p.domain, false, "",
              o.evidence, o.supportedBy, o.attachment, o.exclusive, o.sourceRelationship, o.metadata)
  }

  function PublishedEdge(c: Context, p: Header, g: Graph, k: Candidate): Edge
    requires k.from in g.nodes && k.to in g.nodes
  {
    NewEdge(g, c, k, p.evidenceType, p.source)
      .(provenance := PublishedProvenance(c, p, g).(sourceRelationship := k.sourceRelationship))
  }

  function RestatedByPublication(c: Context, p: Header, g: Graph, e: Edge, k: Candidate): Edge {
    e.(layer := k.layer, evidence := k.evidence, metadata := k.metadata, supportedBy := k.supportedBy,
       attachment := k.attachment, lifecycle := Current, validated := g.generation,
       provenance := PublishedProvenance(c, p, g).(
         evidence := k.evidence, created := e.provenance.created,
         sourceRelationship := if k.sourceRelationship != ""
             then k.sourceRelationship else e.provenance.sourceRelationship),
       generation := Bump(e.generation))
  }

  /** A relationship declared gone: erased by an authoritative snapshot, retired otherwise. */
  function RemoveEdge(p: Header, d: Draft, id: EdgeId): Draft
    requires d.Draft? && id in d.g.edges
  {
    var e := d.g.edges[id];
    if p.mode == AuthoritativeSnapshot then
      d.(g := d.g.(edges := d.g.edges - {id}, lookups := Delist(d.g.lookups, e)), changed := true)
    else
      d.(g := d.g.(edges := d.g.edges[id := RetiredEdge(e)], lookups := Relist(d.g.lookups, e, RetiredEdge(e))),
         changed := true)
  }

  function AbsentEdge(p: Header, d: Draft, key: EdgeKey): Draft
    requires d.Draft?
  {
    var found := FindKey(d.g, key);
    if p.mode == PartialObservation then Rejected(MalformedRequest)
    else if found.None? || !Live(d.g.edges[found.value]) then d
    else RemoveEdge(p, d, found.value)
  }

  ghost function PresentEdge(env: Env, c: Context, p: Header, d: Draft, k: Candidate): Draft
    requires d.Draft?
  {
    var g := d.g;
    var key := MakeKey(k.relation, k.from, k.to, k.domain);
    var byKey := FindKey(g, key);
    if k.relationship in d.names then Rejected(DuplicateIdentity)
    else if byKey.Some? && byKey.value != k.id then Rejected(DuplicateEdge)
    else if k.id in g.edges && KeyOf(g.edges[k.id]) != key then Rejected(DuplicateIdentity)
    else
      var valid := ValidateCandidate(g, k, byKey.None?);
      var noted := d.(names := d.names + {k.relationship});
      if valid != Ok then Rejected(valid)
      else if byKey.None? then
        if |g.edges| >= env.limits.maxEdges then Rejected(ResourceLimit)
        else if k.id in g.edges then noted.(changed := true) // nothing is filed, and nobody is told
        else
          var e := PublishedEdge(c, p, g, k);
          noted.(g := g.(edges := g.edges[k.id := e], lookups := Enlist(g.lookups, e)), changed := true)
      else
        var e := g.edges[k.id];
        if !Live(e) then Rejected(EntityRetired)
        else if e.evidence > k.evidence then
          if p.mode == AuthoritativeSnapshot then Rejected(StaleGeneration) else noted
        else if SameStatement(e, k) then noted
        else
          var e' := RestatedByPublication(c, p, g, e, k);
          noted.(g := g.(edges := g.edges[k.id := e'], lookups := Relist(g.lookups, e, e')), changed := true)
  }

  ghost function EdgeEntry(env: Env, c: Context, p: Header, d: Draft, o: ObservedEdge): Draft
    requires d.Draft?
  {
    var key := ObservedKey(p, o);
    if o.relation == UnknownRelation || o.from == "" || o.to == "" then Rejected(MalformedRequest)
    else if o.domain != "" && o.domain != p.domain then Rejected(DomainViolation)
    else if key in d.keys then Rejected(DuplicateIdentity)
    else
      var noted := d.(keys := d.keys + {key});
      if !o.present then AbsentEdge(p, noted, key)
      else if ResolveLayer(o.relation, o.layer).None? then Rejected(MalformedRequest)
      else PresentEdge(env, c, p, noted, ObservedCandidate(env, p, o, ResolveLayer(o.relation, o.layer).value))
  }

  ghost function EdgeEntries(env: Env, c: Context, p: Header, d: Draft, os: seq<ObservedEdge>): Draft {
    if os == [] then d
    else
      var before := EdgeEntries(env, c, p, d, os[..|os| - 1]);
      if before.Rejected? then before else EdgeEntry(env, c, p, before, os[|os| - 1])
  }

  // ---- Declared absences ---------------------------------------------------------------

  function Absence(p: Header, d: Draft, name: RelId): Draft
    requires d.Draft?
  {
    var found := FindRelationship(d.g, name);
    if name == "" || found.None? then d
    else
      var e := d.g.edges[found.value];
      if e.domain != p.domain || !Live(e) then d
      else RemoveEdge(p, d.(keys := d.keys + {KeyOf(e)}), found.value)
  }

  function Absences(p: Header, d: Draft, names: seq<RelId>): Draft {
    if names == [] then d
    else
      var before := Absences(p, d, names[..|names| - 1]);
      if before.Rejected? then before else Absence(p, before, names[|names| - 1])
  }

  // ---- Snapshot replacement --------------------------------------------------------------

  predicate LeftOut(p: Header, keys: set<EdgeKey>, e: Edge) {
    e.domain == p.domain && Live(e) && KeyOf(e) !in keys
  }

  predicate NodeLeftOut(p: Header, nodeIds: set<NodeId>, n: Node) {
    n.domain == p.domain && n.id !in nodeIds
  }

  function RetiredNode(n: Node): Node {
    n.(lifecycle := Retired, generation := Bump(n.generation))
  }

  function LeftOutIds(p: Header, d: Draft): set<EdgeId>
    requires d.Draft?
  {
    set e | e in d.g.edges && LeftOut(p, d.keys, d.g.edges[e])
  }

  function KeptEdges(p: Header, d: Draft): Edges
    requires d.Draft?
  {
    map e | e in d.g.edges && !LeftOut(p, d.keys, d.g.edges[e]) :: d.g.edges[e]
  }

  predicate Isolated(edges: Edges, n: NodeId) {
    forall e :: e in edges ==> !Touches(edges[e], n)
  }

  /** An unmentioned node is erased, or retired when another scope still has a relationship to it. */
  function KeptNodes(p: Header, d: Draft, edges: Edges): Nodes
    requires d.Draft?
  {
    map n | n in d.g.nodes && !(NodeLeftOut(p, d.nodeIds, d.g.nodes[n]) && Isolated(edges, n)) ::
      if NodeLeftOut(p, d.nodeIds, d.g.nodes[n]) then RetiredNode(d.g.nodes[n]) else d.g.nodes[n]
  }

  function ReplaceScope(p: Header, d: Draft): (r: Draft)
    requires d.Draft?
    ensures r.Draft?
  {
    var edges := KeptEdges(p, d);
    d.(g := d.g.(edges := edges, nodes := KeptNodes(p, d, edges),
                 lookups := Delisted(d.g.lookups, d.g.edges, LeftOutIds(p, d))),
       changed := d.changed || (exists e :: e in d.g.edges && LeftOut(p, d.keys, d.g.edges[e]))
                  || (exists n :: n in d.g.nodes && NodeLeftOut(p, d.nodeIds, d.g.nodes[n])))
  }

  // ---- The whole draft ---------------------------------------------------------------------

  ghost function Reconciled(env: Env, c: Context, p: Publication, g: Graph, nodes: seq<ObservedNode>,
                            edges: seq<ObservedEdge>): Draft
  {
    var afterNodes := NodeEntries(env, c, p.head, FirstDraft(g), nodes);
    if afterNodes.Rejected? then afterNodes
    else
      var afterEdges := EdgeEntries(env, c, p.head, afterNodes, edges);
      if afterEdges.Rejected? then afterEdges
      else
        var afterAbsences := Absences(p.head, afterEdges, p.absences);
        if afterAbsences.Rejected? then afterAbsences
        else if p.head.mode == AuthoritativeSnapshot then ReplaceScope(p.head, afterAbsences) else afterAbsences
  }

  // ---- Whole-graph validation ------------------------------------------------------------------

  predicate NodeValid(env: Env, n: Node) {
    && n.nodeClass != UnknownNodeClass && n.entity != "" && n.generation != 0
    && n.entityClass == EntityClassOf(n.nodeClass)
    && (env.directory.Some? ==>
          var record := Lookup(env, n.entity);
          record.Some? && InService(record.value) && record.value.entityClass == n.entityClass
          && (n.lifecycle == Current ==> record.value.generation == n.entityGeneration))
  }

  predicate ScopeValid(e: Edge, from: DomainId, to: DomainId) {
    (e.domain == from && e.domain == to)
    || (e.crossDomain && (e.domain == from || e.secondary == from) && (e.domain == to || e.secondary == to))
  }

  predicate EdgeValid(g: Graph, e: Edge) {
    && e.relation != UnknownRelation && e.from != e.to && LayerPermitted(e.relation, e.layer)
    && e.from in g.nodes && e.to in g.nodes
    && EndpointsPermitted(e.relation, g.nodes[e.from].nodeClass, g.nodes[e.to].nodeClass)
    && ScopeValid(e, g.nodes[e.from].domain, g.nodes[e.to].domain)
    && (e.lifecycle == Current ==>
          && EndpointsMatch(g, e, e.from, e.to)
          && g.nodes[e.from].lifecycle == Current && g.nodes[e.to].lifecycle == Current)
    && (e.supportedBy.Some? ==>
          e.supportedBy.value in g.edges && (e.layer == Logical ==> g.edges[e.supportedBy.value].layer == Physical))
    && e.supersededBy != Some(e.id)
  }

  predicate HoldsSlot(e: Edge) {
    e.attachment.Some? && e.lifecycle == Current && e.relation == AttachedTo
  }

  ghost predicate SlotsExclusive(edges: Edges) {
    forall d, e | d in edges && e in edges && HoldsSlot(edges[d]) && HoldsSlot(edges[e])
      :: edges[d].attachment == edges[e].attachment ==> d == e
  }

  ghost predicate ValidTopology(env: Env, g: Graph) {
    && (forall n :: n in g.nodes ==> NodeValid(env, g.nodes[n]))
    && (forall e :: e in g.edges ==> EdgeValid(g, g.edges[e]))
    && KeysUnique(g.edges)
    && SlotsExclusive(g.edges)
    && AcyclicWhereRequired(g.edges)
  }

  // ---- Publication --------------------------------------------------------------------------------

  predicate WellFormed(env: Env, p: Publication) {
    && p.head.id != "" && p.head.domain != "" && |p.note| <= env.limits.maxString
    && |p.nodes| <= env.limits.maxPublishedNodes && |p.edges| <= env.limits.maxPublishedEdges
    && |p.absences| <= env.limits.maxPublishedEdges
    && (forall i :: 0 <= i < |p.nodes| ==> MetadataOk(p.nodes[i].metadata, env.limits)
                                           && 0 < |p.nodes[i].entity| <= env.limits.maxIdentifier)
    && (forall i :: 0 <= i < |p.edges| ==> MetadataOk(p.edges[i].metadata, env.limits))
  }

  function RequiredGrant(p: Publication): GrantMode {
    if p.head.mode == AuthoritativeSnapshot then AuthoritativeWrite else IncrementalWrite
  }

  function PublishGuard(s: State, env: Env, c: Context, p: Publication): Outcome {
    if !WellFormed(env, p) then MalformedRequest
    else if p.head.domain !in s.graph.domains then DomainViolation
    else
      var granted := CheckAuthority(s, c, p.head.domain, RequiredGrant(p));
      if granted != Granted then AuthorityOutcome(granted)
      else if Stale(p.expected, s.graph.generation) then StaleGeneration
      else Ok
  }

  /** Publish a publication whose entries are processed in the given orders. */
  ghost function Publish(s: State, env: Env, c: Context, p: Publication, nodes: seq<ObservedNode>,
                         edges: seq<ObservedEdge>, persisted: bool): Result
  {
    if PublishGuard(s, env, c, p) != Ok then Refuse(s, PublishGuard(s, env, c, p))
    else if p.head.id in s.ledger then Result(s, Idempotent)
    else
      var d := Reconciled(env, c, p, s.graph, nodes, edges);
      if d.Rejected? then Refuse(s, d.outcome)
      else if !d.changed then Result(s.(ledger := Record(s.ledger, p.head.id)), Idempotent)
      else if !CanAdvance(d.g.generation) then Refuse(s, ResourceLimit)
      else
        var g := d.g.(generation := d.g.generation + 1);
        if !ValidTopology(env, g) then Refuse(s, StructuralInvariantViolation)
        else if !persisted then Refuse(s, PersistenceIoFailure)
        else Result(s.(graph := g, ledger := Record(s.ledger, p.head.id)), Committed)
  }
}
