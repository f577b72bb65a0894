/** Single-entity mutations as steps of the runtime state. */
module Mutations {
  import opened Types
  import opened Graphs
  import opened Authority

  datatype Request =
    | AddNode(nodeId: Option<NodeId>, entity: string, nodeClass: NodeClass, tier: Tier, domain: DomainId,
              expected: Counter, metadata: Metadata)
    | RemoveNode(node: NodeId, expected: Counter, cascade: bool)
    | AddRelationship(edgeId: Option<EdgeId>, relationship: RelId, relation: Relation, from: NodeId, to: NodeId,
                      layer: Option<Layer>, domain: DomainId, expected: Counter, evidence: Counter,
                      supportedBy: Option<EdgeId>, attachment: Option<string>, exclusive: bool, allowCross: bool,
                      metadata: Metadata)
    | UpdateEvidence(edge: EdgeId, evidence: Counter, lifecycle: Lifecycle, expected: Counter, expectedEdge: Counter,
                     replaceMetadata: bool, metadata: Metadata)
    | Revalidate(edge: EdgeId, evidence: Counter, expected: Counter)
    | Supersede(edge: EdgeId, replacement: Option<EdgeId>, expected: Counter)
    | Retire(edge: EdgeId, expected: Counter)
    | MoveAttachment(edge: EdgeId, target: NodeId, domain: DomainId, newEdge: Option<EdgeId>, expected: Counter,
                     expectedEdge: Counter, evidence: Counter, slot: string, metadata: Metadata)
    | ReplaceEndpoint(node: NodeId, newGeneration: Counter, successor: string, rebind: bool, expectedNode: Counter,
                      expected: Counter)

  // ---- Shared pieces -------------------------------------------------------------

  predicate ControlFree(text: string) {
    forall i :: 0 <= i < |text| ==> text[i] >= ' ' && text[i] != '\U{007F}'
  }

  function TotalBytes(items: Metadata): nat {
    if items == [] then 0 else TotalBytes(items[1..]) + |items[0].0| + |items[0].1|
  }

  predicate MetadataOk(items: Metadata, limits: Limits) {
    && |items| <= limits.maxMetadataEntries
    && (forall i :: 0 <= i < |items| ==>
          && 0 < |items[i].0| <= limits.maxMetadataKey && |items[i].1| <= limits.maxMetadataValue
          && ControlFree(items[i].0) && ControlFree(items[i].1))
    && (forall i, j :: 0 <= i < j < |items| ==> items[i].0 != items[j].0)
    && TotalBytes(items) <= limits.maxMetadataTotal
  }

  /** A caller that names the generation it builds on must name the present one. */
  predicate Stale(expected: Counter, actual: Counter) {
    expected != 0 && expected != actual
  }

  /** The tail of every mutation: it advances the generation by one and becomes durable, or it never happened. */
  function Finish(s: State, nodes: Nodes, edges: Edges, lookups: Lookups, undone: Lookups, persisted: bool): Result {
    if !CanAdvance(s.graph.generation) then Refuse(WithLookups(s, undone), ResourceLimit)
    else if !persisted then Refuse(WithLookups(s, undone), PersistenceIoFailure)
    else
      Result(s.(graph := s.graph.(nodes := nodes, edges := edges, lookups := lookups,
                                  generation := s.graph.generation + 1)), Committed)
  }

  /** The same topology, found differently. */
  function WithLookups(s: State, lookups: Lookups): State {
    s.(graph := s.graph.(lookups := lookups))
  }

  /** Finish after replacing one edge. */
  function FinishEdge(s: State, id: EdgeId, e: Edge, persisted: bool): Result
    requires id in s.graph.edges
  {
    var g := s.graph;
    var filed := Relist(g.lookups, g.edges[id], e);
    Finish(s, g.nodes, g.edges[id := e], filed, Relist(filed, e, g.edges[id]), persisted)
  }

  /** Finish after filing one edge. */
  function FinishNewEdge(s: State, e: Edge, persisted: bool): Result {
    var filed := Enlist(s.graph.lookups, e);
    Finish(s, s.graph.nodes, s.graph.edges[e.id := e], filed, Delist(filed, e), persisted)
  }

  /** What is left when a new edge cannot be filed: the undo log erases the edge that was in the way. */
  function FailedFiling(s: State, id: EdgeId): Result
    requires id in s.graph.edges
  {
    var g := s.graph;
    Refuse(s.(graph := g.(edges := g.edges - {id}, lookups := Delist(g.lookups, g.edges[id]))), InternalError)
  }

  function ProvenanceOf(c: Context, source: Source, evidenceType: EvidenceType, evidence: Counter, generation: Counter)
    : Provenance
  {
    Provenance(c.publisher, c.boot, c.epoch, source, evidenceType, evidence, "", c.publication, generation, generation)
  }

  // ---- Nodes -----------------------------------------------------------------------

  /** An edge whose endpoint moved to another entity generation is rebound explicitly and must be revalidated. */
  function Rebound(e: Edge, n: NodeId, generation: Counter): Edge {
    e.(fromGeneration := if e.from == n then generation else e.fromGeneration,
       toGeneration := if e.from != n then generation else e.toGeneration,
       lifecycle := RevalidationRequired, generation := Bump(e.generation))
  }

  predicate AlreadyRebound(e: Edge, n: NodeId, generation: Counter) {
    e.lifecycle == RevalidationRequired && (if e.from == n then e.fromGeneration else e.toGeneration) == generation
  }

  function FencedIds(edges: Edges, n: NodeId, generation: Counter): set<EdgeId> {
    set e | e in edges && Touches(edges[e], n) && Live(edges[e]) && !AlreadyRebound(edges[e], n, generation)
  }

  function FenceIncident(edges: Edges, n: NodeId, generation: Counter): Edges {
    map e | e in edges ::
      if Touches(edges[e], n) && Live(edges[e]) && !AlreadyRebound(edges[e], n, generation)
      then Rebound(edges[e], n, generation) else edges[e]
  }

  function NewNode(g: Graph, c: Context, id: NodeId, r: Request, record: EntityRecord): Node
    requires r.AddNode?
  {
    Node(id, r.entity, record.entityClass, record.generation, r.nodeClass, r.tier, r.domain, 1, g.generation,
        g.generation,
         Current, ProvenanceOf(c, OperatorDeclaration, RealEvidence, c.evidence, g.generation), r.metadata)
  }

  function RefreshedNode(g: Graph, n: Node, r: Request, record: EntityRecord): Node
    requires r.AddNode?
  {
    n.(entityGeneration := record.generation, tier := r.tier, metadata := r.metadata, lifecycle := Current,
       generation := Bump(n.generation), validated := g.generation)
  }

  /** Replace a node; when its entity generation has moved, its live edges must be revalidated. */
  function Refresh(s: State, n: Node, moved: bool, persisted: bool): Result {
    var g := s.graph;
    if moved then
      var ids := FencedIds(g.edges, n.id, n.entityGeneration);
      var filed := Refiled(g.lookups, g.edges, ids);
      Finish(s, g.nodes[n.id := n], FenceIncident(g.edges, n.id, n.entityGeneration), filed,
             FiledBack(filed, g.edges, ids), persisted)
    else Finish(s, g.nodes[n.id := n], g.edges, g.lookups, g.lookups, persisted)
  }

  ghost function DoAddNode(s: State, env: Env, c: Context, r: Request, persisted: bool): Result
    requires r.AddNode?
  {
    var g := s.graph;
    if r.entity == "" then Refuse(s, MalformedRequest)
    else if |r.entity| > env.limits.maxIdentifier then Refuse(s, ResourceLimit)
    else if r.nodeClass == UnknownNodeClass || r.domain == "" || !MetadataOk(r.metadata, env.limits) then
      Refuse(s, MalformedRequest)
    else if r.domain !in g.domains then Refuse(s, DomainViolation)
    else
      var granted := CheckAuthority(s, c, r.domain, IncrementalWrite);
      if granted != Granted then Refuse(s, AuthorityOutcome(granted))
      else if Stale(r.expected, g.generation) then Refuse(s, StaleGeneration)
      else if Lookup(env, r.entity).None? then Refuse(s, UnknownEntity)
      else
        var record := Lookup(env, r.entity).value;
        if record.retired then Refuse(s, EntityRetired)
        else if record.superseded then Refuse(s, EntitySuperseded)
        else if record.entityClass != EntityClassOf(r.nodeClass) then Refuse(s, IncompatibleEntityClass)
        else
          var id := if r.nodeId.Some? then r.nodeId.value else env.nodeIdOf(r.entity);
          if id == "" then Refuse(s, MalformedRequest)
          else if id in g.nodes then
            var n := g.nodes[id];
            if n.entity != r.entity then Refuse(s, DuplicateIdentity)
            else if n.entityGeneration == record.generation && n.tier == r.tier && n.metadata == r.metadata
                    && n.lifecycle == Current then Result(s, Idempotent)
            else Refresh(s, RefreshedNode(g, n, r, record), n.entityGeneration != record.generation, persisted)
          else if FindEntity(g.nodes, r.entity).Some? then Refuse(s, DuplicateIdentity)
          else if |g.nodes| >= env.limits.maxNodes then Refuse(s, ResourceLimit)
          else
            Finish(s, g.nodes[id := NewNode(g, c, id, r, record)], g.edges, g.lookups, g.lookups, persisted)
  }

  function IncidentIds(edges: Edges, n: NodeId): set<EdgeId> {
    set e | e in edges && Touches(edges[e], n)
  }

  function WithoutIncident(edges: Edges, n: NodeId): Edges {
    map e | e in edges && !Touches(edges[e], n) :: edges[e]
  }

  ghost function DoRemoveNode(s: State, c: Context, r: Request, persisted: bool): Result
    requires r.RemoveNode?
  {
    var g := s.graph;
    if r.node == "" then Refuse(s, MalformedRequest)
    else if r.node !in g.nodes then Refuse(s, NotFound)
    else
      var granted := CheckAuthority(s, c, g.nodes[r.node].domain, AuthoritativeWrite);
      if granted != Granted then Refuse(s, AuthorityOutcome(granted))
      else if Stale(r.expected, g.generation) then Refuse(s, StaleGeneration)
      else if !r.cascade && exists e :: e in g.edges && Touches(g.edges[e], r.node) then
        Refuse(s, StructuralInvariantViolation)
      else
        var ids := IncidentIds(g.edges, r.node);
        var left := Delisted(g.lookups, g.edges, ids);
        Finish(s, g.nodes - {r.node}, WithoutIncident(g.edges, r.node), left, FiledBack(left, g.edges, ids), persisted)
  }

  // ---- Relationship validation -------------------------------------------------------

  datatype Candidate = Candidate(
    id: EdgeId, relationship: RelId, relation: Relation, from: NodeId, to: NodeId, layer: Layer, domain: DomainId,
    crossDomain: bool, secondary: DomainId, evidence: Counter, supportedBy: Option<EdgeId>, attachment: Option<string>,
    exclusive: bool, sourceRelationship: string, metadata: Metadata)

  /** A current relationship that stands in the way of the attachment the candidate wants for itself. */
  predicate Occupies(e: Edge, k: Candidate) {
    e.id != k.id && e.lifecycle == Current && e.attachment.Some?
    && ((e.attachment == k.attachment && !(e.from == k.from && e.to == k.to))
        || (e.relation == AttachedTo && e.from == k.from))
  }

  predicate AttachmentConflict(edges: Edges, k: Candidate) {
    k.exclusive && k.attachment.Some? && exists e :: e in edges && Occupies(edges[e], k)
  }

  ghost function ValidateCandidate(g: Graph, k: Candidate, isNew: bool): Outcome {
    if k.relation == UnknownRelation || k.id == "" || k.relationship == "" then MalformedRequest
    else if k.from !in g.nodes || k.to !in g.nodes then UnknownEntity
    else
      var from, to := g.nodes[k.from], g.nodes[k.to];
      if from.lifecycle == Retired then EntityRetired
      else if from.lifecycle == Superseded then EntitySuperseded
      else if to.lifecycle == Retired then EntityRetired
      else if to.lifecycle == Superseded then EntitySuperseded
      else if !EndpointsPermitted(k.relation, from.nodeClass, to.nodeClass) then IncompatibleEntityClass
      else if !LayerPermitted(k.relation, k.layer) then MalformedRequest
      else if k.from == k.to then InvalidEndpoint
      else if k.supportedBy.Some? && k.supportedBy.value !in g.edges then UnknownEntity
      else if k.supportedBy == Some(k.id) then CycleRejected
      else if k.supportedBy.Some? && k.layer == Logical && g.edges[k.supportedBy.value].layer != Physical then
        RelationshipConflict
      else if AttachmentConflict(g.edges, k) then RelationshipConflict
      else if isNew && WouldCycle(g.edges, k.relation, k.from, k.to) then CycleRejected
      else Ok
  }

  // ---- Scope resolution ---------------------------------------------------------------

  datatype Scope = NoScope | InDomain(domain: DomainId) | Crossing(domain: DomainId, secondary: DomainId)

  predicate RulePermits(rules: seq<CrossDomainRule>, from: DomainId, to: DomainId, r: Relation) {
    exists i :: 0 <= i < |rules| && rules[i].relation == r &&
      ((rules[i].from == from && rules[i].to == to) || (rules[i].symmetric && rules[i].from == to
          && rules[i].to == from))
  }

  function ResolveScope(rules: seq<CrossDomainRule>, from: DomainId, to: DomainId, requested: DomainId, r: Relation,
                        allowCross: bool): Scope {
    if from == "" || to == "" then NoScope
    else if from == to then if requested != "" && requested != from then NoScope else InDomain(from)
    else if !allowCross || requested == "" || (requested != from && requested != to) then NoScope
    else if !RulePermits(rules, from, to, r) then NoScope
    else Crossing(requested, if requested == from then to else from)
  }

  // ---- Relationships -------------------------------------------------------------------

  function NewEdge(g: Graph, c: Context, k: Candidate, evidenceType: EvidenceType, source: Source): Edge
    requires k.from in g.nodes && k.to in g.nodes
  {
    Edge(k.id, k.relationship, k.relation, k.from, k.to, k.layer, k.domain, k.crossDomain,
         if k.crossDomain then k.secondary else k.domain, 1, g.generation, g.generation, k.evidence,
         g.nodes[k.from].entityGeneration, g.nodes[k.to].entityGeneration, Current, k.supportedBy, None, k.attachment,
         ProvenanceOf(c, source, evidenceType, k.evidence, g.generation).(sourceRelationship := k.sourceRelationship),
         k.metadata)
  }

  /** Restating an existing relationship makes it current again under
      its new binding; provenance keeps its publisher. */
  function RestatedEdge(g: Graph, e: Edge, k: Candidate): Edge
    requires k.from in g.nodes && k.to in g.nodes
  {
    e.(relationship := k.relationship, layer := k.layer, evidence := k.evidence, metadata := k.metadata,
       supportedBy := k.supportedBy, attachment := k.attachment, lifecycle := Current,
       fromGeneration := g.nodes[k.from].entityGeneration, toGeneration := g.nodes[k.to].entityGeneration,
       validated := g.generation,
       provenance := e.provenance.(evidence := k.evidence, validated := g.generation),
       generation := Bump(e.generation))
  }

  predicate SameStatement(e: Edge, k: Candidate) {
    e.layer == k.layer && e.evidence == k.evidence && e.lifecycle == Current && e.metadata == k.metadata
    && e.supportedBy == k.supportedBy && e.attachment == k.attachment
  }

  predicate EndpointsMatch(g: Graph, e: Edge, from: NodeId, to: NodeId)
    requires from in g.nodes && to in g.nodes
  {
    e.fromGeneration == g.nodes[from].entityGeneration && e.toGeneration == g.nodes[to].entityGeneration
  }

  function CandidateOf(env: Env, r: Request, from: NodeId, to: NodeId, layer: Layer, scope: Scope): Candidate
    requires r.AddRelationship? && !scope.NoScope?
  {
    var key := MakeKey(r.relation, from, to, scope.domain);
    Candidate(if r.edgeId.Some? then r.edgeId.value else env.edgeIdOf(key),
              if r.relationship == "" then env.relIdOf(key) else r.relationship,
              r.relation, from, to, layer, scope.domain, scope.Crossing?,
              if scope.Crossing? then scope.secondary else "", r.evidence, r.supportedBy, r.attachment, r.exclusive, "",
              r.metadata)
  }

  /** The identity, lifecycle and validation part of adding a relationship, once scope and authority are settled. */
  ghost function ApplyCandidate(s: State, c: Context, k: Candidate, persisted: bool): Result
    requires k.from in s.graph.nodes && k.to in s.graph.nodes
  {
    var g := s.graph;
    var byKey := FindKey(g, MakeKey(k.relation, k.from, k.to, k.domain));
    var byRelationship := FindRelationship(g, k.relationship);
    if k.id == "" || k.relationship == "" then Refuse(s, MalformedRequest)
    else if byKey.Some? && byKey.value != k.id then Refuse(s, DuplicateEdge)
    else if k.id in g.edges && KeyOf(g.edges[k.id]) != MakeKey(k.relation, k.from, k.to, k.domain) then
      Refuse(s, DuplicateIdentity)
    else if byRelationship.Some? && byRelationship.value != k.id then Refuse(s, DuplicateIdentity)
    else if byKey.Some? && !Live(g.edges[k.id]) then Refuse(s, EntityRetired)
    else if byKey.Some? && SameStatement(g.edges[k.id], k) && EndpointsMatch(g, g.edges[k.id], k.from, k.to) then
      Result(s, Idempotent)
    else
      var valid := ValidateCandidate(g, k, byKey.None?);
      if valid != Ok then Refuse(s, valid)
      else if byKey.Some? then FinishEdge(s, k.id, RestatedEdge(g, g.edges[k.id], k), persisted)
      else if k.id in g.edges then FailedFiling(s, k.id)
      else FinishNewEdge(s, NewEdge(g, c, k, RealEvidence, OperatorDeclaration), persisted)
  }

  /** The relationship a request asks for, when its endpoints exist and its layer and scope can be settled. */
  function Asked(g: Graph, env: Env, r: Request): (k: Option<Candidate>)
    requires r.AddRelationship?
    ensures k.Some? ==> k.value.from in g.nodes && k.value.to in g.nodes
  {
    if r.from !in g.nodes || r.to !in g.nodes || ResolveLayer(r.relation, r.layer).None? then None
    else
      var (from, to) := Normalize(r.relation, r.from, r.to);
      var scope := ResolveScope(g.rules, g.nodes[from].domain, g.nodes[to].domain, r.domain, r.relation, r.allowCross);
      if scope.NoScope? then None
      else Some(CandidateOf(env, r, from, to, ResolveLayer(r.relation, r.layer).value, scope))
  }

  /** The checks before identity: the request, its scope, and the authority in every scope it touches. */
  function AddGuard(s: State, env: Env, c: Context, r: Request): (o: Outcome)
    requires r.AddRelationship?
    ensures o == Ok ==> Asked(s.graph, env, r).Some?
  {
    var g := s.graph;
    if r.relation == UnknownRelation || r.from == "" || r.to == "" || !MetadataOk(r.metadata, env.limits) then
      MalformedRequest
    else if r.from !in g.nodes || r.to !in g.nodes then UnknownEntity
    else if ResolveLayer(r.relation, r.layer).None? then MalformedRequest
    else if Asked(g, env, r).None? then DomainViolation
    else
      var k := Asked(g, env, r).value;
      var first := CheckAuthority(s, c, k.domain, IncrementalWrite);
      var granted := if first == Granted && k.crossDomain
                     then CheckAuthority(s, c, k.secondary, IncrementalWrite) else first;
      if granted != Granted then AuthorityOutcome(granted)
      else if Stale(r.expected, g.generation) then StaleGeneration
      else Ok
  }

  ghost function DoAddRelationship(s: State, env: Env, c: Context, r: Request, persisted: bool): Result
    requires r.AddRelationship?
  {
    var guard := AddGuard(s, env, c, r);
    if guard != Ok then Refuse(s, guard) else ApplyCandidate(s, c, Asked(s.graph, env, r).value, persisted)
  }

  // ---- Evidence ---------------------------------------------------------------------------

  predicate RegistryMoved(env: Env, n: Node) {
    var record := Lookup(env, n.entity);
    record.None? || !InService(record.value) || record.value.generation != n.entityGeneration
  }

  /** Why an edge cannot be declared current again: its endpoints, or the registry behind them, have moved on. */
  function CurrentnessBlocked(g: Graph, env: Env, e: Edge): Outcome {
    if e.from !in g.nodes || e.to !in g.nodes then StructuralInvariantViolation
    else if env.directory.Some? && (RegistryMoved(env, g.nodes[e.from]) || RegistryMoved(env, g.nodes[e.to])) then
      StaleEntityGeneration
    else if !EndpointsMatch(g, e, e.from, e.to) then StaleEntityGeneration
    else Ok
  }

  function WithEvidence(g: Graph, c: Context, e: Edge, evidence: Counter, lifecycle: Lifecycle,
                        metadata: Option<Metadata>)
    : Edge
  {
    var p := e.provenance.(evidence := evidence, validated := g.generation);
    e.(evidence := evidence, lifecycle := lifecycle,
       metadata := if metadata.Some? then metadata.value else e.metadata,
       provenance := if lifecycle == Current then p.(publisher := c.publisher, boot := c.boot, epoch := c.epoch) else p,
       validated := g.generation, generation := Bump(e.generation))
  }

  function ChangeEvidence(s: State, env: Env, c: Context, id: EdgeId, evidence: Counter, lifecycle: Lifecycle,
                          expected: Counter, expectedEdge: Counter, metadata: Option<Metadata>, persisted: bool): Result
  {
    var g := s.graph;
    if id !in g.edges then Refuse(s, NotFound)
    else
      var e := g.edges[id];
      var granted := CheckAuthority(s, c, e.domain, IncrementalWrite);
      if granted != Granted then Refuse(s, AuthorityOutcome(granted))
      else if Stale(expected, g.generation) || Stale(expectedEdge, e.generation) then Refuse(s, StaleGeneration)
      else if e.lifecycle == Retired then Refuse(s, EntityRetired)
      else if e.lifecycle == Superseded then Refuse(s, EntitySuperseded)
      else if lifecycle == Current && CurrentnessBlocked(g, env, e) != Ok then Refuse(s, CurrentnessBlocked(g, env, e))
      else if e.evidence == evidence && e.lifecycle == lifecycle
          && (metadata.None? || e.metadata == metadata.value) then
        Result(s, Idempotent)
      else FinishEdge(s, id, WithEvidence(g, c, e, evidence, lifecycle, metadata), persisted)
  }

  function DoUpdateEvidence(s: State, env: Env, c: Context, r: Request, persisted: bool): Result
    requires r.UpdateEvidence?
  {
    if !MetadataOk(r.metadata, env.limits) || Dead(r.lifecycle) then Refuse(s, MalformedRequest)
    else
      ChangeEvidence(s, env, c, r.edge, r.evidence, r.lifecycle, r.expected, r.expectedEdge,
                     if r.replaceMetadata then Some(r.metadata) else None, persisted)
  }

  // ---- Supersede and retire ---------------------------------------------------------------

  function SupersededEdge(e: Edge, replacement: Option<EdgeId>): Edge {
    e.(lifecycle := Superseded, supersededBy := replacement, generation := Bump(e.generation))
  }

  function DoSupersede(s: State, c: Context, r: Request, persisted: bool): Result
    requires r.Supersede?
  {
    var g := s.graph;
    if r.edge == "" then Refuse(s, MalformedRequest)
    else if r.edge !in g.edges then Refuse(s, NotFound)
    else
      var e := g.edges[r.edge];
      var granted := CheckAuthority(s, c, e.domain, IncrementalWrite);
      if granted != Granted then Refuse(s, AuthorityOutcome(granted))
      else if Stale(r.expected, g.generation) then Refuse(s, StaleGeneration)
      else if e.lifecycle == Superseded && e.supersededBy == r.replacement then Result(s, Idempotent)
      else if e.lifecycle == Retired then Refuse(s, EntityRetired)
      else if r.replacement.Some? && r.replacement.value !in g.edges then Refuse(s, NotFound)
      else if r.replacement == Some(r.edge) then Refuse(s, CycleRejected)
      else if r.replacement.Some? && g.edges[r.replacement.value].lifecycle != Current then
        Refuse(s, RelationshipConflict)
      else
        FinishEdge(s, r.edge, SupersededEdge(e, r.replacement), persisted)
  }

  function RetiredEdge(e: Edge): Edge {
    e.(lifecycle := Retired, generation := Bump(e.generation))
  }

  function DoRetire(s: State, c: Context, r: Request, persisted: bool): Result
    requires r.Retire?
  {
    var g := s.graph;
    if r.edge == "" then Refuse(s, MalformedRequest)
    else if r.edge !in g.edges then Refuse(s, NotFound)
    else
      var e := g.edges[r.edge];
      var granted := CheckAuthority(s, c, e.domain, IncrementalWrite);
      if granted != Granted then Refuse(s, AuthorityOutcome(granted))
      else if Stale(r.expected, g.generation) then Refuse(s, StaleGeneration)
      else if e.lifecycle == Retired then Result(s, Idempotent)
      else FinishEdge(s, r.edge, RetiredEdge(e), persisted)
  }

  // ---- Moving an attachment ------------------------------------------------------------------

  function MovedCandidate(env: Env, r: Request, e: Edge): Candidate
    requires r.MoveAttachment?
  {
    var key := MakeKey(AttachedTo, e.from, r.target, e.domain);
    Candidate(if r.newEdge.Some? then r.newEdge.value else env.edgeIdOf(key), env.relIdOf(key),
        AttachedTo, e.from, r.target,
              Physical, e.domain, false, "", r.evidence, None, Some(r.slot), true, "", r.metadata)
  }

  /** What is left when the new edge cannot be filed: the undo log erases the edge that was in the way,
      and files the moved one anew unless it was itself in the way. */
  function FailedMove(s: State, moved: EdgeId, id: EdgeId): Result
    requires moved in s.graph.edges && id in s.graph.edges
  {
    var g := s.graph;
    var e, e' := g.edges[moved], SupersededEdge(g.edges[moved], Some(id));
    var left := Delist(Relist(g.lookups, e, e'), if id == moved then e' else g.edges[id]);
    Refuse(s.(graph := g.(edges := g.edges - {id}, lookups := if id == moved then left else Relist(left, e', e))),
           InternalError)
  }

  /** Finish after superseding one edge and filing another. */
  function FinishMove(s: State, moved: EdgeId, created: Edge, persisted: bool): Result
    requires moved in s.graph.edges
  {
    var g := s.graph;
    var e, e' := g.edges[moved], SupersededEdge(g.edges[moved], Some(created.id));
    var filed := Enlist(Relist(g.lookups, e, e'), created);
    Finish(s, g.nodes, g.edges[moved := e'][created.id := created], filed, Relist(Delist(filed, created), e', e),
           persisted)
  }

  ghost function MoveGuard(s: State, env: Env, c: Context, r: Request): Outcome
    requires r.MoveAttachment?
  {
    var g := s.graph;
    if r.edge == "" || r.target == "" || r.slot == "" || !MetadataOk(r.metadata, env.limits) then MalformedRequest
    else if r.edge !in g.edges then NotFound
    else
      var e := g.edges[r.edge];
      var granted := CheckAuthority(s, c, e.domain, IncrementalWrite);
      var clash := FindKey(g, MakeKey(AttachedTo, e.from, r.target, e.domain));
      if e.relation != AttachedTo then MalformedRequest
      else if granted != Granted then AuthorityOutcome(granted)
      else if Stale(r.expected, g.generation) || Stale(r.expectedEdge, e.generation) then StaleGeneration
      else if e.lifecycle != Current then NeedsRevalidation
      else if r.target !in g.nodes then UnknownEntity
      else if r.domain != "" && r.domain != e.domain then DomainViolation
      else if e.from !in g.nodes then StructuralInvariantViolation
      else if clash.Some? && clash.value != r.edge then DuplicateEdge
      else ValidateCandidate(g, MovedCandidate(env, r, e), true)
  }

  ghost function DoMoveAttachment(s: State, env: Env, c: Context, r: Request, persisted: bool): Result
    requires r.MoveAttachment?
  {
    var g := s.graph;
    if MoveGuard(s, env, c, r) != Ok then Refuse(s, MoveGuard(s, env, c, r))
    else
      var e := g.edges[r.edge];
      var k := MovedCandidate(env, r, e);
      if k.id in g.edges then FailedMove(s, r.edge, k.id)
      else FinishMove(s, r.edge, NewEdge(g, c, k, RealEvidence, OperatorDeclaration), persisted)
  }

  // ---- Replacing an endpoint's entity generation ------------------------------------------------

  /** Both bindings of a self-loop move, and every live relationship of the node must be revalidated. */
  function Reissued(e: Edge, n: NodeId, generation: Counter): Edge {
    e.(fromGeneration := if e.from == n then generation else e.fromGeneration,
       toGeneration := if e.to == n then generation else e.toGeneration,
       lifecycle := RevalidationRequired, generation := Bump(e.generation))
  }

  function ReissuedIds(edges: Edges, n: NodeId): set<EdgeId> {
    set e | e in edges && Touches(edges[e], n) && Live(edges[e])
  }

  function ReissueIncident(edges: Edges, n: NodeId, generation: Counter): Edges {
    map e | e in edges ::
      if Touches(edges[e], n) && Live(edges[e]) then Reissued(edges[e], n, generation) else edges[e]
  }

  /** The node as bound to its new identity, before its own generation moves. */
  function BoundNode(env: Env, n: Node, r: Request): Node
    requires r.ReplaceEndpoint?
  {
    if r.rebind && Lookup(env, r.successor).Some? then
      var record := Lookup(env, r.successor).value;
      n.(entity := r.successor, entityClass := record.entityClass, entityGeneration := record.generation)
    else n.(entityGeneration := r.newGeneration)
  }

  ghost function ReplaceGuard(s: State, env: Env, c: Context, r: Request): Outcome
    requires r.ReplaceEndpoint?
  {
    var g := s.graph;
    if r.node == "" || (r.rebind && r.successor == "") then MalformedRequest
    else if r.node !in g.nodes then NotFound
    else
      var n := g.nodes[r.node];
      var granted := CheckAuthority(s, c, n.domain, IncrementalWrite);
      if granted != Granted then AuthorityOutcome(granted)
      else if Stale(r.expected, g.generation) || Stale(r.expectedNode, n.generation) then StaleGeneration
      else if r.rebind && Lookup(env, r.successor).None? then UnknownEntity
      else if r.rebind && !InService(Lookup(env, r.successor).value) then EntityRetired
      else if r.rebind && Lookup(env, r.successor).value.entityClass != EntityClassOf(n.nodeClass) then
        IncompatibleEntityClass
      else if r.rebind && FindEntity(g.nodes, r.successor).Some?
              && FindEntity(g.nodes, r.successor).value != r.node then
        DuplicateIdentity
      else Ok
  }

  ghost function DoReplaceEndpoint(s: State, env: Env, c: Context, r: Request, persisted: bool): Result
    requires r.ReplaceEndpoint?
  {
    var g := s.graph;
    if ReplaceGuard(s, env, c, r) != Ok then Refuse(s, ReplaceGuard(s, env, c, r))
    else
      var n := g.nodes[r.node];
      var bound := BoundNode(env, n, r);
      if !r.rebind && r.newGeneration != 0 && r.newGeneration <= n.entityGeneration then Result(s, Idempotent)
      else
        var ids := ReissuedIds(g.edges, r.node);
        var filed := Refiled(g.lookups, g.edges, ids);
        var done := Finish(s, g.nodes[r.node := bound.(generation := Bump(n.generation), validated := g.generation)],
                           ReissueIncident(g.edges, r.node, bound.entityGeneration), filed,
                           FiledBack(filed, g.edges, ids), persisted);
        if done.verdict == Committed then done
        else // the undo log was given the already rebound node, so a failed write leaves it rebound
          Refuse(done.state.(graph := done.state.graph.(nodes := g.nodes[r.node := bound])), done.verdict.outcome)
  }

  // ---- One mutation step -----------------------------------------------------------------------

  ghost function Mutate(s: State, env: Env, c: Context, r: Request, persisted: bool): Result {
    match r
    case AddNode(_, _, _, _, _, _, _) => DoAddNode(s, env, c, r, persisted)
    case RemoveNode(_, _, _) => DoRemoveNode(s, c, r, persisted)
    case AddRelationship(_, _, _, _, _, _, _, _, _, _, _, _, _, _) => DoAddRelationship(s, env, c, r, persisted)
    case UpdateEvidence(_, _, _, _, _, _, _) => DoUpdateEvidence(s, env, c, r, persisted)
    case Revalidate(edge, evidence, expected) =>
      ChangeEvidence(s, env, c, edge, evidence, Current, expected, 0, None, persisted)
    case Supersede(_, _, _) => DoSupersede(s, c, r, persisted)
    case Retire(_, _) => DoRetire(s, c, r, persisted)
    case MoveAttachment(_, _, _, _, _, _, _, _, _) => DoMoveAttachment(s, env, c, r, persisted)
    case ReplaceEndpoint(_, _, _, _, _, _) => DoReplaceEndpoint(s, env, c, r, persisted)
  }
}
