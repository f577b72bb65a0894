/** Publisher registrations, fenced worker boots and the coordinator epoch: who may change the topology. */
module Authority {
  import opened Types
  import opened Graphs

  datatype GrantMode = NoGrant | Read | IncrementalWrite | AuthoritativeWrite

  function Rank(m: GrantMode): nat {
    match m
    case NoGrant => 0
    case Read => 1
    case IncrementalWrite => 2
    case AuthoritativeWrite => 3
  }

  datatype ScopeGrant = ScopeGrant(domain: DomainId, mode: GrantMode)

  datatype Publisher = Publisher(boot: BootId, epoch: Counter, grants: seq<ScopeGrant>, fenced: bool)

  /** What a request carries to prove its authority. */
  datatype Context = Context(epoch: Counter, publisher: PublisherId, boot: BootId, evidence: Counter,
      publication: string)

  /** The whole runtime state that mutations, publications and fencing act on. */
  datatype State = State(
    graph: Graph, epoch: Counter, publishers: map<PublisherId, Publisher>, fenced: set<BootId>, ledger: seq<string>)

  /** A canonical identity as the registry reports it. */
  datatype EntityRecord = EntityRecord(entityClass: EntityClass, generation: Counter, retired: bool, superseded: bool)

  datatype Limits = Limits(
    maxIdentifier: nat, maxString: nat, maxMetadataEntries: nat, maxMetadataKey: nat, maxMetadataValue: nat,
    maxMetadataTotal: nat, maxPublishedNodes: nat, maxPublishedEdges: nat, maxNodes: nat, maxEdges: nat)

  /** What a step reads besides the state: the registry, the limits, and how identifiers are derived. */
  datatype Env = Env(
    directory: Option<map<string, EntityRecord>>, limits: Limits,
    nodeIdOf: string -> NodeId, edgeIdOf: EdgeKey -> EdgeId, relIdOf: EdgeKey -> RelId)

  function Lookup(env: Env, entity: string): Option<EntityRecord> {
    if env.directory.Some? && entity in env.directory.value then Some(env.directory.value[entity]) else None
  }

  predicate InService(r: EntityRecord) {
    !r.retired && !r.superseded
  }

  datatype Verdict = Committed | Idempotent | Refused(outcome: Outcome)

  datatype Result = Result(state: State, verdict: Verdict)

  function Refuse(s: State, o: Outcome): Result {
    Result(s, Refused(o))
  }

  // ---- Grants ----------------------------------------------------------------

  /** The strongest mode the list grants for a domain. */
  function GrantFor(grants: seq<ScopeGrant>, domain: DomainId): (best: GrantMode)
    ensures forall i :: 0 <= i < |grants| && grants[i].domain == domain ==> Rank(grants[i].mode) <= Rank(best)
    ensures best == NoGrant || ScopeGrant(domain, best) in grants
  {
    if grants == [] then NoGrant
    else
      var rest := GrantFor(grants[..|grants| - 1], domain);
      var last := grants[|grants| - 1];
      if last.domain == domain && Rank(last.mode) > Rank(rest) then last.mode else rest
  }

  // ---- The authority check -----------------------------------------------------

  datatype AuthorityVerdict =
    | Granted | PublisherMissing | BootMissing | EpochStale | BootFenced | Unregistered | BootMismatch
    | RegistrationStale | PublisherFenced | ScopeNotGranted

  function CheckAuthority(s: State, c: Context, domain: DomainId, required: GrantMode): AuthorityVerdict {
    if c.publisher == "" then PublisherMissing
    else if c.boot == "" then BootMissing
    else if c.epoch != s.epoch then EpochStale
    else if c.boot in s.fenced then BootFenced
    else if c.publisher !in s.publishers then Unregistered
    else
      var p := s.publishers[c.publisher];
      if p.boot != c.boot then BootMismatch
      else if p.epoch != s.epoch then RegistrationStale
      else if p.fenced then PublisherFenced
      else if Rank(GrantFor(p.grants, domain)) < Rank(required) then ScopeNotGranted
      else Granted
  }

  function AuthorityOutcome(v: AuthorityVerdict): Outcome {
    match v
    case Granted => Ok
    case PublisherMissing => MalformedRequest
    case BootMissing => MalformedRequest
    case EpochStale => StaleCoordinatorEpoch
    case BootFenced => StaleWorkerBoot
    case Unregistered => StaleAuthority
    case BootMismatch => StaleWorkerBoot
    case RegistrationStale => StaleAuthority
    case PublisherFenced => StaleAuthority
    case ScopeNotGranted => UnauthorizedScope
  }

  // ---- Registration ------------------------------------------------------------

  datatype Registration = Registration(publisher: PublisherId, boot: BootId, epoch: Counter, grants: seq<ScopeGrant>)

  function Register(s: State, r: Registration): Result {
    if r.publisher == "" || r.boot == "" then Refuse(s, MalformedRequest)
    else if r.boot in s.fenced then Refuse(s, StaleWorkerBoot)
    else if r.epoch != s.epoch then Refuse(s, StaleCoordinatorEpoch)
    else
      var entry := Publisher(r.boot, r.epoch, r.grants, false);
      if r.publisher in s.publishers then
        var previous := s.publishers[r.publisher];
        if previous == entry then Result(s, Idempotent)
        else
          Result(s.(publishers := s.publishers[r.publisher := entry],
                    fenced := if previous.boot != r.boot then s.fenced + {previous.boot} else s.fenced), Committed)
      else
        Result(s.(publishers := s.publishers[r.publisher := entry]), Committed)
  }

  // ---- Demotion ----------------------------------------------------------------

  /** Currentness is lost, structure is kept. */
  function Demoted(e: Edge): Edge {
    e.(lifecycle := RevalidationRequired, generation := Bump(e.generation))
  }

  function PublisherIds(edges: Edges, publisher: PublisherId): set<EdgeId> {
    set e | e in edges && edges[e].provenance.publisher == publisher && edges[e].lifecycle == Current
  }

  function BootIds(edges: Edges, boot: BootId): set<EdgeId> {
    set e | e in edges && edges[e].provenance.boot == boot && edges[e].lifecycle == Current
  }

  function PublishedIds(edges: Edges): set<EdgeId> {
    set e | e in edges && edges[e].provenance.publisher != "" && edges[e].lifecycle == Current
  }

  function DemotePublisher(edges: Edges, publisher: PublisherId): Edges {
    map e | e in edges ::
      if edges[e].provenance.publisher == publisher && edges[e].lifecycle == Current
          then Demoted(edges[e]) else edges[e]
  }

  function DemoteBoot(edges: Edges, boot: BootId): Edges {
    map e | e in edges ::
      if edges[e].provenance.boot == boot && edges[e].lifecycle == Current then Demoted(edges[e]) else edges[e]
  }

  function DemotePublished(edges: Edges): Edges {
    map e | e in edges ::
      if edges[e].provenance.publisher != "" && edges[e].lifecycle == Current then Demoted(edges[e]) else edges[e]
  }

  /** A demotion that touches nothing leaves the generation alone; one that cannot be made durable is undone. */
  function CommitDemotion(g: Graph, ids: set<EdgeId>, demoted: Edges, persisted: bool): (Graph, Outcome) {
    if ids == {} then (g, Ok)
    else if !CanAdvance(g.generation) then (Undemoted(g, ids), ResourceLimit)
    else if !persisted then (Undemoted(g, ids), PersistenceIoFailure)
    else
      (g.(edges := demoted, lookups := Refiled(g.lookups, g.edges, ids), generation := g.generation + 1), Ok)
  }

  /** Undoing a demotion files every edge once more. */
  function Undemoted(g: Graph, ids: set<EdgeId>): Graph {
    g.(lookups := FiledBack(Refiled(g.lookups, g.edges, ids), g.edges, ids))
  }

  // ---- Fencing -----------------------------------------------------------------

  function FencePublisher(s: State, publisher: PublisherId, boot: BootId, persisted: bool): Result {
    if publisher == "" || boot == "" then Refuse(s, MalformedRequest)
    else
      var s1 := s.(fenced := s.fenced + {boot});
      if publisher !in s.publishers then Refuse(s1, StaleAuthority)
      else if s.publishers[publisher].boot != boot then Refuse(s1, StaleWorkerBoot)
      else
        var s2 := s1.(publishers := s.publishers[publisher := s.publishers[publisher].(fenced := true)]);
        var (g, o) := CommitDemotion(s.graph, PublisherIds(s.graph.edges, publisher),
                                     DemotePublisher(s.graph.edges, publisher), persisted);
        if o != Ok then Refuse(s2.(graph := g), o)
        else Result(s2.(graph := g), if s.publishers[publisher].fenced then Idempotent else Committed)
  }

  function FenceBoot(s: State, boot: BootId, persisted: bool): State {
    if boot == "" then s
    else
      s.(fenced := s.fenced + {boot},
         publishers := map p | p in s.publishers ::
           if s.publishers[p].boot == boot then s.publishers[p].(fenced := true) else s.publishers[p],
         graph := CommitDemotion(s.graph, BootIds(s.graph.edges, boot), DemoteBoot(s.graph.edges, boot), persisted).0)
  }

  /** A new epoch forgets every registration and demotes everything a publisher asserted. */
  function AdvanceEpoch(s: State, persisted: bool): State {
    if !CanAdvance(s.epoch) then s
    else
      var g, ids := s.graph, PublishedIds(s.graph.edges);
      s.(epoch := s.epoch + 1, publishers := map[],
         graph := if ids == {} then g
                  else if !persisted then Undemoted(g, ids)
                  else g.(edges := DemotePublished(g.edges), lookups := Refiled(g.lookups, g.edges, ids),
                          generation := Bump(g.generation)))
  }

  // ---- Scope administration ------------------------------------------------------

  /** Walk up the parents of a new scope, looking for the scope itself. */
  function ParentWalk(domains: map<DomainId, DomainDefinition>, cursor: DomainId, id: DomainId, hops: nat): Outcome
    decreases hops
  {
    if cursor == "" then Ok
    else if cursor == id then CycleRejected
    else if cursor !in domains then Ok
    else if hops == 0 then ResourceLimit
    else ParentWalk(domains, domains[cursor].parent, id, hops - 1)
  }

  function DefineDomain(s: State, env: Env, d: DomainDefinition): Result {
    if d.id == "" then Refuse(s, MalformedRequest)
    else if d.anchor != "" && env.directory.Some? && Lookup(env, d.anchor).None? then Refuse(s, UnknownEntity)
    else if d.anchor != "" && env.directory.Some? && !InService(Lookup(env, d.anchor).value)
        then Refuse(s, EntityRetired)
    else if d.id in s.graph.domains then
      if s.graph.domains[d.id] == d then Result(s, Idempotent) else Refuse(s, DuplicateIdentity)
    else if d.parent != "" && d.parent !in s.graph.domains then Refuse(s, UnknownEntity)
    else
      var walked := ParentWalk(s.graph.domains, d.parent, d.id, env.limits.maxNodes);
      if walked != Ok then Refuse(s, walked)
      else Result(s.(graph := s.graph.(domains := s.graph.domains[d.id := d])), Committed)
  }

  function DefineRule(s: State, r: CrossDomainRule): Result {
    if r.from == "" || r.to == "" || r.relation == UnknownRelation then Refuse(s, MalformedRequest)
    else if r.from !in s.graph.domains || r.to !in s.graph.domains then Refuse(s, UnknownEntity)
    else if r in s.graph.rules then Result(s, Idempotent)
    else Result(s.(graph := s.graph.(rules := s.graph.rules + [r])), Committed)
  }

  // ---- Replay ledger -------------------------------------------------------------

  const LEDGER_CAPACITY: nat := 8192

  /** Remember a processed publication, forgetting the oldest beyond capacity. */
  function Record(ledger: seq<string>, key: string): seq<string> {
    if key in ledger then ledger
    else
      var longer := ledger + [key];
      if |longer| > LEDGER_CAPACITY then longer[|longer| - LEDGER_CAPACITY..] else longer
  }
}
