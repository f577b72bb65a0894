/** Identifiers, counters, closed vocabularies and the fixed semantics of each relation class. */
module Types {
  datatype Option<+T> = None | Some(value: T)

  // Identifiers are canonical text; the empty text means "no identifier".
  type NodeId = string
  type EdgeId = string
  type RelId = string
  type DomainId = string
  type PublisherId = string
  type BootId = string

  const MAX64: nat := 0xFFFF_FFFF_FFFF_FFFF

  /** A saturating 64-bit generation counter: it never wraps. */
  type Counter = c: nat | c <= MAX64

  predicate CanAdvance(c: Counter) {
    c != MAX64
  }

  function Bump(c: Counter): Counter {
    if CanAdvance(c) then c + 1 else c
  }

  /** Byte-lexicographic order on identifiers. */
  predicate Less(a: string, b: string) {
    |b| > 0 && (|a| == 0 || a[0] < b[0] || (a[0] == b[0] && Less(a[1..], b[1..])))
  }

  lemma LessTotal(a: string, b: string)
    ensures !(Less(a, b) && Less(b, a))
    ensures Less(a, b) || Less(b, a) || a == b
    ensures a == b ==> !Less(a, b)
  {
    if a != [] && b != [] && a[0] == b[0] {
      LessTotal(a[1..], b[1..]);
      if a[1..] == b[1..] {
        assert a == [a[0]] + a[1..] == b;
      }
    }
  }

  /** The texts agree up to this position, where the first one ends or has the smaller character. */
  predicate SmallerAt(a: string, b: string, k: nat) {
    k <= |a| && k < |b| && a[..k] == b[..k] && (k == |a| || a[k] < b[k])
  }

  /** Beyond a common first character the smaller text is found one position further. */
  lemma SmallerFurther(a: string, b: string, k: nat)
    requires a != [] && b != [] && a[0] == b[0]
    ensures SmallerAt(a, b, k + 1) <==> SmallerAt(a[1..], b[1..], k)
  {
    if k < |a| && k + 1 < |b| {
      assert a[..k + 1] == [a[0]] + a[1..][..k] && b[..k + 1] == [b[0]] + b[1..][..k];
      assert a[..k + 1][1..] == a[1..][..k] && b[..k + 1][1..] == b[1..][..k];
    }
  }

  lemma {:induction false} LessIsLexicographic(a: string, b: string)
    ensures Less(a, b) <==> exists k: nat :: SmallerAt(a, b, k)
  {
    if a == [] || b == [] || a[0] != b[0] {
      assert Less(a, b) ==> SmallerAt(a, b, 0);
      assert forall k: nat :: SmallerAt(a, b, k) && k > 0 ==> a[..k][0] == b[..k][0];
    } else {
      LessIsLexicographic(a[1..], b[1..]);
      assert !SmallerAt(a, b, 0);
      if Less(a, b) {
        var k: nat :| SmallerAt(a[1..], b[1..], k);
        SmallerFurther(a, b, k);
      }
      if k: nat :| SmallerAt(a, b, k) {
        SmallerFurther(a, b, k - 1);
      }
    }
  }

  lemma LessTransitive(a: string, b: string, c: string)
    requires Less(a, b) && Less(b, c)
    ensures Less(a, c)
  {
    if a != [] && a[0] == b[0] == c[0] {
      LessTransitive(a[1..], b[1..], c[1..]);
    }
  }

  datatype EntityClass =
    | UnknownEntityClass | FabricEntity | SiteEntity | DeviceEntity | SwitchEntity | RouterEntity | NicEntity
    | SmartNicEntity | DpuEntity | PortEntity | LogicalPortEntity | LinkEntity | EndpointEntity | ControlParticipant

  datatype NodeClass =
    | UnknownNodeClass | Site | Fabric | RackNetworkDomain | Switch | Router | Nic | SmartNic | DpuEndpoint
    | PhysicalPort | LogicalPort | FabricEndpoint | LogicalEndpoint

  datatype Relation =
    | UnknownRelation | ConnectedTo | AttachedTo | Contains | MemberOf | UplinkTo | DownlinkTo | PeersWith | BackedBy
    | TunneledOver | LogicallyConnectedTo | HostedBy | PresentsEndpoint | FabricMembership

  datatype Layer = Physical | Logical

  datatype Tier =
    | Unspecified | EndpointTier | Access | TopOfRack | Leaf | Spine | SuperSpine | Border | Gateway | SiteEdge
    | InterSite | OpticalInterconnect

  datatype ScopeKind =
    FabricScope | SiteScope | AdministrativeDomain | PhysicalDomain | LogicalDomain | ControlPlaneDomain

  datatype Lifecycle = UnknownLifecycle | Current | RevalidationRequired | Superseded | Retired | Conflicted

  datatype Mode = Incremental | AuthoritativeSnapshot | PartialObservation

  datatype EvidenceType = RealEvidence | SyntheticEvidence | UnsupportedEvidence

  datatype Source =
    | UnknownSource | FabricRegistry | HostDiscovery | ControllerPublication | OperatorDeclaration
    | SyntheticGenerator | PersistenceRecovery

  datatype LayerPolicy = PhysicalOnly | LogicalOnly | Either

  datatype Outcome =
    | Ok | StaleGeneration | StaleEntityGeneration | StaleAuthority | StaleWorkerBoot | StaleCoordinatorEpoch
    | UnauthorizedScope | UnknownEntity | IncompatibleEntityClass | DuplicateEdge | RelationshipConflict
    | CycleRejected | DomainViolation | InvalidEndpoint | NeedsRevalidation | EntityRetired | EntitySuperseded
    | MalformedRequest | ResourceLimit | StructuralInvariantViolation | NotFound | DuplicateIdentity
    | PersistenceIoFailure | InternalError

  function EntityClassOf(c: NodeClass): EntityClass {
    match c
    case Site => SiteEntity
    case Fabric => FabricEntity
    case RackNetworkDomain => SiteEntity
    case Switch => SwitchEntity
    case Router => RouterEntity
    case Nic => NicEntity
    case SmartNic => SmartNicEntity
    case DpuEndpoint => DpuEntity
    case PhysicalPort => PortEntity
    case LogicalPort => LogicalPortEntity
    case FabricEndpoint => EndpointEntity
    case LogicalEndpoint => EndpointEntity
    case UnknownNodeClass => UnknownEntityClass
  }

  predicate Undirected(r: Relation) {
    r == ConnectedTo || r == PeersWith || r == LogicallyConnectedTo
  }

  predicate MustStayAcyclic(r: Relation) {
    r == UnknownRelation || r == Contains || r == MemberOf || r == BackedBy || r == HostedBy
    || r == PresentsEndpoint || r == FabricMembership
  }

  function LayerPolicyOf(r: Relation): LayerPolicy {
    match r
    case UnknownRelation => Either
    case ConnectedTo => PhysicalOnly
    case AttachedTo => PhysicalOnly
    case Contains => Either
    case MemberOf => Either
    case UplinkTo => PhysicalOnly
    case DownlinkTo => PhysicalOnly
    case PeersWith => LogicalOnly
    case BackedBy => LogicalOnly
    case TunneledOver => LogicalOnly
    case LogicallyConnectedTo => LogicalOnly
    case HostedBy => PhysicalOnly
    case PresentsEndpoint => PhysicalOnly
    case FabricMembership => LogicalOnly
  }

  predicate Portish(c: NodeClass) {
    c == PhysicalPort || c == LogicalPort || c == FabricEndpoint || c == LogicalEndpoint
  }

  predicate Switchish(c: NodeClass) {
    c == Switch || c == Router
  }

  predicate Nicish(c: NodeClass) {
    c == Nic || c == SmartNic || c == DpuEndpoint
  }

  predicate FromPermitted(r: Relation, c: NodeClass) {
    match r
    case UnknownRelation => false
    case ConnectedTo => Portish(c)
    case AttachedTo => Nicish(c) || c == PhysicalPort || c == LogicalPort
    case Contains => c == Site || c == Fabric || c == RackNetworkDomain || Switchish(c)
    case MemberOf => c == Site || c == RackNetworkDomain || Switchish(c) || Nicish(c) || Portish(c)
    case UplinkTo => Switchish(c) || c == PhysicalPort
    case DownlinkTo => Switchish(c) || c == PhysicalPort
    case PeersWith => Switchish(c)
    case BackedBy => c == LogicalPort || c == LogicalEndpoint || c == FabricEndpoint
    case TunneledOver => Portish(c)
    case LogicallyConnectedTo => Portish(c)
    case HostedBy => Nicish(c) || c == PhysicalPort || c == Switch
    case PresentsEndpoint => Nicish(c) || Switchish(c) || c == PhysicalPort || c == LogicalPort
    case FabricMembership => c == Site || c == RackNetworkDomain || Switchish(c)
  }

  predicate ToPermitted(r: Relation, c: NodeClass) {
    match r
    case UnknownRelation => false
    case ConnectedTo => Portish(c)
    case AttachedTo => Switchish(c) || c == PhysicalPort || c == LogicalPort
    case Contains => c != UnknownNodeClass
    case MemberOf => c == Fabric || c == Site || c == RackNetworkDomain
    case UplinkTo => Switchish(c) || c == PhysicalPort
    case DownlinkTo => Switchish(c) || c == PhysicalPort
    case PeersWith => Switchish(c)
    case BackedBy => c == LogicalPort || c == PhysicalPort || Nicish(c) || Switchish(c) || c == FabricEndpoint
    case TunneledOver => Portish(c) || Switchish(c)
    case LogicallyConnectedTo => Portish(c)
    case HostedBy => Switchish(c) || Nicish(c)
    case PresentsEndpoint => Portish(c)
    case FabricMembership => c == Fabric
  }

  predicate EndpointsPermitted(r: Relation, from: NodeClass, to: NodeClass) {
    FromPermitted(r, from) && ToPermitted(r, to)
  }

  predicate LayerPermitted(r: Relation, layer: Layer) {
    match LayerPolicyOf(r)
    case PhysicalOnly => layer == Physical
    case LogicalOnly => layer == Logical
    case Either => true
  }

  /** The layer a relationship is stored with; None when the caller must say and did not, or said wrongly. */
  function ResolveLayer(r: Relation, requested: Option<Layer>): (layer: Option<Layer>)
    ensures layer.Some? ==> LayerPermitted(r, layer.value) && (requested.Some? ==> layer == requested)
    ensures layer.None? <==> if requested.Some? then !LayerPermitted(r, requested.value) else LayerPolicyOf(r) == Either
  {
    match LayerPolicyOf(r)
    case PhysicalOnly => if requested.Some? && requested.value != Physical then None else Some(Physical)
    case LogicalOnly => if requested.Some? && requested.value != Logical then None else Some(Logical)
    case Either => requested
  }
}
