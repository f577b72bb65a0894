/** The durable state image: how a graph is written out, and what is read back. */
module Image {
  import opened Types
  import opened Graphs
  import opened Authority
  import opened Mutations
  import opened Codec
  import opened Records

  const MAX_IDENTIFIER: nat := 255

  // ---- Codes of the closed vocabularies -------------------------------------------------------

  const ENTITY_CLASSES: seq<EntityClass> := [
    UnknownEntityClass, FabricEntity, SiteEntity, DeviceEntity, SwitchEntity, RouterEntity, NicEntity, SmartNicEntity,
    DpuEntity, PortEntity, LogicalPortEntity, LinkEntity, EndpointEntity, ControlParticipant]
  const NODE_CLASSES: seq<NodeClass> := [
    UnknownNodeClass, Site, Fabric, RackNetworkDomain, Switch, Router, Nic, SmartNic, DpuEndpoint, PhysicalPort,
        LogicalPort,
    FabricEndpoint, LogicalEndpoint]
  const RELATIONS: seq<Relation> := [
    UnknownRelation, ConnectedTo, AttachedTo, Contains, MemberOf, UplinkTo, DownlinkTo, PeersWith, BackedBy,
        TunneledOver,
    LogicallyConnectedTo, HostedBy, PresentsEndpoint, FabricMembership]
  const LAYERS: seq<Layer> := [Physical, Logical]
  const TIERS: seq<Tier> := [
    Unspecified, EndpointTier, Access, TopOfRack, Leaf, Spine, SuperSpine, Border, Gateway, SiteEdge, InterSite,
    OpticalInterconnect]
  const SCOPE_KINDS: seq<ScopeKind> := [
    FabricScope, SiteScope, AdministrativeDomain, PhysicalDomain, LogicalDomain, ControlPlaneDomain]
  const LIFECYCLES: seq<Lifecycle> := [UnknownLifecycle, Current, RevalidationRequired, Superseded, Retired, Conflicted]
  const EVIDENCE_TYPES: seq<EvidenceType> := [RealEvidence, SyntheticEvidence, UnsupportedEvidence]
  const SOURCES: seq<Source> := [
    UnknownSource, FabricRegistry, HostDiscovery, ControllerPublication, OperatorDeclaration, SyntheticGenerator,
    PersistenceRecovery]

  // The position of a value in its vocabulary is its code on the wire.

  function EntityClassCode(x: EntityClass): (code: nat)
    ensures code < |ENTITY_CLASSES| && ENTITY_CLASSES[code] == x
  {
    match x
    case UnknownEntityClass => 0 case FabricEntity => 1 case SiteEntity => 2 case DeviceEntity => 3
    case SwitchEntity => 4 case RouterEntity => 5 case NicEntity => 6 case SmartNicEntity => 7
    case DpuEntity => 8 case PortEntity => 9 case LogicalPortEntity => 10 case LinkEntity => 11
    case EndpointEntity => 12 case ControlParticipant => 13
  }

  function NodeClassCode(x: NodeClass): (code: nat)
    ensures code < |NODE_CLASSES| && NODE_CLASSES[code] == x
  {
    match x
    case UnknownNodeClass => 0 case Site => 1 case Fabric => 2 case RackNetworkDomain => 3 case Switch => 4
    case Router => 5 case Nic => 6 case SmartNic => 7 case DpuEndpoint => 8 case PhysicalPort => 9
    case LogicalPort => 10 case FabricEndpoint => 11 case LogicalEndpoint => 12
  }

  function RelationCode(x: Relation): (code: nat)
    ensures code < |RELATIONS| && RELATIONS[code] == x
  {
    match x
    case UnknownRelation => 0 case ConnectedTo => 1 case AttachedTo => 2 case Contains => 3 case MemberOf => 4
    case UplinkTo => 5 case DownlinkTo => 6 case PeersWith => 7 case BackedBy => 8 case TunneledOver => 9
    case LogicallyConnectedTo => 10 case HostedBy => 11 case PresentsEndpoint => 12
    case FabricMembership => 13
  }

  function LayerCode(x: Layer): (code: nat)
    ensures code < |LAYERS| && LAYERS[code] == x
  {
    match x
    case Physical => 0 case Logical => 1
  }

  function TierCode(x: Tier): (code: nat)
    ensures code < |TIERS| && TIERS[code] == x
  {
    match x
    case Unspecified => 0 case EndpointTier => 1 case Access => 2 case TopOfRack => 3 case Leaf => 4
    case Spine => 5 case SuperSpine => 6 case Border => 7 case Gateway => 8 case SiteEdge => 9
    case InterSite => 10 case OpticalInterconnect => 11
  }

  function ScopeKindCode(x: ScopeKind): (code: nat)
    ensures code < |SCOPE_KINDS| && SCOPE_KINDS[code] == x
  {
    match x
    case FabricScope => 0 case SiteScope => 1 case AdministrativeDomain => 2 case PhysicalDomain => 3
    case LogicalDomain => 4 case ControlPlaneDomain => 5
  }

  function LifecycleCode(x: Lifecycle): (code: nat)
    ensures code < |LIFECYCLES| && LIFECYCLES[code] == x
  {
    match x
    case UnknownLifecycle => 0 case Current => 1 case RevalidationRequired => 2 case Superseded => 3
    case Retired => 4 case Conflicted => 5
  }

  function EvidenceTypeCode(x: EvidenceType): (code: nat)
    ensures code < |EVIDENCE_TYPES| && EVIDENCE_TYPES[code] == x
  {
    match x
    case RealEvidence => 0 case SyntheticEvidence => 1 case UnsupportedEvidence => 2
  }

  function SourceCode(x: Source): (code: nat)
    ensures code < |SOURCES| && SOURCES[code] == x
  {
    match x
    case UnknownSource => 0 case FabricRegistry => 1 case HostDiscovery => 2 case ControllerPublication => 3
    case OperatorDeclaration => 4 case SyntheticGenerator => 5 case PersistenceRecovery => 6
  }

  // ---- Fields ------------------------------------------------------------------------------------

  function Code(code: nat): Field {
    Number(1, code)
  }

  function CodeShape<T>(vocabulary: seq<T>): Shape {
    NumberShape(1, |vocabulary|)
  }

  function Word(c: Counter): Field {
    Number(8, c)
  }

  function Flag(b: bool): Field {
    Number(1, if b then 1 else 0)
  }

  const WORD := NumberShape(8, U64)
  const FLAG := NumberShape(1, 256)
  const IDENTIFIER := TextShape(MAX_IDENTIFIER, true)
  const LABEL := TextShape(MAX_IDENTIFIER, false)

  function FromCode<T>(vocabulary: seq<T>, f: Field): T
    requires f.Number? && f.value < |vocabulary|
  {
    vocabulary[f.value]
  }

  function FromWord(f: Field): Counter
    requires f.Number? && f.value < U64
  {
    f.value
  }

  function FromFlag(f: Field): bool
    requires f.Number?
  {
    f.value != 0
  }

  function FromOptional(flag: Field, text: Field): Option<string>
    requires flag.Number? && text.Text?
  {
    if FromFlag(flag) then Some(text.text) else None
  }

  predicate Conforms(shapes: seq<Shape>, fs: seq<Field>) {
    |fs| == |shapes| && forall i :: 0 <= i < |fs| ==> Acceptable(shapes[i], fs[i])
  }

  lemma {:induction false} TakenConforms(shapes: seq<Shape>, s: Bytes)
    requires TakeAll(shapes, s).Some?
    ensures Conforms(shapes, TakeAll(shapes, s).value.0)
    decreases |shapes|
  {
    hide Acceptable, TakeRaw;
    if shapes != [] {
      TakenConforms(shapes[1..], Take(shapes[0], s).value.1);
    }
  }

  // ---- Metadata ------------------------------------------------------------------------------------

  type Item = (string, string)

  function ItemFields(item: Item): seq<Field> {
    [Text(item.0), Text(item.1)]
  }

  function ItemShapes(limits: Limits): seq<Shape> {
    [TextShape(limits.maxMetadataKey, false), TextShape(limits.maxMetadataValue, false)]
  }

  function PutItem(item: Item): Bytes {
    PutAll(ItemFields(item))
  }

  function TakeItem(limits: Limits, s: Bytes): Reading<Item> {
    var r := TakeAll(ItemShapes(limits), s);
    if r.None? then None
    else
      TakenConforms(ItemShapes(limits), s);
      var fs := r.value.0;
      assert Acceptable(ItemShapes(limits)[0], fs[0]) && Acceptable(ItemShapes(limits)[1], fs[1]);
      Some(((fs[0].text, fs[1].text), r.value.1))
  }

  function ItemDecoder(limits: Limits): Decoder<Item> {
    s => TakeItem(limits, s)
  }

  /** Items are kept in key order. */
  function InsertItem(items: Metadata, item: Item): Metadata {
    if items == [] || Less(item.0, items[0].0) then [item] + items else [items[0]] + InsertItem(items[1..], item)
  }

  function SetItem(items: Metadata, item: Item, limits: Limits): Option<Metadata> {
    if item.0 == "" || |item.0| > limits.maxMetadataKey || |item.1| > limits.maxMetadataValue then None
    else if !ControlFree(item.0) || !ControlFree(item.1) then None
    else
      var present := exists i :: 0 <= i < |items| && items[i].0 == item.0;
      if !present && |items| >= limits.maxMetadataEntries then None
      else
        var after := if present
                     then seq(|items|, i requires 0 <= i < |items| => if items[i].0 == item.0 then item else items[i])
                     else InsertItem(items, item);
        if TotalBytes(after) > limits.maxMetadataTotal then None else Some(after)
  }

  function SetAll(items: seq<Item>, limits: Limits): Option<Metadata> {
    if items == [] then Some([])
    else
      var before := SetAll(items[..|items| - 1], limits);
      if before.None? then None else SetItem(before.value, items[|items| - 1], limits)
  }

  function PutMetadata(m: Metadata): Bytes {
    PutCounted(4, PutItem, m)
  }

  function TakeMetadata(limits: Limits, s: Bytes): Reading<Metadata> {
    var r := TakeCounted(4, ItemDecoder(limits), limits.maxMetadataEntries, s);
    if r.None? then None
    else
      var m := SetAll(r.value.0, limits);
      if m.None? then None else Some((m.value, r.value.1))
  }

  /** Metadata as the runtime keeps it: within the limits, in key order. */
  predicate Kept(m: Metadata, limits: Limits) {
    MetadataOk(m, limits) && forall i, j :: 0 <= i < j < |m| ==> Less(m[i].0, m[j].0)
  }

  lemma {:induction false} InsertLast(items: Metadata, item: Item)
    requires forall i :: 0 <= i < |items| ==> Less(items[i].0, item.0)
    ensures InsertItem(items, item) == items + [item]
    decreases |items|
  {
    if items != [] {
      LessTotal(items[0].0, item.0);
      InsertLast(items[1..], item);
      assert [items[0]] + (items[1..] + [item]) == items + [item];
    }
  }

  lemma {:induction false} TotalOfMore(items: Metadata, item: Item)
    ensures TotalBytes(items + [item]) == TotalBytes(items) + |item.0| + |item.1|
    decreases |items|
  {
    if items == [] {
      assert items + [item] == [item];
    } else {
      TotalOfMore(items[1..], item);
      assert (items + [item])[1..] == items[1..] + [item];
    }
  }

  lemma {:induction false} TotalOfPrefix(m: Metadata, n: nat)
    requires n <= |m|
    ensures TotalBytes(m[..n]) <= TotalBytes(m)
    decreases |m| - n
  {
    if n < |m| {
      TotalOfPrefix(m, n + 1);
      TotalOfMore(m[..n], m[n]);
      assert m[..n + 1] == m[..n] + [m[n]];
    } else {
      assert m[..n] == m;
    }
  }

  /** Setting kept items one after the other gives the same items in the same order. */
  lemma {:induction false} SetKept(m: Metadata, n: nat, limits: Limits)
    requires Kept(m, limits) && n <= |m|
    ensures SetAll(m[..n], limits) == Some(m[..n])
    decreases n
  {
    hide Less;
    if n > 0 {
      SetKept(m, n - 1, limits);
      var before, item := m[..n - 1], m[n - 1];
      assert m[..n][..n - 1] == before && m[..n] == before + [item];
      forall i | 0 <= i < |before|
        ensures Less(before[i].0, item.0) && before[i].0 != item.0
      {
        LessTotal(before[i].0, item.0);
      }
      InsertLast(before, item);
      TotalOfPrefix(m, n);
    }
  }

  lemma ItemsInvert(m: Metadata, limits: Limits)
    requires Kept(m, limits) && limits.maxMetadataKey < U32 && limits.maxMetadataValue < U32
    ensures forall i :: 0 <= i < |m| ==> Inverts(PutItem, ItemDecoder(limits), m[i])
  {
    hide TakeAll, PutAll, Less;
    forall i, rest: Bytes | 0 <= i < |m|
      ensures ItemDecoder(limits)(PutItem(m[i]) + rest) == Some((m[i], rest))
    {
      TakeAllPut(ItemShapes(limits), ItemFields(m[i]), rest);
    }
  }

  lemma MetadataRoundTrip(m: Metadata, limits: Limits, rest: Bytes)
    requires Kept(m, limits)
    requires limits.maxMetadataKey < U32 && limits.maxMetadataValue < U32 && limits.maxMetadataEntries < U32
    ensures TakeMetadata(limits, PutMetadata(m) + rest) == Some((m, rest))
  {
    hide PutCounted, TakeCounted, SetAll, Inverts, Less, Pow256;
    Widths();
    ItemsInvert(m, limits);
    TakeCountedPut(4, PutItem, ItemDecoder(limits), limits.maxMetadataEntries, m, rest);
    SetKept(m, |m|, limits);
    assert m[..|m|] == m;
  }
}
