/** The rules of the vocabulary read the other way round: what each class of node may take part in, which layers a
    relation may be on, and what metadata may hold. */
module RuleTables {
  import opened Types
  import opened Graphs
  import opened Authority
  import opened Mutations

  /** The relations that may start at a node of this class. */
  function Starts(c: NodeClass): set<Relation> {
    match c
    case UnknownNodeClass => {}
    case Site => {Contains, MemberOf, FabricMembership}
    case Fabric => {Contains}
    case RackNetworkDomain => {Contains, MemberOf, FabricMembership}
    case Switch =>
      {Contains, MemberOf, UplinkTo, DownlinkTo, PeersWith, HostedBy, PresentsEndpoint, FabricMembership}
    case Router => {Contains, MemberOf, UplinkTo, DownlinkTo, PeersWith, PresentsEndpoint, FabricMembership}
    case Nic => {AttachedTo, MemberOf, HostedBy, PresentsEndpoint}
    case SmartNic => {AttachedTo, MemberOf, HostedBy, PresentsEndpoint}
    case DpuEndpoint => {AttachedTo, MemberOf, HostedBy, PresentsEndpoint}
    case PhysicalPort =>
      {ConnectedTo, AttachedTo, MemberOf, UplinkTo, DownlinkTo, TunneledOver, LogicallyConnectedTo, HostedBy,
       PresentsEndpoint}
    case LogicalPort =>
      {ConnectedTo, AttachedTo, MemberOf, BackedBy, TunneledOver, LogicallyConnectedTo, PresentsEndpoint}
    case FabricEndpoint => {ConnectedTo, MemberOf, BackedBy, TunneledOver, LogicallyConnectedTo}
    case LogicalEndpoint => {ConnectedTo, MemberOf, BackedBy, TunneledOver, LogicallyConnectedTo}
  }

  /** The relations that may end at a node of this class. */
  function Ends(c: NodeClass): set<Relation> {
    match c
    case UnknownNodeClass => {}
    case Site => {Contains, MemberOf}
    case Fabric => {Contains, MemberOf, FabricMembership}
    case RackNetworkDomain => {Contains, MemberOf}
    case Switch => {Contains, AttachedTo, UplinkTo, DownlinkTo, PeersWith, BackedBy, TunneledOver, HostedBy}
    case Router => {Contains, AttachedTo, UplinkTo, DownlinkTo, PeersWith, BackedBy, TunneledOver, HostedBy}
    case Nic => {Contains, BackedBy, HostedBy}
    case SmartNic => {Contains, BackedBy, HostedBy}
    case DpuEndpoint => {Contains, BackedBy, HostedBy}
    case PhysicalPort =>
      {Contains, ConnectedTo, AttachedTo, UplinkTo, DownlinkTo, BackedBy, TunneledOver, LogicallyConnectedTo,
       PresentsEndpoint}
    case LogicalPort =>
      {Contains, ConnectedTo, AttachedTo, BackedBy, TunneledOver, LogicallyConnectedTo, PresentsEndpoint}
    case FabricEndpoint => {Contains, ConnectedTo, BackedBy, TunneledOver, LogicallyConnectedTo, PresentsEndpoint}
    case LogicalEndpoint => {Contains, ConnectedTo, TunneledOver, LogicallyConnectedTo, PresentsEndpoint}
  }

  lemma StartRules(r: Relation, c: NodeClass)
    ensures FromPermitted(r, c) <==> r in Starts(c)
  {
  }

  lemma EndRules(r: Relation, c: NodeClass)
    ensures ToPermitted(r, c) <==> r in Ends(c)
  {
  }

  /** The two ways of reading the endpoint rules agree. */
  lemma EndpointRules(r: Relation, from: NodeClass, to: NodeClass)
    ensures EndpointsPermitted(r, from, to) <==> r in Starts(from) && r in Ends(to)
  {
    hide FromPermitted, ToPermitted, Starts, Ends;
    StartRules(r, from);
    EndRules(r, to);
  }

  /** The classes of node that may stand for an entity of this class. */
  function NodesFor(e: EntityClass): set<NodeClass> {
    match e
    case UnknownEntityClass => {UnknownNodeClass}
    case FabricEntity => {Fabric}
    case SiteEntity => {Site, RackNetworkDomain}
    case DeviceEntity => {}
    case SwitchEntity => {Switch}
    case RouterEntity => {Router}
    case NicEntity => {Nic}
    case SmartNicEntity => {SmartNic}
    case DpuEntity => {DpuEndpoint}
    case PortEntity => {PhysicalPort}
    case LogicalPortEntity => {LogicalPort}
    case LinkEntity => {}
    case EndpointEntity => {FabricEndpoint, LogicalEndpoint}
    case ControlParticipant => {}
  }

  lemma EntityRules(c: NodeClass, e: EntityClass)
    ensures EntityClassOf(c) == e <==> c in NodesFor(e)
  {
  }

  const CABLED: set<Relation> := {ConnectedTo, AttachedTo, UplinkTo, DownlinkTo, HostedBy, PresentsEndpoint}
  const OVERLAID: set<Relation> := {PeersWith, BackedBy, TunneledOver, LogicallyConnectedTo, FabricMembership}
  const SYMMETRIC: set<Relation> := {ConnectedTo, PeersWith, LogicallyConnectedTo}

  /** What is cabled is never logical, what is overlaid is never physical, and everything else may be either; only
      connections and peerings have no direction. */
  lemma LayerRules(r: Relation)
    ensures LayerPermitted(r, Logical) <==> r !in CABLED
    ensures LayerPermitted(r, Physical) <==> r !in OVERLAID
    ensures Undirected(r) <==> r in SYMMETRIC
  {
  }

  // ---- Metadata ------------------------------------------------------------------------------------------------

  /** All keys and values, one after the other. */
  function Flattened(items: Metadata): string {
    if items == [] then "" else items[0].0 + items[0].1 + Flattened(items[1..])
  }

  lemma {:induction false} FlattenedLength(items: Metadata)
    ensures |Flattened(items)| == TotalBytes(items)
  {
    if items != [] {
      FlattenedLength(items[1..]);
    }
  }

  lemma {:induction false} FlattenedHolds(items: Metadata, c: char)
    ensures c in Flattened(items) <==> exists i :: 0 <= i < |items| && (c in items[i].0 || c in items[i].1)
  {
    if items != [] {
      FlattenedHolds(items[1..], c);
      assert forall i :: 1 <= i < |items| ==> items[i] == items[1..][i - 1];
    }
  }

  /** What the keys say, as a set. */
  function KeysOf(items: Metadata): set<string> {
    set i | 0 <= i < |items| :: items[i].0
  }

  /** Keys are distinct exactly when there are as many of them as entries. */
  lemma {:induction false} KeysCount(items: Metadata)
    ensures |KeysOf(items)| <= |items|
    ensures |KeysOf(items)| == |items| <==> forall i, j :: 0 <= i < j < |items| ==> items[i].0 != items[j].0
  {
    if items != [] {
      var n := |items| - 1;
      var init := items[..n];
      KeysCount(init);
      assert KeysOf(items) == KeysOf(init) + {items[n].0};
      if items[n].0 in KeysOf(init) {
        var i :| 0 <= i < n && init[i].0 == items[n].0;
        assert KeysOf(items) == KeysOf(init);
      }
    }
  }

  predicate Printable(c: char) {
    c as int >= 32 && c as int != 127
  }

  lemma ControlFreeMeans(text: string)
    ensures ControlFree(text) <==> forall c :: c in text ==> Printable(c)
  {
    if ControlFree(text) {
      forall c | c in text
        ensures Printable(c)
      {
        var i :| 0 <= i < |text| && text[i] == c;
      }
    } else {
      var i :| 0 <= i < |text| && !(text[i] >= ' ' && text[i] != '\U{007F}');
      assert text[i] in text && !Printable(text[i]);
    }
  }

  /** Metadata is in order exactly when it has no more entries than allowed, as many keys as entries, none of them
      empty, no text too long, nothing but printable characters, and not too much text in all. */
  lemma MetadataRules(items: Metadata, limits: Limits)
    ensures MetadataOk(items, limits) <==>
            && |KeysOf(items)| == |items| <= limits.maxMetadataEntries && "" !in KeysOf(items)
            && (forall i :: 0 <= i < |items| ==>
                  |items[i].0| <= limits.maxMetadataKey && |items[i].1| <= limits.maxMetadataValue)
            && (forall c :: c in Flattened(items) ==> Printable(c))
            && |Flattened(items)| <= limits.maxMetadataTotal
  {
    hide Flattened, TotalBytes, ControlFree, Printable;
    FlattenedLength(items);
    KeysCount(items);
    forall c {
      FlattenedHolds(items, c);
    }
    assert "" in KeysOf(items) <==> exists i :: 0 <= i < |items| && items[i].0 == "";
    forall i | 0 <= i < |items|
      ensures ControlFree(items[i].0) && ControlFree(items[i].1)
              <==> forall c :: c in items[i].0 || c in items[i].1 ==> Printable(c)
    {
      ControlFreeMeans(items[i].0);
      ControlFreeMeans(items[i].1);
    }
    assert (forall c :: c in Flattened(items) ==> Printable(c))
           <==> forall i :: 0 <= i < |items| ==> ControlFree(items[i].0) && ControlFree(items[i].1);
  }
}
