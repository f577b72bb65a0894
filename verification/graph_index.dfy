/** All twelve indexes of a graph together, and that filing or
    withdrawing one entry keeps them what a rebuild would make. */
module GraphIndex {
  import opened Types
  import opened Graphs
  import opened Indexes

  datatype Index = Index(
    byEntity: map<string, NodeId>, byKey: map<EdgeKey, EdgeId>, byRelationship: map<RelId, EdgeId>,
    incident: Buckets<NodeId, EdgeId>, outgoing: Buckets<NodeId, EdgeId>, incoming: Buckets<NodeId, EdgeId>,
    rosters: Rosters,
    byRelation: Buckets<Relation, EdgeId>, byLayer: Buckets<Layer, EdgeId>, byLifecycle: Buckets<Lifecycle, EdgeId>,
    byPublisher: Buckets<PublisherId, EdgeId>, byAttachment: Buckets<string, EdgeId>)

  const EMPTY := Index(map[], map[], map[], map[], map[], map[], map[], map[], map[], map[], map[], map[])

  // ---- What each index is about -------------------------------------------------------------

  function KeySet(e: Edge): set<EdgeKey> { {KeyOf(e)} }
  function NameSet(e: Edge): set<RelId> { {e.relationship} }
  function EndSet(e: Edge): set<NodeId> { {e.from, e.to} }
  function FromSet(e: Edge): set<NodeId> { {e.from} }
  function ToSet(e: Edge): set<NodeId> { {e.to} }
  function RelationSet(e: Edge): set<Relation> { {e.relation} }
  function LayerSet(e: Edge): set<Layer> { {e.layer} }
  function LifecycleSet(e: Edge): set<Lifecycle> { {e.lifecycle} }

  function PublisherSet(e: Edge): set<PublisherId> {
    if e.provenance.publisher == "" then {} else {e.provenance.publisher}
  }

  function AttachmentSet(e: Edge): set<string> {
    if e.attachment.Some? then {e.attachment.value} else {}
  }

  predicate Crosses(e: Edge) {
    e.crossDomain && e.secondary != ""
  }

  function ScopeSet(e: Edge): set<DomainId> {
    if Crosses(e) then {e.domain, e.secondary} else {e.domain}
  }

  /** Every edge under every key it has. */
  ghost function Pairs<K>(edges: Edges, keys: Edge -> set<K>): set<(K, EdgeId)> {
    set e, k | e in edges && k in keys(edges[e]) :: (k, e)
  }

  ghost function EntityPairs(nodes: Nodes): set<(string, NodeId)> {
    set n | n in nodes :: (nodes[n].entity, n)
  }

  ghost function NodeScopePairs(nodes: Nodes): set<(DomainId, NodeId)> {
    set n | n in nodes :: (nodes[n].domain, n)
  }

  ghost predicate NodesIndexed(ix: Index, nodes: Nodes) {
    Points(ix.byEntity, EntityPairs(nodes))
  }

  ghost predicate KeysIndexed(ix: Index, edges: Edges) {
    Points(ix.byKey, Pairs(edges, KeySet))
  }

  ghost predicate NamesIndexed(ix: Index, edges: Edges) {
    Points(ix.byRelationship, Pairs(edges, NameSet))
  }

  /** What the key index and the name index find. */
  function Found(ix: Index): Lookups {
    Lookups(ix.byKey, ix.byRelationship)
  }

  /** Whatever these two point to has the key or the name; something that has one may be missed. */
  ghost predicate LookupsAim(ix: Index, edges: Edges) {
    && (forall k :: k in ix.byKey ==> ix.byKey[k] in edges && KeyOf(edges[ix.byKey[k]]) == k)
    && (forall n :: n in ix.byRelationship ==>
          ix.byRelationship[n] in edges && edges[ix.byRelationship[n]].relationship == n)
  }

  ghost predicate EdgesFound(ix: Index, edges: Edges) {
    && Files(ix.incident, Pairs(edges, EndSet))
    && Files(ix.outgoing, Pairs(edges, FromSet))
    && Files(ix.incoming, Pairs(edges, ToSet))
  }

  ghost predicate EdgesClassified(ix: Index, edges: Edges) {
    && Files(ix.byRelation, Pairs(edges, RelationSet))
    && Files(ix.byLayer, Pairs(edges, LayerSet))
    && Files(ix.byLifecycle, Pairs(edges, LifecycleSet))
    && Files(ix.byPublisher, Pairs(edges, PublisherSet))
    && Files(ix.byAttachment, Pairs(edges, AttachmentSet))
  }

  /** The nine indexes that file every edge in a bucket, or a scope in a roster, are what a rebuild makes. */
  ghost predicate Bucketed(ix: Index, declared: set<DomainId>, nodes: Nodes, edges: Edges) {
    && EdgesFound(ix, edges)
    && EdgesClassified(ix, edges)
    && Enrolled(ix.rosters, declared, NodeScopePairs(nodes), Pairs(edges, ScopeSet))
  }

  /** The index a rebuild makes of these nodes and edges; there is only one (IndexUnique). */
  ghost predicate Indexed(ix: Index, declared: set<DomainId>, nodes: Nodes, edges: Edges) {
    Bucketed(ix, declared, nodes, edges) && NodesIndexed(ix, nodes) && KeysIndexed(ix, edges) && NamesIndexed(ix, edges)
  }

  /** What a rebuild makes in general: where several hold an entity, a
      key or a name, the lookup points to one of them. */
  ghost predicate Rebuilt(ix: Index, declared: set<DomainId>, nodes: Nodes, edges: Edges) {
    && Bucketed(ix, declared, nodes, edges)
    && Leads(ix.byEntity, EntityPairs(nodes))
    && Leads(ix.byKey, Pairs(edges, KeySet))
    && Leads(ix.byRelationship, Pairs(edges, NameSet))
  }

  /** Nothing is held twice that has a lookup. */
  ghost predicate LookupsUnique(nodes: Nodes, edges: Edges) {
    EntitiesUnique(nodes) && KeysUnique(edges) && RelationshipsUnique(edges)
  }

  /** Where nothing is held twice there is only one index a rebuild can make. */
  lemma RebuiltIsIndexed(ix: Index, declared: set<DomainId>, nodes: Nodes, edges: Edges)
    requires LookupsUnique(nodes, edges)
    ensures Rebuilt(ix, declared, nodes, edges) <==> Indexed(ix, declared, nodes, edges)
  {
    hide Bucketed, Leads, Points, KeyOf;
    assert OneEach(EntityPairs(nodes));
    assert OneEach(Pairs(edges, KeySet)) by { OneKeyEach(edges); }
    assert OneEach(Pairs(edges, NameSet)) by { OneNameEach(edges); }
    LeadsIsPoints(ix.byEntity, EntityPairs(nodes));
    LeadsIsPoints(ix.byKey, Pairs(edges, KeySet));
    LeadsIsPoints(ix.byRelationship, Pairs(edges, NameSet));
  }

  lemma OneKeyEach(edges: Edges)
    requires KeysUnique(edges)
    ensures OneEach(Pairs(edges, KeySet))
  {
    hide KeyOf;
    assert forall k, e :: (k, e) in Pairs(edges, KeySet) ==> e in edges && KeyOf(edges[e]) == k;
  }

  lemma OneNameEach(edges: Edges)
    requires RelationshipsUnique(edges)
    ensures OneEach(Pairs(edges, NameSet))
  {
    assert forall n, e :: (n, e) in Pairs(edges, NameSet) ==> e in edges && edges[e].relationship == n;
  }

  lemma IndexUnique(a: Index, b: Index, declared: set<DomainId>, nodes: Nodes, edges: Edges)
    requires Indexed(a, declared, nodes, edges) && Indexed(b, declared, nodes, edges)
    ensures a == b
  {
    hide Files, Points, Enrolled, Pairs;
    PointsUnique(a.byEntity, b.byEntity, EntityPairs(nodes));
    PointsUnique(a.byKey, b.byKey, Pairs(edges, KeySet));
    PointsUnique(a.byRelationship, b.byRelationship, Pairs(edges, NameSet));
    FilesUnique(a.incident, b.incident, Pairs(edges, EndSet));
    FilesUnique(a.outgoing, b.outgoing, Pairs(edges, FromSet));
    FilesUnique(a.incoming, b.incoming, Pairs(edges, ToSet));
    FilesUnique(a.byRelation, b.byRelation, Pairs(edges, RelationSet));
    FilesUnique(a.byLayer, b.byLayer, Pairs(edges, LayerSet));
    FilesUnique(a.byLifecycle, b.byLifecycle, Pairs(edges, LifecycleSet));
    FilesUnique(a.byPublisher, b.byPublisher, Pairs(edges, PublisherSet));
    FilesUnique(a.byAttachment, b.byAttachment, Pairs(edges, AttachmentSet));
    EnrolledUnique(a.rosters, b.rosters, declared, NodeScopePairs(nodes), Pairs(edges, ScopeSet));
  }

  // ---- Filing and withdrawing ------------------------------------------------------------------

  function WithNode(ix: Index, n: Node): Index {
    ix.(byEntity := ix.byEntity[n.entity := n.id], rosters := JoinNode(ix.rosters, n.domain, n.id))
  }

  function WithoutNode(ix: Index, declared: set<DomainId>, n: Node): Index {
    ix.(byEntity := Unpoint(ix.byEntity, n.entity, n.id), rosters := LeaveNode(ix.rosters, declared, n.domain, n.id))
  }

  function JoinScopes(rosters: Rosters, e: Edge): Rosters {
    var joined := JoinEdge(rosters, e.domain, e.id);
    if Crosses(e) then JoinEdge(joined, e.secondary, e.id) else joined
  }

  function LeaveScopes(rosters: Rosters, declared: set<DomainId>, e: Edge): Rosters {
    var left := LeaveEdge(rosters, declared, e.domain, e.id);
    if Crosses(e) then LeaveSecondary(left, e.secondary, e.id) else left
  }

  function WithEdge(ix: Index, e: Edge): Index {
    Index(
      ix.byEntity, ix.byKey[KeyOf(e) := e.id], ix.byRelationship[e.relationship := e.id],
      Into(Into(ix.incident, e.from, e.id), e.to, e.id), Into(ix.outgoing, e.from, e.id), Into(ix.incoming, e.to, e.id),
      JoinScopes(ix.rosters, e),
      Into(ix.byRelation, e.relation, e.id), Into(ix.byLayer, e.layer, e.id), Into(ix.byLifecycle, e.lifecycle, e.id),
      if e.provenance.publisher == "" then ix.byPublisher else Into(ix.byPublisher, e.provenance.publisher, e.id),
      if e.attachment.None? then ix.byAttachment else Into(ix.byAttachment, e.attachment.value, e.id))
  }

  function WithoutEdge(ix: Index, declared: set<DomainId>, e: Edge): Index {
    var fromGone := OutOf(ix.incident, e.from, e.id);
    Index(
      ix.byEntity, Unpoint(ix.byKey, KeyOf(e), e.id), Unpoint(ix.byRelationship, e.relationship, e.id),
      if e.to != e.from then OutOf(fromGone, e.to, e.id) else fromGone,
      OutOf(ix.outgoing, e.from, e.id), OutOf(ix.incoming, e.to, e.id),
      LeaveScopes(ix.rosters, declared, e),
      OutOf(ix.byRelation, e.relation, e.id), OutOf(ix.byLayer, e.layer, e.id), OutOf(ix.byLifecycle, e.lifecycle,
          e.id),
      if e.provenance.publisher == "" then ix.byPublisher else OutOf(ix.byPublisher, e.provenance.publisher, e.id),
      if e.attachment.None? then ix.byAttachment else OutOf(ix.byAttachment, e.attachment.value, e.id))
  }

  // ---- Pairs of one more, or one fewer, edge ------------------------------------------------------

  ghost function Own<K>(keys: set<K>, id: EdgeId): set<(K, EdgeId)> {
    set k | k in keys :: (k, id)
  }

  lemma PairsOfMore<K>(edges: Edges, keys: Edge -> set<K>, e: Edge)
    requires e.id !in edges
    ensures Pairs(edges[e.id := e], keys) == Pairs(edges, keys) + Own(keys(e), e.id)
  {
    var after := edges[e.id := e];
    forall p
      ensures p in Pairs(after, keys) <==> p in Pairs(edges, keys) + Own(keys(e), e.id)
    {
      var (k, d) := p;
      if d == e.id {
        assert after[d] == e;
      } else {
        assert d in after ==> after[d] == edges[d];
      }
    }
  }

  lemma PairsOfFewer<K>(edges: Edges, keys: Edge -> set<K>, id: EdgeId)
    requires id in edges
    ensures Pairs(edges - {id}, keys) == Pairs(edges, keys) - Own(keys(edges[id]), id)
  {
    var after := edges - {id};
    forall p
      ensures p in Pairs(after, keys) <==> p in Pairs(edges, keys) - Own(keys(edges[id]), id)
    {
      var (k, d) := p;
      assert d in after <==> d in edges && d != id;
    }
  }

  lemma OwnOne<K>(k: K, id: EdgeId)
    ensures Own({k}, id) == {(k, id)}
  {
  }

  lemma OwnTwo<K>(j: K, k: K, id: EdgeId)
    ensures Own({j, k}, id) == {(j, id)} + {(k, id)}
  {
  }

  lemma FiledOne<K(!new)>(index: Buckets<K, EdgeId>, edges: Edges, keys: Edge -> set<K>, e: Edge, k: K)
    requires e.id !in edges && Files(index, Pairs(edges, keys)) && keys(e) == {k}
    ensures Files(Into(index, k, e.id), Pairs(edges[e.id := e], keys))
  {
    hide Files, Pairs, Into;
    PairsOfMore(edges, keys, e);
    OwnOne(k, e.id);
    IntoFiles(index, Pairs(edges, keys), k, e.id);
  }

  lemma FiledNone<K(!new)>(index: Buckets<K, EdgeId>, edges: Edges, keys: Edge -> set<K>, e: Edge)
    requires e.id !in edges && Files(index, Pairs(edges, keys)) && keys(e) == {}
    ensures Files(index, Pairs(edges[e.id := e], keys))
  {
    hide Files, Pairs;
    PairsOfMore(edges, keys, e);
    assert Pairs(edges, keys) + Own(keys(e), e.id) == Pairs(edges, keys);
  }

  lemma WithdrawnOne<K(!new)>(index: Buckets<K, EdgeId>, edges: Edges, keys: Edge -> set<K>, id: EdgeId, k: K)
    requires id in edges && Files(index, Pairs(edges, keys)) && keys(edges[id]) == {k}
    ensures Files(OutOf(index, k, id), Pairs(edges - {id}, keys))
  {
    hide Files, Pairs, OutOf;
    PairsOfFewer(edges, keys, id);
    OwnOne(k, id);
    OutOfFiles(index, Pairs(edges, keys), k, id);
  }

  lemma WithdrawnNone<K(!new)>(index: Buckets<K, EdgeId>, edges: Edges, keys: Edge -> set<K>, id: EdgeId)
    requires id in edges && Files(index, Pairs(edges, keys)) && keys(edges[id]) == {}
    ensures Files(index, Pairs(edges - {id}, keys))
  {
    hide Files, Pairs;
    PairsOfFewer(edges, keys, id);
    assert Pairs(edges, keys) - Own(keys(edges[id]), id) == Pairs(edges, keys);
  }

  // ---- One edge more --------------------------------------------------------------------------------

  /** Nothing else has this edge's key. */
  ghost predicate KeyFree(edges: Edges, e: Edge) {
    forall d :: d in edges && d != e.id ==> KeyOf(edges[d]) != KeyOf(e)
  }

  /** Nothing else has this edge's name. */
  ghost predicate NameFree(edges: Edges, e: Edge) {
    forall d :: d in edges && d != e.id ==> edges[d].relationship != e.relationship
  }

  lemma FiledIncident(index: Buckets<NodeId, EdgeId>, edges: Edges, e: Edge)
    requires e.id !in edges && Files(index, Pairs(edges, EndSet))
    ensures Files(Into(Into(index, e.from, e.id), e.to, e.id), Pairs(edges[e.id := e], EndSet))
  {
    hide Files, Pairs, Into;
    var before := Pairs(edges, EndSet);
    PairsOfMore(edges, EndSet, e);
    OwnTwo(e.from, e.to, e.id);
    IntoFiles(index, before, e.from, e.id);
    IntoFiles(Into(index, e.from, e.id), before + {(e.from, e.id)}, e.to, e.id);
    assert before + ({(e.from, e.id)} + {(e.to, e.id)}) == before + {(e.from, e.id)} + {(e.to, e.id)};
  }

  lemma KeyPairsOfMore(edges: Edges, e: Edge)
    requires e.id !in edges
    ensures Pairs(edges[e.id := e], KeySet) == Pairs(edges, KeySet) + {(KeyOf(e), e.id)}
    ensures Pairs(edges[e.id := e], NameSet) == Pairs(edges, NameSet) + {(e.relationship, e.id)}
  {
    hide Pairs, KeyOf;
    PairsOfMore(edges, KeySet, e);
    PairsOfMore(edges, NameSet, e);
    OwnOne(KeyOf(e), e.id);
    OwnOne(e.relationship, e.id);
  }

  lemma FiledKey(ix: Index, edges: Edges, e: Edge)
    requires e.id !in edges && KeysIndexed(ix, edges) && KeyFree(edges, e)
    ensures KeysIndexed(WithEdge(ix, e), edges[e.id := e])
  {
    hide Points, KeyOf, Into, JoinScopes;
    KeyPairsOfMore(edges, e);
    assert forall d :: (KeyOf(e), d) in Pairs(edges, KeySet) ==> d in edges && KeyOf(e) in KeySet(edges[d]);
    PointFiles(ix.byKey, Pairs(edges, KeySet), KeyOf(e), e.id);
  }

  lemma FiledName(ix: Index, edges: Edges, e: Edge)
    requires e.id !in edges && NamesIndexed(ix, edges) && NameFree(edges, e)
    ensures NamesIndexed(WithEdge(ix, e), edges[e.id := e])
  {
    hide Points, KeyOf, Into, JoinScopes;
    KeyPairsOfMore(edges, e);
    assert forall d :: (e.relationship, d) in Pairs(edges, NameSet) ==>
        d in edges && e.relationship in NameSet(edges[d]);
    PointFiles(ix.byRelationship, Pairs(edges, NameSet), e.relationship, e.id);
  }

  lemma FiledFound(ix: Index, edges: Edges, e: Edge)
    requires e.id !in edges && EdgesFound(ix, edges)
    ensures EdgesFound(WithEdge(ix, e), edges[e.id := e])
  {
    hide Files, Points, Pairs, Into, JoinScopes;
    FiledIncident(ix.incident, edges, e);
    FiledOne(ix.outgoing, edges, FromSet, e, e.from);
    FiledOne(ix.incoming, edges, ToSet, e, e.to);
  }

  lemma FiledClassified(ix: Index, edges: Edges, e: Edge)
    requires e.id !in edges && EdgesClassified(ix, edges)
    ensures EdgesClassified(WithEdge(ix, e), edges[e.id := e])
  {
    hide Files, Points, Pairs, Into, JoinScopes;
    FiledOne(ix.byRelation, edges, RelationSet, e, e.relation);
    FiledOne(ix.byLayer, edges, LayerSet, e, e.layer);
    FiledOne(ix.byLifecycle, edges, LifecycleSet, e, e.lifecycle);
    if e.provenance.publisher == "" {
      FiledNone(ix.byPublisher, edges, PublisherSet, e);
    } else {
      FiledOne(ix.byPublisher, edges, PublisherSet, e, e.provenance.publisher);
    }
    if e.attachment.None? {
      FiledNone(ix.byAttachment, edges, AttachmentSet, e);
    } else {
      FiledOne(ix.byAttachment, edges, AttachmentSet, e, e.attachment.value);
    }
  }

  lemma JoinedScopes(rosters: Rosters, declared: set<DomainId>, members: set<(DomainId, NodeId)>, edges: Edges, e: Edge)
    requires e.id !in edges && Enrolled(rosters, declared, members, Pairs(edges, ScopeSet))
    ensures Enrolled(JoinScopes(rosters, e), declared, members, Pairs(edges[e.id := e], ScopeSet))
  {
    hide Enrolled, Pairs, JoinEdge;
    var before := Pairs(edges, ScopeSet);
    PairsOfMore(edges, ScopeSet, e);
    JoinEdgeEnrolls(rosters, declared, members, before, e.domain, e.id);
    if Crosses(e) {
      OwnTwo(e.domain, e.secondary, e.id);
      JoinEdgeEnrolls(JoinEdge(rosters, e.domain, e.id), declared, members, before + {(e.domain, e.id)},
          e.secondary, e.id);
      assert before + ({(e.domain, e.id)} + {(e.secondary, e.id)})
          == before + {(e.domain, e.id)} + {(e.secondary, e.id)};
    } else {
      OwnOne(e.domain, e.id);
    }
  }

  /** Filing an edge keeps every bucket what a rebuild would make, whatever its key and name are. */
  lemma WithEdgeBucketed(ix: Index, declared: set<DomainId>, nodes: Nodes, edges: Edges, e: Edge)
    requires Bucketed(ix, declared, nodes, edges) && e.id !in edges
    ensures Bucketed(WithEdge(ix, e), declared, nodes, edges[e.id := e])
  {
    hide EdgesFound, EdgesClassified, Enrolled, JoinScopes, Pairs;
    FiledFound(ix, edges, e);
    FiledClassified(ix, edges, e);
    JoinedScopes(ix.rosters, declared, NodeScopePairs(nodes), edges, e);
  }

  lemma SameEntities(ix: Index, e: Edge, declared: set<DomainId>)
    ensures WithEdge(ix, e).byEntity == ix.byEntity && WithoutEdge(ix, declared, e).byEntity == ix.byEntity
  {
    hide Into, OutOf, JoinScopes, LeaveScopes, Unpoint;
  }

  /** Filing and withdrawing an edge changes what the lookups find in the same way. */
  lemma FiledLookups(ix: Index, declared: set<DomainId>, e: Edge)
    ensures Found(WithEdge(ix, e)) == Enlist(Found(ix), e)
    ensures Found(WithoutEdge(ix, declared, e)) == Delist(Found(ix), e)
  {
    hide Into, OutOf, JoinScopes, LeaveScopes, KeyOf, Unpoint;
  }

  lemma FiledAims(ix: Index, edges: Edges, e: Edge)
    requires LookupsAim(ix, edges) && e.id !in edges
    ensures LookupsAim(WithEdge(ix, e), edges[e.id := e])
  {
    hide Into, JoinScopes, KeyOf;
  }

  lemma WithdrawnAims(ix: Index, declared: set<DomainId>, edges: Edges, id: EdgeId)
    requires LookupsAim(ix, edges) && id in edges && edges[id].id == id
    ensures LookupsAim(WithoutEdge(ix, declared, edges[id]), edges - {id})
  {
    hide OutOf, LeaveScopes, KeyOf;
  }

  /** Filing an edge whose key and name are free makes the index a rebuild would make. */
  lemma WithEdgeIndexed(ix: Index, declared: set<DomainId>, nodes: Nodes, edges: Edges, e: Edge)
    requires Indexed(ix, declared, nodes, edges) && e.id !in edges && KeyFree(edges, e) && NameFree(edges, e)
    ensures Indexed(WithEdge(ix, e), declared, nodes, edges[e.id := e])
  {
    hide Bucketed, KeysIndexed, NamesIndexed, WithEdge, Points;
    WithEdgeBucketed(ix, declared, nodes, edges, e);
    SameEntities(ix, e, declared);
    FiledKey(ix, edges, e);
    FiledName(ix, edges, e);
  }

  // ---- One edge fewer ---------------------------------------------------------------------------------

  lemma WithdrawnIncident(index: Buckets<NodeId, EdgeId>, edges: Edges, id: EdgeId)
    requires id in edges && Files(index, Pairs(edges, EndSet))
    ensures var e := edges[id]; var fromGone := OutOf(index, e.from, id);
            Files(if e.to != e.from then OutOf(fromGone, e.to, id) else fromGone, Pairs(edges - {id}, EndSet))
  {
    hide Files, Pairs, OutOf;
    var e := edges[id];
    var before := Pairs(edges, EndSet);
    PairsOfFewer(edges, EndSet, id);
    OwnTwo(e.from, e.to, id);
    OutOfFiles(index, before, e.from, id);
    OutOfFiles(OutOf(index, e.from, id), before - {(e.from, id)}, e.to, id);
    assert before - ({(e.from, id)} + {(e.to, id)}) == before - {(e.from, id)} - {(e.to, id)};
    if e.to == e.from {
      assert before - {(e.from, id)} - {(e.to, id)} == before - {(e.from, id)};
    }
  }

  lemma WithdrawnLookups(ix: Index, declared: set<DomainId>, edges: Edges, id: EdgeId)
    requires id in edges && edges[id].id == id
    ensures KeysIndexed(ix, edges) ==> KeysIndexed(WithoutEdge(ix, declared, edges[id]), edges - {id})
    ensures NamesIndexed(ix, edges) ==> NamesIndexed(WithoutEdge(ix, declared, edges[id]), edges - {id})
  {
    hide Files, Points, Pairs, OutOf, LeaveScopes, Unpoint, KeyOf;
    var e := edges[id];
    PairsOfFewer(edges, KeySet, id);
    PairsOfFewer(edges, NameSet, id);
    OwnOne(KeyOf(e), id);
    OwnOne(e.relationship, id);
    if KeysIndexed(ix, edges) {
      UnpointFiles(ix.byKey, Pairs(edges, KeySet), KeyOf(e), id);
    }
    if NamesIndexed(ix, edges) {
      UnpointFiles(ix.byRelationship, Pairs(edges, NameSet), e.relationship, id);
    }
  }

  lemma WithdrawnFound(ix: Index, declared: set<DomainId>, edges: Edges, id: EdgeId)
    requires id in edges && edges[id].id == id && EdgesFound(ix, edges)
    ensures EdgesFound(WithoutEdge(ix, declared, edges[id]), edges - {id})
  {
    hide Files, Points, Pairs, OutOf, LeaveScopes, Unpoint;
    var e := edges[id];
    WithdrawnIncident(ix.incident, edges, id);
    WithdrawnOne(ix.outgoing, edges, FromSet, id, e.from);
    WithdrawnOne(ix.incoming, edges, ToSet, id, e.to);
  }

  lemma WithdrawnClassified(ix: Index, declared: set<DomainId>, edges: Edges, id: EdgeId)
    requires id in edges && edges[id].id == id && EdgesClassified(ix, edges)
    ensures EdgesClassified(WithoutEdge(ix, declared, edges[id]), edges - {id})
  {
    hide Files, Points, Pairs, OutOf, LeaveScopes, Unpoint;
    var e := edges[id];
    WithdrawnOne(ix.byRelation, edges, RelationSet, id, e.relation);
    WithdrawnOne(ix.byLayer, edges, LayerSet, id, e.layer);
    WithdrawnOne(ix.byLifecycle, edges, LifecycleSet, id, e.lifecycle);
    if e.provenance.publisher == "" {
      WithdrawnNone(ix.byPublisher, edges, PublisherSet, id);
    } else {
      WithdrawnOne(ix.byPublisher, edges, PublisherSet, id, e.provenance.publisher);
    }
    if e.attachment.None? {
      WithdrawnNone(ix.byAttachment, edges, AttachmentSet, id);
    } else {
      WithdrawnOne(ix.byAttachment, edges, AttachmentSet, id, e.attachment.value);
    }
  }

  /** The edge is the last thing in an undeclared secondary scope of its own. */
  ghost predicate StrandsScope(declared: set<DomainId>, nodes: Nodes, edges: Edges, id: EdgeId)
    requires id in edges
  {
    var e := edges[id];
    && Crosses(e) && e.secondary != e.domain && e.secondary !in declared
    && (forall n :: n in nodes ==> nodes[n].domain != e.secondary)
    && (forall d :: d in edges && d != id ==> e.secondary !in ScopeSet(edges[d]))
  }

  lemma LeftScopes(rosters: Rosters, declared: set<DomainId>, nodes: Nodes, edges: Edges, id: EdgeId)
    requires id in edges && edges[id].id == id
    requires Enrolled(rosters, declared, NodeScopePairs(nodes), Pairs(edges, ScopeSet))
    ensures Enrolled(LeaveScopes(rosters, declared, edges[id]), declared, NodeScopePairs(nodes),
                     Pairs(edges - {id}, ScopeSet))
            <==> !StrandsScope(declared, nodes, edges, id)
  {
    hide Enrolled, LeaveEdge, LeaveSecondary;
    var e := edges[id];
    var before, members := Pairs(edges, ScopeSet), NodeScopePairs(nodes);
    PairsOfFewer(edges, ScopeSet, id);
    LeaveEdgeEnrolls(rosters, declared, members, before, e.domain, id);
    if Crosses(e) {
      OwnTwo(e.domain, e.secondary, id);
      var rest := before - {(e.domain, id)};
      LeaveSecondaryEnrolls(LeaveEdge(rosters, declared, e.domain, id), declared, members, rest, e.secondary, id);
      assert before - ({(e.domain, id)} + {(e.secondary, id)}) == rest - {(e.secondary, id)};
      StrandsMeans(declared, nodes, edges, id);
    } else {
      OwnOne(e.domain, id);
    }
  }

  lemma StrandsMeans(declared: set<DomainId>, nodes: Nodes, edges: Edges, id: EdgeId)
    requires id in edges && Crosses(edges[id])
    ensures StrandsScope(declared, nodes, edges, id)
            <==> Strands(declared, NodeScopePairs(nodes), Pairs(edges, ScopeSet) - {(edges[id].domain, id)},
                         edges[id].secondary, id)
  {
    var e := edges[id];
    var rest := Pairs(edges, ScopeSet) - {(e.domain, id)};
    assert e.secondary in ScopeSet(e) && (e.secondary, id) in Pairs(edges, ScopeSet);
    assert (e.secondary, id) in rest <==> e.secondary != e.domain;
    assert (forall n :: (e.secondary, n) !in NodeScopePairs(nodes)) <==>
           (forall n :: n in nodes ==> nodes[n].domain != e.secondary) by {
      assert forall n :: n in nodes ==> (nodes[n].domain, n) in NodeScopePairs(nodes);
    }
    assert forall d :: d != id ==> ((e.secondary, d) in rest <==> d in edges && e.secondary in ScopeSet(edges[d]));
  }

  /** Withdrawing an edge keeps the buckets what a rebuild would make exactly when no undeclared scope is stranded. */
  lemma WithoutEdgeBucketed(ix: Index, declared: set<DomainId>, nodes: Nodes, edges: Edges, id: EdgeId)
    requires Bucketed(ix, declared, nodes, edges) && id in edges && edges[id].id == id
    ensures Bucketed(WithoutEdge(ix, declared, edges[id]), declared, nodes, edges - {id})
            <==> !StrandsScope(declared, nodes, edges, id)
  {
    hide EdgesFound, EdgesClassified, Enrolled, LeaveScopes, Pairs, StrandsScope;
    WithdrawnFound(ix, declared, edges, id);
    WithdrawnClassified(ix, declared, edges, id);
    LeftScopes(ix.rosters, declared, nodes, edges, id);
  }

  /** Withdrawing an edge leaves the index a rebuild would make exactly when no undeclared scope is stranded. */
  lemma WithoutEdgeIndexed(ix: Index, declared: set<DomainId>, nodes: Nodes, edges: Edges, id: EdgeId)
    requires Indexed(ix, declared, nodes, edges) && id in edges && edges[id].id == id
    ensures Indexed(WithoutEdge(ix, declared, edges[id]), declared, nodes, edges - {id})
            <==> !StrandsScope(declared, nodes, edges, id)
  {
    hide Bucketed, KeysIndexed, NamesIndexed, WithoutEdge, Points, StrandsScope;
    WithoutEdgeBucketed(ix, declared, nodes, edges, id);
    SameEntities(ix, edges[id], declared);
    WithdrawnLookups(ix, declared, edges, id);
  }

  // ---- An insertion and its undoing -----------------------------------------------------------------------

  /** Filing an edge and withdrawing it again leaves the name index as it was exactly when
      nothing else held the name: a holder it displaced is lost to the index. */
  lemma UndoneInsertionKeepsNames(ix: Index, declared: set<DomainId>, edges: Edges, e: Edge)
    requires NamesIndexed(ix, edges) && e.id !in edges
    ensures NamesIndexed(WithoutEdge(WithEdge(ix, e), declared, e), edges) <==> NameFree(edges, e)
  {
    hide WithEdge, WithoutEdge, Pairs;
    var after := WithoutEdge(WithEdge(ix, e), declared, e);
    UndoneName(ix, declared, e);
    NamePairs(edges);
    assert forall n :: n in ix.byRelationship ==> (n, ix.byRelationship[n]) in Pairs(edges, NameSet);
    if NameFree(edges, e) {
      assert after.byRelationship == ix.byRelationship;
    } else {
      var d :| d in edges && edges[d].relationship == e.relationship;
      assert (e.relationship, d) in Pairs(edges, NameSet);
    }
  }

  lemma UndoneName(ix: Index, declared: set<DomainId>, e: Edge)
    ensures WithoutEdge(WithEdge(ix, e), declared, e).byRelationship == ix.byRelationship - {e.relationship}
  {
    hide Into, OutOf, JoinScopes, LeaveScopes, KeyOf;
  }

  lemma NamePairs(edges: Edges)
    ensures forall n, d :: (n, d) in Pairs(edges, NameSet) <==> d in edges && edges[d].relationship == n
  {
    forall n, d
      ensures (n, d) in Pairs(edges, NameSet) <==> d in edges && edges[d].relationship == n
    {
      assert d in edges && edges[d].relationship == n ==> n in NameSet(edges[d]);
    }
  }

  // ---- Nodes --------------------------------------------------------------------------------------------

  lemma NodePairsOfMore(nodes: Nodes, n: Node)
    requires n.id !in nodes
    ensures EntityPairs(nodes[n.id := n]) == EntityPairs(nodes) + {(n.entity, n.id)}
    ensures NodeScopePairs(nodes[n.id := n]) == NodeScopePairs(nodes) + {(n.domain, n.id)}
  {
    var after := nodes[n.id := n];
    assert after[n.id] == n && forall m :: m in nodes ==> after[m] == nodes[m];
    forall p
      ensures p in EntityPairs(after) <==> p in EntityPairs(nodes) + {(n.entity, n.id)}
      ensures p in NodeScopePairs(after) <==> p in NodeScopePairs(nodes) + {(n.domain, n.id)}
    {
      assert p.1 in after <==> p.1 in nodes || p.1 == n.id;
    }
  }

  lemma NodePairsOfFewer(nodes: Nodes, id: NodeId)
    requires id in nodes
    ensures EntityPairs(nodes - {id}) == EntityPairs(nodes) - {(nodes[id].entity, id)}
    ensures NodeScopePairs(nodes - {id}) == NodeScopePairs(nodes) - {(nodes[id].domain, id)}
  {
    var after := nodes - {id};
    forall p
      ensures p in EntityPairs(after) <==> p in EntityPairs(nodes) - {(nodes[id].entity, id)}
      ensures p in NodeScopePairs(after) <==> p in NodeScopePairs(nodes) - {(nodes[id].domain, id)}
    {
      assert p.1 in after <==> p.1 in nodes && p.1 != id;
    }
  }

  /** Filing a node keeps the buckets right, whatever its entity is. */
  lemma WithNodeBucketed(ix: Index, declared: set<DomainId>, nodes: Nodes, edges: Edges, n: Node)
    requires Bucketed(ix, declared, nodes, edges) && n.id !in nodes
    ensures Bucketed(WithNode(ix, n), declared, nodes[n.id := n], edges)
  {
    hide EdgesFound, EdgesClassified, Enrolled, Pairs, JoinNode, KeysIndexed, NamesIndexed;
    NodePairsOfMore(nodes, n);
    JoinNodeEnrolls(ix.rosters, declared, NodeScopePairs(nodes), Pairs(edges, ScopeSet), n.domain, n.id);
    SameEdgeIndexes(ix, WithNode(ix, n), edges);
  }

  lemma WithNodeEntity(ix: Index, nodes: Nodes, n: Node)
    requires NodesIndexed(ix, nodes) && n.id !in nodes && forall m :: m in nodes ==> nodes[m].entity != n.entity
    ensures NodesIndexed(WithNode(ix, n), nodes[n.id := n])
  {
    hide Points, JoinNode;
    NodePairsOfMore(nodes, n);
    PointFiles(ix.byEntity, EntityPairs(nodes), n.entity, n.id);
  }

  lemma WithNodeIndexed(ix: Index, declared: set<DomainId>, nodes: Nodes, edges: Edges, n: Node)
    requires Indexed(ix, declared, nodes, edges) && n.id !in nodes
    requires forall m :: m in nodes ==> nodes[m].entity != n.entity
    ensures Indexed(WithNode(ix, n), declared, nodes[n.id := n], edges)
  {
    hide Bucketed, KeysIndexed, NamesIndexed, NodesIndexed, JoinNode;
    WithNodeBucketed(ix, declared, nodes, edges, n);
    WithNodeEntity(ix, nodes, n);
    SameEdgeIndexes(ix, WithNode(ix, n), edges);
  }

  lemma WithoutNodeBucketed(ix: Index, declared: set<DomainId>, nodes: Nodes, edges: Edges, id: NodeId)
    requires Bucketed(ix, declared, nodes, edges) && id in nodes && nodes[id].id == id
    ensures Bucketed(WithoutNode(ix, declared, nodes[id]), declared, nodes - {id}, edges)
  {
    hide EdgesFound, EdgesClassified, Enrolled, Pairs, LeaveNode, Unpoint, KeysIndexed, NamesIndexed;
    var n := nodes[id];
    NodePairsOfFewer(nodes, id);
    LeaveNodeEnrolls(ix.rosters, declared, NodeScopePairs(nodes), Pairs(edges, ScopeSet), n.domain, id);
    SameEdgeIndexes(ix, WithoutNode(ix, declared, n), edges);
  }

  lemma WithoutNodeEntity(ix: Index, declared: set<DomainId>, nodes: Nodes, id: NodeId)
    requires NodesIndexed(ix, nodes) && id in nodes && nodes[id].id == id
    ensures NodesIndexed(WithoutNode(ix, declared, nodes[id]), nodes - {id})
  {
    hide Points, LeaveNode, Unpoint;
    NodePairsOfFewer(nodes, id);
    UnpointFiles(ix.byEntity, EntityPairs(nodes), nodes[id].entity, id);
  }

  lemma WithoutNodeIndexed(ix: Index, declared: set<DomainId>, nodes: Nodes, edges: Edges, id: NodeId)
    requires Indexed(ix, declared, nodes, edges) && id in nodes && nodes[id].id == id
    ensures Indexed(WithoutNode(ix, declared, nodes[id]), declared, nodes - {id}, edges)
  {
    hide Bucketed, KeysIndexed, NamesIndexed, NodesIndexed, LeaveNode, Unpoint;
    WithoutNodeBucketed(ix, declared, nodes, edges, id);
    WithoutNodeEntity(ix, declared, nodes, id);
    SameEdgeIndexes(ix, WithoutNode(ix, declared, nodes[id]), edges);
  }

  lemma SameEdgeIndexes(a: Index, b: Index, edges: Edges)
    requires b == a.(byEntity := b.byEntity, rosters := b.rosters)
    ensures EdgesFound(a, edges) ==> EdgesFound(b, edges)
    ensures EdgesClassified(a, edges) ==> EdgesClassified(b, edges)
    ensures KeysIndexed(a, edges) ==> KeysIndexed(b, edges)
    ensures NamesIndexed(a, edges) ==> NamesIndexed(b, edges)
    ensures b.byKey == a.byKey && b.byRelationship == a.byRelationship
  {
    hide Files, Points, Pairs;
  }

  /** The incident bucket of a node is every edge that touches it. */
  lemma IncidentLookup(edges: Edges, incident: Buckets<NodeId, EdgeId>, n: NodeId)
    requires Files(incident, Pairs(edges, EndSet))
    ensures forall e :: e in (if n in incident then incident[n] else {}) <==> e in edges && Touches(edges[e], n)
  {
    forall e
      ensures e in (if n in incident then incident[n] else {}) <==> e in edges && Touches(edges[e], n)
    {
      assert Has(incident, n, e) <==> (n, e) in Pairs(edges, EndSet);
      assert e in edges ==> (Touches(edges[e], n) <==> n in EndSet(edges[e]));
    }
  }
}
