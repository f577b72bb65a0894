/** The authoritative topology: nodes, edges, declared scopes, and what makes a graph sound. */
module Graphs {
  import opened Types
  import opened Paths
  import opened Indexes
  import opened Orders

  type Metadata = seq<(string, string)>

  datatype Provenance = Provenance(
    publisher: PublisherId, boot: BootId, epoch: Counter, source: Source, evidenceType: EvidenceType,
    evidence: Counter, sourceRelationship: string, publication: string, created: Counter, validated: Counter)

  datatype Node = Node(
    id: NodeId, entity: string, entityClass: EntityClass, entityGeneration: Counter, nodeClass: NodeClass, tier: Tier,
    domain: DomainId, generation: Counter, created: Counter, validated: Counter, lifecycle: Lifecycle,
    provenance: Provenance, metadata: Metadata)

  datatype Edge = Edge(
    id: EdgeId, relationship: RelId, relation: Relation, from: NodeId, to: NodeId, layer: Layer, domain: DomainId,
    crossDomain: bool, secondary: DomainId, generation: Counter, created: Counter, validated: Counter,
    evidence: Counter, fromGeneration: Counter, toGeneration: Counter, lifecycle: Lifecycle,
    supportedBy: Option<EdgeId>, supersededBy: Option<EdgeId>, attachment: Option<string>,
    provenance: Provenance, metadata: Metadata)

  datatype DomainDefinition = DomainDefinition(
    id: DomainId, kind: ScopeKind, anchor: string, anchorClass: EntityClass, parent: DomainId)

  datatype CrossDomainRule = CrossDomainRule(from: DomainId, to: DomainId, relation: Relation, symmetric: bool)

  type Nodes = map<NodeId, Node>
  type Edges = map<EdgeId, Edge>

  predicate Dead(l: Lifecycle) {
    l == Retired || l == Superseded
  }

  predicate Live(e: Edge) {
    !Dead(e.lifecycle)
  }

  predicate Touches(e: Edge, n: NodeId) {
    e.from == n || e.to == n
  }

  // ---- Relationship identity -------------------------------------------------

  datatype EdgeKey = EdgeKey(relation: Relation, first: NodeId, second: NodeId, domain: DomainId)

  predicate Swapped(r: Relation, from: NodeId, to: NodeId) {
    Undirected(r) && Less(to, from)
  }

  function MakeKey(r: Relation, from: NodeId, to: NodeId, domain: DomainId): EdgeKey {
    if Swapped(r, from, to) then EdgeKey(r, to, from, domain) else EdgeKey(r, from, to, domain)
  }

  /** Two endpoint pairs share a key exactly when they name the same relationship. */
  lemma SameKey(r: Relation, a: NodeId, b: NodeId, c: NodeId, d: NodeId, domain: DomainId)
    ensures MakeKey(r, a, b, domain) == MakeKey(r, c, d, domain)
            <==> (a, b) == (c, d) || (Undirected(r) && (a, b) == (d, c))
  {
    LessTotal(a, b);
    LessTotal(c, d);
  }

  function KeyOf(e: Edge): EdgeKey {
    MakeKey(e.relation, e.from, e.to, e.domain)
  }

  /** The stored orientation of a relationship: undirected ones are kept with the smaller endpoint first. */
  function Normalize(r: Relation, from: NodeId, to: NodeId): (p: (NodeId, NodeId))
    ensures !Swapped(r, p.0, p.1)
    ensures forall d :: MakeKey(r, p.0, p.1, d) == MakeKey(r, from, to, d) == EdgeKey(r, p.0, p.1, d)
  {
    LessTotal(from, to);
    if Swapped(r, from, to) then (to, from) else (from, to)
  }

  // ---- Lookups ---------------------------------------------------------------

  /** For each relationship key and each name, the edge that was last filed for it and not withdrawn since. */
  datatype Lookups = Lookups(keys: map<EdgeKey, EdgeId>, names: map<RelId, EdgeId>)

  datatype Graph = Graph(
    nodes: Nodes, edges: Edges, lookups: Lookups, generation: Counter, ordinal: Counter,
    domains: map<DomainId, DomainDefinition>, rules: seq<CrossDomainRule>)

  const NO_LOOKUPS := Lookups(map[], map[])

  /** Filing an edge takes its key and its name over from whatever held them. */
  function Enlist(l: Lookups, e: Edge): Lookups {
    Lookups(l.keys[KeyOf(e) := e.id], l.names[e.relationship := e.id])
  }

  /** Withdrawing an edge gives up its key and its name, unless another edge has taken them over. */
  function Delist(l: Lookups, e: Edge): Lookups {
    Lookups(Unpoint(l.keys, KeyOf(e), e.id), Unpoint(l.names, e.relationship, e.id))
  }

  /** Replacing an edge withdraws it and files it anew. */
  function Relist(l: Lookups, before: Edge, after: Edge): Lookups {
    Enlist(Delist(l, before), after)
  }

  /** Filing these edges anew, one after the other. */
  function Relisted(l: Lookups, edges: Edges, order: seq<EdgeId>): Lookups {
    if order == [] then l
    else
      var before := Relisted(l, edges, order[..|order| - 1]);
      var last := order[|order| - 1];
      if last in edges then Enlist(before, edges[last]) else before
  }

  /** Filing a set of edges anew in ascending order. */
  function Refiled(l: Lookups, edges: Edges, ids: set<EdgeId>): Lookups {
    Relisted(l, edges, Sorted(ids))
  }

  /** Filing them back, newest first: what undoing one change each makes of the lookups. */
  function FiledBack(l: Lookups, edges: Edges, ids: set<EdgeId>): Lookups {
    Relisted(l, edges, Reversed(Sorted(ids)))
  }

  /** Withdrawing all of these edges. */
  function Delisted(l: Lookups, edges: Edges, ids: set<EdgeId>): Lookups {
    Lookups(
      map k | k in l.keys && !(l.keys[k] in ids && l.keys[k] in edges && KeyOf(edges[l.keys[k]]) == k) :: l.keys[k],
      map n | n in l.names && !(l.names[n] in ids && l.names[n] in edges && edges[l.names[n]].relationship == n)
        :: l.names[n])
  }

  lemma DelistedOneMore(l: Lookups, edges: Edges, ids: set<EdgeId>, id: EdgeId)
    requires id in edges && edges[id].id == id
    ensures Delist(Delisted(l, edges, ids), edges[id]) == Delisted(l, edges, ids + {id})
  {
    hide KeyOf;
    var a, b := Delist(Delisted(l, edges, ids), edges[id]), Delisted(l, edges, ids + {id});
    assert a.keys == b.keys;
    assert a.names == b.names;
  }

  lemma DelistedNone(l: Lookups, edges: Edges)
    ensures Delisted(l, edges, {}) == l
  {
    hide KeyOf;
    assert Delisted(l, edges, {}).keys == l.keys && Delisted(l, edges, {}).names == l.names;
  }

  /** Both lookups point to the edge. */
  predicate Listed(l: Lookups, e: Edge) {
    && KeyOf(e) in l.keys && l.keys[KeyOf(e)] == e.id
    && e.relationship in l.names && l.names[e.relationship] == e.id
  }

  /** What the key index finds. */
  function FindKey(g: Graph, key: EdgeKey): (r: Option<EdgeId>)
    ensures r.Some? ==> r.value in g.edges && KeyOf(g.edges[r.value]) == key
  {
    if key in g.lookups.keys && g.lookups.keys[key] in g.edges && KeyOf(g.edges[g.lookups.keys[key]]) == key
    then Some(g.lookups.keys[key]) else None
  }

  /** What the name index finds. */
  function FindRelationship(g: Graph, rel: RelId): (r: Option<EdgeId>)
    ensures r.Some? ==> r.value in g.edges && g.edges[r.value].relationship == rel
  {
    if rel in g.lookups.names && g.lookups.names[rel] in g.edges && g.edges[g.lookups.names[rel]].relationship == rel
    then Some(g.lookups.names[rel]) else None
  }

  /** Whatever the lookups point to holds what it is looked up by. */
  ghost predicate Aimed(g: Graph) {
    && (forall k :: k in g.lookups.keys ==> g.lookups.keys[k] in g.edges && KeyOf(g.edges[g.lookups.keys[k]]) == k)
    && (forall n :: n in g.lookups.names ==>
          g.lookups.names[n] in g.edges && g.edges[g.lookups.names[n]].relationship == n)
  }

  /** Every edge is found by its key and by its name. */
  ghost predicate Complete(g: Graph) {
    forall e :: e in g.edges ==>
      FindKey(g, KeyOf(g.edges[e])) == Some(e) && FindRelationship(g, g.edges[e].relationship) == Some(e)
  }

  /** Where every edge is found, nothing is held twice. */
  lemma CompleteIsUnique(g: Graph)
    requires Complete(g)
    ensures KeysUnique(g.edges) && RelationshipsUnique(g.edges)
  {
    hide KeyOf;
    forall d, e | d in g.edges && e in g.edges && KeyOf(g.edges[d]) == KeyOf(g.edges[e])
      ensures d == e
    {
      assert FindKey(g, KeyOf(g.edges[d])) == Some(d) && FindKey(g, KeyOf(g.edges[e])) == Some(e);
    }
  }

  ghost function FindEntity(nodes: Nodes, entity: string): (r: Option<NodeId>)
    ensures r.Some? ==> r.value in nodes && nodes[r.value].entity == entity
    ensures r.None? ==> forall id :: id in nodes ==> nodes[id].entity != entity
  {
    if exists id :: id in nodes && nodes[id].entity == entity
    then var id :| id in nodes && nodes[id].entity == entity; Some(id)
    else None
  }

  // ---- Soundness -------------------------------------------------------------

  ghost predicate NodesFiled(nodes: Nodes) {
    forall n :: n in nodes ==> nodes[n].id == n
  }

  ghost predicate EntitiesUnique(nodes: Nodes) {
    forall m, n :: m in nodes && n in nodes && nodes[m].entity == nodes[n].entity ==> m == n
  }

  ghost predicate EdgesFiled(edges: Edges) {
    forall e :: e in edges ==> edges[e].id == e
  }

  ghost predicate EndpointsExist(nodes: Nodes, edges: Edges) {
    forall e :: e in edges ==> edges[e].from in nodes && edges[e].to in nodes
  }

  ghost predicate EdgesNormalized(edges: Edges) {
    forall e :: e in edges ==> !Swapped(edges[e].relation, edges[e].from, edges[e].to)
  }

  ghost predicate KeysUnique(edges: Edges) {
    forall d, e :: d in edges && e in edges && KeyOf(edges[d]) == KeyOf(edges[e]) ==> d == e
  }

  ghost predicate RelationshipsUnique(edges: Edges) {
    forall d, e :: d in edges && e in edges && edges[d].relationship == edges[e].relationship ==> d == e
  }

  ghost predicate NodeScopesDeclared(nodes: Nodes, domains: set<DomainId>) {
    forall n :: n in nodes ==> nodes[n].domain in domains
  }

  ghost predicate EdgeScopesDeclared(edges: Edges, domains: set<DomainId>) {
    forall e :: e in edges ==> edges[e].domain in domains && (edges[e].crossDomain ==> edges[e].secondary in domains)
  }

  /** The directed structure of one relation class, over relationships that are neither retired nor superseded. */
  ghost function LiveArcs(edges: Edges, r: Relation): Arcs<NodeId> {
    set e | e in edges && edges[e].relation == r && Live(edges[e]) :: (edges[e].from, edges[e].to)
  }

  ghost predicate AcyclicWhereRequired(edges: Edges) {
    forall r :: MustStayAcyclic(r) ==> Acyclic(LiveArcs(edges, r))
  }

  /** What every run keeps, whatever is asked: identities filed under themselves, nodes
      bound one to one, no dangling endpoint, declared scopes, normalized undirected
      edges, and no cycle of live edges where a relation forbids it. */
  ghost predicate Shaped(g: Graph) {
    && NodesFiled(g.nodes)
    && EntitiesUnique(g.nodes)
    && NodeScopesDeclared(g.nodes, g.domains.Keys)
    && EdgesFiled(g.edges)
    && EndpointsExist(g.nodes, g.edges)
    && EdgesNormalized(g.edges)
    && EdgeScopesDeclared(g.edges, g.domains.Keys)
    && AcyclicWhereRequired(g.edges)
  }

  /** A shaped graph in which no relationship is stored twice. */
  ghost predicate Structured(g: Graph) {
    Shaped(g) && KeysUnique(g.edges)
  }

  /** A structured graph in which no relationship name is used twice. */
  ghost predicate Sound(g: Graph) {
    Structured(g) && RelationshipsUnique(g.edges)
  }

  /** What is used once before is used once after. */
  ghost predicate KeepsUnique(before: Edges, after: Edges) {
    && (KeysUnique(before) ==> KeysUnique(after))
    && (RelationshipsUnique(before) ==> RelationshipsUnique(after))
  }

  // ---- How edges may change without changing the structure ---------------------

  /** Retired is absorbing; Superseded can only stay or become Retired. */
  predicate Ages(before: Lifecycle, after: Lifecycle) {
    && (before == Retired ==> after == Retired)
    && (before == Superseded ==> Dead(after))
  }

  predicate SameShape(d: Edge, e: Edge) {
    && d.id == e.id && d.relation == e.relation && d.from == e.from && d.to == e.to
    && d.domain == e.domain && d.crossDomain == e.crossDomain && d.secondary == e.secondary
  }

  ghost predicate EdgesAge(before: Edges, after: Edges) {
    forall e :: e in before && e in after ==> Ages(before[e].lifecycle, after[e].lifecycle)
  }

  /** The same edges with the same shape, each no more alive than Ages allows. */
  ghost predicate Reshaped(before: Edges, after: Edges) {
    after.Keys == before.Keys && EdgesAge(before, after)
    && forall e :: e in before ==> SameShape(before[e], after[e])
  }

  ghost predicate SameNames(before: Edges, after: Edges) {
    forall e :: e in before && e in after ==> before[e].relationship == after[e].relationship
  }

  lemma ReshapedArcs(before: Edges, after: Edges, r: Relation)
    requires Reshaped(before, after)
    ensures LiveArcs(after, r) <= LiveArcs(before, r)
  {
    forall p | p in LiveArcs(after, r)
      ensures p in LiveArcs(before, r)
    {
      var e :| e in after && after[e].relation == r && Live(after[e]) && p == (after[e].from, after[e].to);
      assert SameShape(before[e], after[e]) && Live(before[e]);
    }
  }

  lemma ReshapedKeepsEdges(before: Edges, after: Edges)
    requires Reshaped(before, after)
    ensures EdgesFiled(before) ==> EdgesFiled(after)
    ensures EdgesNormalized(before) ==> EdgesNormalized(after)
    ensures KeysUnique(before) ==> KeysUnique(after)
    ensures SameNames(before, after) && RelationshipsUnique(before) ==> RelationshipsUnique(after)
    ensures AcyclicWhereRequired(before) ==> AcyclicWhereRequired(after)
  {
    assert forall e :: e in before ==> SameShape(before[e], after[e]) && KeyOf(before[e]) == KeyOf(after[e]);
    if AcyclicWhereRequired(before) {
      forall r | MustStayAcyclic(r)
        ensures Acyclic(LiveArcs(after, r))
      {
        ReshapedArcs(before, after, r);
        FewerArcsStayAcyclic(LiveArcs(after, r), LiveArcs(before, r));
      }
    }
  }

  /** Dropping relationships keeps every edge property. */
  lemma FewerEdgesStaySound(before: Edges, after: Edges)
    requires after.Keys <= before.Keys && forall e :: e in after ==> after[e] == before[e]
    ensures EdgesFiled(before) ==> EdgesFiled(after)
    ensures EdgesNormalized(before) ==> EdgesNormalized(after)
    ensures KeysUnique(before) ==> KeysUnique(after)
    ensures RelationshipsUnique(before) ==> RelationshipsUnique(after)
    ensures AcyclicWhereRequired(before) ==> AcyclicWhereRequired(after)
  {
    if AcyclicWhereRequired(before) {
      forall r | MustStayAcyclic(r)
        ensures Acyclic(LiveArcs(after, r))
      {
        assert LiveArcs(after, r) <= LiveArcs(before, r);
        FewerArcsStayAcyclic(LiveArcs(after, r), LiveArcs(before, r));
      }
    }
  }

  /** An edge of an acyclic relation closes a cycle exactly when its target already reaches its source. */
  ghost predicate WouldCycle(edges: Edges, r: Relation, from: NodeId, to: NodeId) {
    MustStayAcyclic(r) && Reaches(LiveArcs(edges, r), to, from)
  }

  lemma NewArc(edges: Edges, e: Edge, r: Relation)
    requires e.id !in edges && Live(e)
    ensures LiveArcs(edges[e.id := e], r)
            == if r == e.relation then LiveArcs(edges, r) + {(e.from, e.to)} else LiveArcs(edges, r)
  {
    var after := edges[e.id := e];
    assert after[e.id] == e && forall d :: d in edges ==> after[d] == edges[d];
  }

  lemma NewEdgeStaysAcyclic(edges: Edges, e: Edge)
    requires e.id !in edges && Live(e)
    requires AcyclicWhereRequired(edges)
    ensures AcyclicWhereRequired(edges[e.id := e]) <==> !WouldCycle(edges, e.relation, e.from, e.to)
  {
    forall r
      ensures Acyclic(LiveArcs(edges, r)) ==>
                (Acyclic(LiveArcs(edges[e.id := e], r)) <==>
                 r != e.relation || !Reaches(LiveArcs(edges, r), e.to, e.from))
    {
      NewArc(edges, e, r);
      if r == e.relation && Acyclic(LiveArcs(edges, r)) {
        AddArcAcyclic(LiveArcs(edges, r), e.from, e.to);
      }
    }
  }
}
