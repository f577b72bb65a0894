/** The stored graph: authoritative nodes and edges, with every derived index maintained in place. */
module GraphStates {
  import opened Types
  import opened Graphs
  import opened Indexes
  import opened GraphIndex
  import Cycles

  ghost predicate SecondariesDeclared(edges: Edges, declared: set<DomainId>) {
    forall e :: e in edges && Crosses(edges[e]) ==> edges[e].secondary in declared
  }

  /** What the indexes rely on in any case: identities are filed under themselves and used once, and
      secondary scopes are declared. */
  ghost predicate Plain(g: Graph) {
    && NodesFiled(g.nodes) && EntitiesUnique(g.nodes) && EdgesFiled(g.edges)
    && SecondariesDeclared(g.edges, g.domains.Keys)
  }

  /** The lookups can find everything only where keys and names are used once as well. */
  ghost predicate Tidy(g: Graph) {
    Plain(g) && KeysUnique(g.edges) && RelationshipsUnique(g.edges)
  }

  /** The indexes are what a rebuild makes, except that the key and the name lookup may miss something. */
  ghost predicate PlainlyIndexed(ix: Index, g: Graph) {
    Bucketed(ix, g.domains.Keys, g.nodes, g.edges) && NodesIndexed(ix, g.nodes) && LookupsAim(ix, g.edges)
  }

  ghost predicate FullyIndexed(ix: Index, g: Graph) {
    Indexed(ix, g.domains.Keys, g.nodes, g.edges)
  }

  lemma ShapedIsPlain(g: Graph)
    requires Shaped(g)
    ensures Plain(g)
  {
    hide EntitiesUnique, AcyclicWhereRequired, NodesFiled, EdgesFiled;
  }

  lemma TidyWithoutEdge(g: Graph, id: EdgeId, l: Lookups)
    ensures Plain(g) ==> Plain(g.(edges := g.edges - {id}, lookups := l))
    ensures Tidy(g) ==> Tidy(g.(edges := g.edges - {id}, lookups := l))
  {
    hide EntitiesUnique, NodesFiled, KeyOf;
  }

  lemma TidyWithoutNode(g: Graph, id: NodeId)
    ensures Plain(g) ==> Plain(g.(nodes := g.nodes - {id}))
    ensures Tidy(g) ==> Tidy(g.(nodes := g.nodes - {id}))
  {
    hide KeysUnique, RelationshipsUnique, EdgesFiled, SecondariesDeclared;
  }

  class GraphState {
    var nodes: Nodes
    var edges: Edges
    var generation: Counter
    var ordinal: Counter
    var definitions: map<DomainId, DomainDefinition>
    var rules: seq<CrossDomainRule>

    // the twelve derived indexes
    var ix: Index

    function Content(): Graph
      reads this
    {
      Graph(nodes, edges, Found(ix), generation, ordinal, definitions, rules)
    }

    /** Every index is what a rebuild would make. */
    ghost predicate Valid()
      reads this
    {
      Tidy(Content()) && FullyIndexed(ix, Content())
    }

    /** Every index is, except that the key and the name lookup may miss something, whether or not it is held twice. */
    ghost predicate Firm()
      reads this
    {
      Plain(Content()) && PlainlyIndexed(ix, Content())
    }

    constructor ()
      ensures Valid() && Content() == Graph(map[], map[], NO_LOOKUPS, 0, 0, map[], [])
    {
      nodes, edges, generation, ordinal, definitions, rules := map[], map[], 0, 0, map[], [];
      ix := EMPTY;
      new;
      EmptyIsIndexed({}, map[]);
    }

    /** A graph of its own with the same content and the same indexes. */
    constructor Copy(other: GraphState)
      ensures Content() == other.Content() && ix == other.ix
    {
      nodes, edges, generation, ordinal := other.nodes, other.edges, other.generation, other.ordinal;
      definitions, rules, ix := other.definitions, other.rules, other.ix;
    }

    // ---- Indexing ----------------------------------------------------------------------

    method IndexNode(n: Node)
      modifies `ix
      ensures ix == WithNode(old(ix), n) && Found(ix) == Found(old(ix))
    {
      ix := ix.(byEntity := ix.byEntity[n.entity := n.id]);
      ix := ix.(rosters := JoinNode(ix.rosters, n.domain, n.id));
    }

    method UnindexNode(n: Node)
      modifies `ix
      ensures ix == WithoutNode(old(ix), definitions.Keys, n) && Found(ix) == Found(old(ix))
    {
      ix := ix.(byEntity := Unpoint(ix.byEntity, n.entity, n.id));
      ix := ix.(rosters := LeaveNode(ix.rosters, definitions.Keys, n.domain, n.id));
    }

    method IndexEdge(e: Edge)
      modifies `ix
      ensures ix == WithEdge(old(ix), e) && Found(ix) == Enlist(Found(old(ix)), e)
    {
      hide Into, JoinEdge, KeyOf, Crosses;
      ix := ix.(byKey := ix.byKey[KeyOf(e) := e.id]);
      ix := ix.(byRelationship := ix.byRelationship[e.relationship := e.id]);
      ix := ix.(incident := Into(ix.incident, e.from, e.id));
      ix := ix.(incident := Into(ix.incident, e.to, e.id));
      ix := ix.(outgoing := Into(ix.outgoing, e.from, e.id));
      ix := ix.(incoming := Into(ix.incoming, e.to, e.id));
      ix := ix.(rosters := JoinEdge(ix.rosters, e.domain, e.id));
      if Crosses(e) {
        ix := ix.(rosters := JoinEdge(ix.rosters, e.secondary, e.id));
      }
      ix := ix.(byRelation := Into(ix.byRelation, e.relation, e.id));
      ix := ix.(byLayer := Into(ix.byLayer, e.layer, e.id));
      ix := ix.(byLifecycle := Into(ix.byLifecycle, e.lifecycle, e.id));
      if e.provenance.publisher != "" {
        ix := ix.(byPublisher := Into(ix.byPublisher, e.provenance.publisher, e.id));
      }
      if e.attachment.Some? {
        ix := ix.(byAttachment := Into(ix.byAttachment, e.attachment.value, e.id));
      }
    }

    method UnindexEdge(e: Edge)
      modifies `ix
      ensures ix == WithoutEdge(old(ix), definitions.Keys, e) && Found(ix) == Delist(Found(old(ix)), e)
    {
      hide OutOf, LeaveEdge, LeaveSecondary, Unpoint, KeyOf, Crosses;
      ix := ix.(byKey := Unpoint(ix.byKey, KeyOf(e), e.id));
      ix := ix.(byRelationship := Unpoint(ix.byRelationship, e.relationship, e.id));
      ix := ix.(incident := OutOf(ix.incident, e.from, e.id));
      if e.to != e.from {
        ix := ix.(incident := OutOf(ix.incident, e.to, e.id));
      }
      ix := ix.(outgoing := OutOf(ix.outgoing, e.from, e.id));
      ix := ix.(incoming := OutOf(ix.incoming, e.to, e.id));
      ix := ix.(rosters := LeaveEdge(ix.rosters, definitions.Keys, e.domain, e.id));
      if Crosses(e) {
        ix := ix.(rosters := LeaveSecondary(ix.rosters, e.secondary, e.id));
      }
      ix := ix.(byRelation := OutOf(ix.byRelation, e.relation, e.id));
      ix := ix.(byLayer := OutOf(ix.byLayer, e.layer, e.id));
      ix := ix.(byLifecycle := OutOf(ix.byLifecycle, e.lifecycle, e.id));
      if e.provenance.publisher != "" {
        ix := ix.(byPublisher := OutOf(ix.byPublisher, e.provenance.publisher, e.id));
      }
      if e.attachment.Some? {
        ix := ix.(byAttachment := OutOf(ix.byAttachment, e.attachment.value, e.id));
      }
    }

    // ---- Nodes ---------------------------------------------------------------------------

    method InsertNode(n: Node) returns (ok: bool)
      modifies this
      ensures ok == (n.id !in old(nodes))
      ensures Content() == if ok then old(Content()).(nodes := old(nodes)[n.id := n]) else old(Content())
      ensures ix == if ok then WithNode(old(ix), n) else old(ix)
      ensures old(Firm()) && Plain(Content()) ==> Firm()
      ensures old(Valid()) && Tidy(Content()) ==> Valid()
    {
      hide FullyIndexed, PlainlyIndexed, Plain, KeysUnique, RelationshipsUnique, Found, Enlist, Delist, WithNode;
      if n.id in nodes {
        return false;
      }
      InsertedNodeIndexed(Content(), ix, n);
      IndexNode(n);
      nodes := nodes[n.id := n];
      return true;
    }

    method EraseNode(id: NodeId) returns (ok: bool)
      modifies this
      ensures ok == (id in old(nodes))
      ensures Content() == old(Content()).(nodes := old(nodes) - {id})
      ensures ix == if ok then WithoutNode(old(ix), definitions.Keys, old(nodes)[id]) else old(ix)
      ensures old(Firm()) ==> Firm()
      ensures old(Valid()) ==> Valid()
    {
      hide FullyIndexed, PlainlyIndexed, Plain, KeysUnique, RelationshipsUnique, Found, Enlist, Delist, WithoutNode;
      if id !in nodes {
        assert nodes - {id} == nodes;
        return false;
      }
      var n := nodes[id];
      ErasedNodeIndexed(Content(), ix, id);
      nodes := nodes - {id};
      UnindexNode(n);
      return true;
    }

    method UpdateNode(n: Node) returns (ok: bool)
      modifies this
      ensures ok == (n.id in old(nodes))
      ensures Content() == if ok then old(Content()).(nodes := old(nodes)[n.id := n]) else old(Content())
      ensures ix == if ok then WithNode(WithoutNode(old(ix), definitions.Keys, old(nodes)[n.id]), n) else old(ix)
      ensures old(Firm()) && Plain(Content()) ==> Firm()
      ensures old(Valid()) && Tidy(Content()) ==> Valid()
    {
      hide FullyIndexed, PlainlyIndexed, Plain, KeysUnique, RelationshipsUnique, Found, Enlist, Delist, WithoutNode,
           WithNode;
      if n.id !in nodes {
        return false;
      }
      ReplacedNodeIndexed(Content(), ix, n);
      UnindexNode(nodes[n.id]);
      nodes := nodes[n.id := n];
      IndexNode(n);
      return true;
    }

    /** Apply an edit to a copy of the stored node and index it anew. */
    method MutateNode(id: NodeId, edit: Node -> Node) returns (ok: bool)
      modifies this
      ensures ok == (id in old(nodes))
      ensures Content() == if ok
          then old(Content()).(nodes := old(nodes)[id := edit(old(nodes)[id])]) else old(Content())
      ensures ix == if ok then WithNode(WithoutNode(old(ix), definitions.Keys, old(nodes)[id]), edit(old(nodes)[id]))
                    else old(ix)
      ensures old(Firm()) && Plain(Content()) ==> Firm()
      ensures old(Valid()) && Tidy(Content()) ==> Valid()
    {
      hide FullyIndexed, PlainlyIndexed, Plain, KeysUnique, RelationshipsUnique, Found, Enlist, Delist, WithoutNode,
           WithNode;
      if id !in nodes {
        return false;
      }
      var updated := edit(nodes[id]);
      EditedNodeIndexed(Content(), ix, id, updated);
      UnindexNode(nodes[id]);
      nodes := nodes[id := updated];
      IndexNode(updated);
      return true;
    }

    // ---- Edges ---------------------------------------------------------------------------

    method InsertEdge(e: Edge) returns (ok: bool)
      modifies this
      ensures ok == (e.id !in old(edges))
      ensures Content() == if ok then old(Content()).(edges := old(edges)[e.id := e],
                                                      lookups := Enlist(old(Content()).lookups, e))
                           else old(Content())
      ensures ix == if ok then WithEdge(old(ix), e) else old(ix)
      ensures old(Firm()) && Plain(Content()) ==> Firm()
      ensures old(Valid()) && Tidy(Content()) ==> Valid()
    {
      hide FullyIndexed, PlainlyIndexed, Plain, KeysUnique, RelationshipsUnique, Found, Enlist, Delist, WithEdge;
      if e.id in edges {
        return false;
      }
      InsertedEdgeIndexed(Content(), ix, e);
      IndexEdge(e);
      edges := edges[e.id := e];
      return true;
    }

    method EraseEdge(id: EdgeId) returns (ok: bool)
      modifies this
      ensures ok == (id in old(edges))
      ensures Content() == if ok then old(Content()).(edges := old(edges) - {id},
                                                      lookups := Delist(old(Content()).lookups, old(edges)[id]))
                           else old(Content())
      ensures ix == if ok then WithoutEdge(old(ix), definitions.Keys, old(edges)[id]) else old(ix)
      ensures old(Firm()) ==> Firm()
      ensures old(Valid()) ==> Valid()
    {
      hide FullyIndexed, PlainlyIndexed, Plain, KeysUnique, RelationshipsUnique, Found, Enlist, Delist, WithoutEdge;
      if id !in edges {
        return false;
      }
      var e := edges[id];
      ErasedEdgeIndexed(Content(), ix, id);
      edges := edges - {id};
      UnindexEdge(e);
      return true;
    }

    method UpdateEdge(e: Edge) returns (ok: bool)
      modifies this
      ensures ok == (e.id in old(edges))
      ensures Content() == if ok then old(Content()).(edges := old(edges)[e.id := e],
                                                      lookups := Relist(old(Content()).lookups, old(edges)[e.id], e))
                           else old(Content())
      ensures ix == if ok then WithEdge(WithoutEdge(old(ix), definitions.Keys, old(edges)[e.id]), e) else old(ix)
      ensures old(Firm()) && Plain(Content()) ==> Firm()
      ensures old(Valid()) && Tidy(Content()) ==> Valid()
    {
      hide FullyIndexed, PlainlyIndexed, Plain, KeysUnique, RelationshipsUnique, Found, Enlist, Delist, WithoutEdge,
           WithEdge;
      if e.id !in edges {
        return false;
      }
      ReplacedEdgeIndexed(Content(), ix, e);
      UnindexEdge(edges[e.id]);
      edges := edges[e.id := e];
      IndexEdge(e);
      return true;
    }

    method MutateEdge(id: EdgeId, edit: Edge -> Edge) returns (ok: bool)
      modifies this
      ensures ok == (id in old(edges))
      ensures Content() == if ok
          then old(Content()).(edges := old(edges)[id := edit(old(edges)[id])],
                               lookups := Relist(old(Content()).lookups, old(edges)[id], edit(old(edges)[id])))
          else old(Content())
      ensures ix == if ok then WithEdge(WithoutEdge(old(ix), definitions.Keys, old(edges)[id]), edit(old(edges)[id]))
                    else old(ix)
      ensures old(Firm()) && Plain(Content()) ==> Firm()
      ensures old(Valid()) && Tidy(Content()) ==> Valid()
    {
      hide FullyIndexed, PlainlyIndexed, Plain, KeysUnique, RelationshipsUnique, Found, Enlist, Delist, WithoutEdge,
           WithEdge;
      if id !in edges {
        return false;
      }
      var updated := edit(edges[id]);
      EditedEdgeIndexed(Content(), ix, id, updated);
      UnindexEdge(edges[id]);
      edges := edges[id := updated];
      IndexEdge(updated);
      return true;
    }

    // ---- Lookups -------------------------------------------------------------------------

    function NodeByEntity(entity: string): (r: Option<NodeId>)
      requires Firm()
      reads this
      ensures r == FindEntity(nodes, entity)
    {
      EntityLookup(nodes, ix, entity);
      if entity in ix.byEntity then Some(ix.byEntity[entity]) else None
    }

    function EdgeByKey(key: EdgeKey): (r: Option<EdgeId>)
      requires Firm()
      reads this
      ensures r == FindKey(Content(), key)
    {
      if key in ix.byKey then Some(ix.byKey[key]) else None
    }

    function EdgeByRelationship(name: RelId): (r: Option<EdgeId>)
      requires Firm()
      reads this
      ensures r == FindRelationship(Content(), name)
    {
      if name in ix.byRelationship then Some(ix.byRelationship[name]) else None
    }

    /** Every edge with the node at either end. */
    function IncidentTo(n: NodeId): (r: set<EdgeId>)
      requires Firm()
      reads this
      ensures forall e :: e in r <==> e in edges && Touches(edges[e], n)
    {
      IncidentLookup(edges, ix.incident, n);
      if n in ix.incident then ix.incident[n] else {}
    }

    // ---- Rebuilding ------------------------------------------------------------------------

    /** Drop every index and build it anew, visiting nodes and edges in any order. Where several hold an entity,
        a key or a name, the last one visited is found; where none do, the result is the only index there is. */
    method RebuildIndexes()
      requires NodesFiled(nodes) && EdgesFiled(edges)
      modifies `ix
      ensures Rebuilt(ix, definitions.Keys, nodes, edges)
      ensures LookupsUnique(nodes, edges) ==> Indexed(ix, definitions.Keys, nodes, edges)
    {
      hide Rebuilt, Indexed, NodesFiled, EdgesFiled, LookupsUnique;
      ix := EMPTY.(rosters := map d | d in definitions :: Members({}, {}));
      EmptyIsRebuilt(definitions.Keys, ix.rosters);
      IndexAllNodes();
      IndexAllEdges();
      if LookupsUnique(nodes, edges) {
        RebuiltIsIndexed(ix, definitions.Keys, nodes, edges);
      }
    }

    method IndexAllNodes()
      requires NodesFiled(nodes) && Rebuilt(ix, definitions.Keys, map[], map[])
      modifies `ix
      ensures Rebuilt(ix, definitions.Keys, nodes, map[])
    {
      hide Rebuilt, WithNode;
      var rest := nodes.Keys;
      ghost var done: Nodes := map[];
      while rest != {}
        invariant rest <= nodes.Keys && done.Keys == nodes.Keys - rest
        invariant forall n :: n in done ==> done[n] == nodes[n]
        invariant Rebuilt(ix, definitions.Keys, done, map[])
        decreases |rest|
      {
        var n :| n in rest;
        WithNodeRebuilt(ix, definitions.Keys, done, map[], nodes[n]);
        IndexNode(nodes[n]);
        done := done[n := nodes[n]];
        rest := rest - {n};
      }
      assert done == nodes;
    }

    method IndexAllEdges()
      requires EdgesFiled(edges) && Rebuilt(ix, definitions.Keys, nodes, map[])
      modifies `ix
      ensures Rebuilt(ix, definitions.Keys, nodes, edges)
    {
      hide Rebuilt, WithEdge;
      var rest := edges.Keys;
      ghost var filed: Edges := map[];
      while rest != {}
        invariant rest <= edges.Keys && filed.Keys == edges.Keys - rest
        invariant forall e :: e in filed ==> filed[e] == edges[e]
        invariant Rebuilt(ix, definitions.Keys, nodes, filed)
        decreases |rest|
      {
        var e :| e in rest;
        WithEdgeRebuilt(ix, definitions.Keys, nodes, filed, edges[e]);
        IndexEdge(edges[e]);
        filed := filed[e := edges[e]];
        rest := rest - {e};
      }
      assert filed == edges;
    }

    /** Rebuild on a copy and compare. A yes means the maintained indexes are what a rebuild
        makes; where nothing is held twice, the answer is yes exactly when they are. */
    method VerifyIndexes() returns (ok: bool)
      requires NodesFiled(nodes) && EdgesFiled(edges)
      ensures ok ==> Rebuilt(ix, definitions.Keys, nodes, edges)
      ensures LookupsUnique(nodes, edges) ==> (ok <==> Indexed(ix, definitions.Keys, nodes, edges))
    {
      hide Rebuilt, Indexed, NodesFiled, EdgesFiled, LookupsUnique;
      var reference := new GraphState();
      reference.nodes, reference.edges, reference.definitions := nodes, edges, definitions;
      reference.RebuildIndexes();
      ok := ix == reference.ix;
      if LookupsUnique(nodes, edges) && Indexed(ix, definitions.Keys, nodes, edges) {
        IndexUnique(ix, reference.ix, definitions.Keys, nodes, edges);
      }
    }

    // ---- Scopes ------------------------------------------------------------------------------

    /** A newly declared scope has a roster from the start. */
    method Declare(d: DomainDefinition)
      requires Firm()
      modifies this
      ensures Firm() && (old(Valid()) ==> Valid())
      ensures Content() == old(Content()).(domains := old(definitions)[d.id := d])
    {
      hide Plain, PlainlyIndexed, FullyIndexed, KeysUnique, RelationshipsUnique;
      DeclaredIndexed(Content(), ix, d);
      definitions := definitions[d.id := d];
      ix := ix.(rosters := ix.rosters[d.id := Roster(ix.rosters, d.id)]);
    }

    // ---- Cycles ------------------------------------------------------------------------------

    method WouldCreateCycle(relation: Relation, from: NodeId, to: NodeId) returns (closes: bool)
      requires Firm()
      ensures closes <==> WouldCycle(edges, relation, from, to)
    {
      closes := Cycles.ClosesCycle(edges, ix.outgoing, relation, from, to);
    }
  }

  /** The indexes are all that a rebuild makes exactly when, apart from missing something, they are what it makes, and
      nothing is missed. */
  lemma ValidWhenComplete(g: GraphState)
    ensures g.Valid() <==> g.Firm() && Complete(g.Content())
  {
    hide Plain, Bucketed, NodesIndexed, KeyOf, KeysUnique, RelationshipsUnique;
    var h := g.Content();
    KeyPairs(h.edges);
    NamePairs(h.edges);
    if g.Valid() {
      forall e | e in h.edges
        ensures FindKey(h, KeyOf(h.edges[e])) == Some(e) && FindRelationship(h, h.edges[e].relationship) == Some(e)
      {
        assert (KeyOf(h.edges[e]), e) in Pairs(h.edges, KeySet);
        assert (h.edges[e].relationship, e) in Pairs(h.edges, NameSet);
      }
      assert forall k :: k in g.ix.byKey ==> (k, g.ix.byKey[k]) in Pairs(h.edges, KeySet);
      assert forall n :: n in g.ix.byRelationship ==> (n, g.ix.byRelationship[n]) in Pairs(h.edges, NameSet);
    } else if g.Firm() && Complete(h) {
      CompleteIsUnique(h);
      CompletePoints(h, g.ix);
      assert false;
    }
  }

  lemma CompletePoints(g: Graph, ix: Index)
    requires LookupsAim(ix, g.edges) && g.lookups == Found(ix) && Complete(g)
    ensures KeysIndexed(ix, g.edges) && NamesIndexed(ix, g.edges)
  {
    hide KeyOf;
    KeyPairs(g.edges);
    NamePairs(g.edges);
    forall k, e
      ensures k in ix.byKey && ix.byKey[k] == e <==> (k, e) in Pairs(g.edges, KeySet)
    {
      assert (k, e) in Pairs(g.edges, KeySet) ==> FindKey(g, KeyOf(g.edges[e])) == Some(e);
    }
    forall n, e
      ensures n in ix.byRelationship && ix.byRelationship[n] == e <==> (n, e) in Pairs(g.edges, NameSet)
    {
      assert (n, e) in Pairs(g.edges, NameSet) ==> FindRelationship(g, g.edges[e].relationship) == Some(e);
    }
  }

  lemma KeyPairs(edges: Edges)
    ensures forall k, e :: (k, e) in Pairs(edges, KeySet) <==> e in edges && KeyOf(edges[e]) == k
  {
    hide KeyOf;
    forall k, e
      ensures (k, e) in Pairs(edges, KeySet) <==> e in edges && KeyOf(edges[e]) == k
    {
      assert e in edges && KeyOf(edges[e]) == k ==> k in KeySet(edges[e]);
    }
  }

  // ---- Why the indexes stay right -----------------------------------------------------------

  lemma EmptyIsIndexed(declared: set<DomainId>, rosters: Rosters)
    requires rosters.Keys == declared && forall d :: d in declared ==> rosters[d] == Members({}, {})
    ensures Indexed(EMPTY.(rosters := rosters), declared, map[], map[])
  {
  }

  lemma EmptyIsRebuilt(declared: set<DomainId>, rosters: Rosters)
    requires rosters.Keys == declared && forall d :: d in declared ==> rosters[d] == Members({}, {})
    ensures Rebuilt(EMPTY.(rosters := rosters), declared, map[], map[])
  {
    hide Rebuilt, Indexed, KeyOf;
    EmptyIsIndexed(declared, rosters);
    RebuiltIsIndexed(EMPTY.(rosters := rosters), declared, map[], map[]);
  }

  lemma WithNodeRebuilt(ix: Index, declared: set<DomainId>, nodes: Nodes, edges: Edges, n: Node)
    requires Rebuilt(ix, declared, nodes, edges) && n.id !in nodes
    ensures Rebuilt(WithNode(ix, n), declared, nodes[n.id := n], edges)
  {
    hide Bucketed, Leads, JoinNode;
    WithNodeBucketed(ix, declared, nodes, edges, n);
    NodePairsOfMore(nodes, n);
    PointLeads(ix.byEntity, EntityPairs(nodes), n.entity, n.id);
    SameEdgeIndexes(ix, WithNode(ix, n), edges);
  }

  lemma WithEdgeRebuilt(ix: Index, declared: set<DomainId>, nodes: Nodes, edges: Edges, e: Edge)
    requires Rebuilt(ix, declared, nodes, edges) && e.id !in edges
    ensures Rebuilt(WithEdge(ix, e), declared, nodes, edges[e.id := e])
  {
    hide Bucketed, Leads, JoinScopes, Into, Pairs, KeyOf;
    WithEdgeBucketed(ix, declared, nodes, edges, e);
    SameEntities(ix, e, declared);
    KeyPairsOfMore(edges, e);
    PointLeads(ix.byKey, Pairs(edges, KeySet), KeyOf(e), e.id);
    PointLeads(ix.byRelationship, Pairs(edges, NameSet), e.relationship, e.id);
  }

  lemma FreeEntity(g: Graph, n: Node)
    requires n.id !in g.nodes && EntitiesUnique(g.nodes[n.id := n])
    ensures forall m :: m in g.nodes ==> g.nodes[m].entity != n.entity
  {
    var after := g.nodes[n.id := n];
    forall m | m in g.nodes
      ensures g.nodes[m].entity != n.entity
    {
      assert after[m] == g.nodes[m] && after[n.id] == n && m != n.id;
    }
  }

  lemma FiledNode(g: Graph, id: NodeId)
    requires Plain(g) && id in g.nodes
    ensures g.nodes[id].id == id
  {
    hide EdgesFiled, SecondariesDeclared;
  }

  lemma FiledEdge(g: Graph, id: EdgeId)
    requires Plain(g) && id in g.edges
    ensures g.edges[id].id == id
  {
    hide EntitiesUnique, NodesFiled, SecondariesDeclared;
  }

  lemma FreeKey(edges: Edges, e: Edge)
    ensures KeysUnique(edges[e.id := e]) ==> KeyFree(edges, e)
    ensures RelationshipsUnique(edges[e.id := e]) ==> NameFree(edges, e)
  {
    hide KeyOf;
    var after := edges[e.id := e];
    assert forall d :: d in edges && d != e.id ==> after[d] == edges[d] && d in after;
    assert after[e.id] == e;
  }

  // ---- Nodes in the indexes ----------------------------------------------------------------------

  lemma InsertedNodeIndexed(g: Graph, ix: Index, n: Node)
    requires n.id !in g.nodes
    ensures var h := g.(nodes := g.nodes[n.id := n]);
            && (Plain(g) && PlainlyIndexed(ix, g) && Plain(h) ==> PlainlyIndexed(WithNode(ix, n), h))
            && (Tidy(g) && FullyIndexed(ix, g) && Tidy(h) ==> FullyIndexed(WithNode(ix, n), h))
  {
    hide Bucketed, NodesIndexed, KeysIndexed, NamesIndexed, KeysUnique, RelationshipsUnique, EdgesFiled,
         SecondariesDeclared, WithNode, NodesFiled;
    var h := g.(nodes := g.nodes[n.id := n]);
    if Plain(g) && PlainlyIndexed(ix, g) && Plain(h) {
      InsertedNodePlainly(g, ix, n);
    }
    if Tidy(g) && FullyIndexed(ix, g) && Tidy(h) {
      FreeEntity(g, n);
      WithNodeIndexed(ix, g.domains.Keys, g.nodes, g.edges, n);
    }
  }

  lemma InsertedNodePlainly(g: Graph, ix: Index, n: Node)
    requires n.id !in g.nodes && EntitiesUnique(g.nodes[n.id := n]) && PlainlyIndexed(ix, g)
    ensures PlainlyIndexed(WithNode(ix, n), g.(nodes := g.nodes[n.id := n]))
  {
    hide Bucketed, NodesIndexed, EntitiesUnique, JoinNode, KeyOf;
    FreeEntity(g, n);
    WithNodeBucketed(ix, g.domains.Keys, g.nodes, g.edges, n);
    WithNodeEntity(ix, g.nodes, n);
    SameEdgeIndexes(ix, WithNode(ix, n), g.edges);
  }

  lemma ErasedNodeIndexed(g: Graph, ix: Index, id: NodeId)
    requires id in g.nodes
    ensures var h := g.(nodes := g.nodes - {id});
            && (Plain(g) && PlainlyIndexed(ix, g) ==>
                  Plain(h) && PlainlyIndexed(WithoutNode(ix, g.domains.Keys, g.nodes[id]), h))
            && (Tidy(g) && FullyIndexed(ix, g) ==>
                  Tidy(h) && FullyIndexed(WithoutNode(ix, g.domains.Keys, g.nodes[id]), h))
  {
    hide Bucketed, NodesIndexed, KeysIndexed, NamesIndexed, Plain, RelationshipsUnique, LeaveNode, Unpoint;
    TidyWithoutNode(g, id);
    if Plain(g) {
      FiledNode(g, id);
      var declared := g.domains.Keys;
      SameEdgeIndexes(ix, WithoutNode(ix, declared, g.nodes[id]), g.edges);
      if PlainlyIndexed(ix, g) {
        WithoutNodeBucketed(ix, declared, g.nodes, g.edges, id);
        WithoutNodeEntity(ix, declared, g.nodes, id);
      }
      if FullyIndexed(ix, g) {
        WithoutNodeIndexed(ix, declared, g.nodes, g.edges, id);
      }
    }
  }

  lemma EditedNodeIndexed(g: Graph, ix: Index, id: NodeId, n: Node)
    requires id in g.nodes
    ensures var h := g.(nodes := g.nodes[id := n]);
            var after := WithNode(WithoutNode(ix, g.domains.Keys, g.nodes[id]), n);
            && (Plain(g) && PlainlyIndexed(ix, g) && Plain(h) ==> PlainlyIndexed(after, h))
            && (Tidy(g) && FullyIndexed(ix, g) && Tidy(h) ==> FullyIndexed(after, h))
  {
    hide FullyIndexed, PlainlyIndexed, Plain, KeysUnique, RelationshipsUnique, Found, Enlist, Delist, WithNode,
         WithoutNode;
    var h := g.(nodes := g.nodes[id := n]);
    if Plain(h) {
      FiledNode(h, id);
      ReplacedNodeIndexed(g, ix, n);
    }
  }

  lemma ReplacedNodeIndexed(g: Graph, ix: Index, n: Node)
    requires n.id in g.nodes
    ensures var h := g.(nodes := g.nodes[n.id := n]);
            var after := WithNode(WithoutNode(ix, g.domains.Keys, g.nodes[n.id]), n);
            && (Plain(g) && PlainlyIndexed(ix, g) && Plain(h) ==> PlainlyIndexed(after, h))
            && (Tidy(g) && FullyIndexed(ix, g) && Tidy(h) ==> FullyIndexed(after, h))
  {
    hide FullyIndexed, PlainlyIndexed, Plain, KeysUnique, RelationshipsUnique, Found, Enlist, Delist, WithNode,
         WithoutNode;
    var rest := g.(nodes := g.nodes - {n.id});
    assert rest.nodes[n.id := n] == g.nodes[n.id := n];
    ErasedNodeIndexed(g, ix, n.id);
    InsertedNodeIndexed(rest, WithoutNode(ix, g.domains.Keys, g.nodes[n.id]), n);
  }

  // ---- Edges in the indexes ----------------------------------------------------------------------

  lemma InsertedEdgeIndexed(g: Graph, ix: Index, e: Edge)
    requires e.id !in g.edges
    ensures var after := WithEdge(ix, e);
            var h := g.(edges := g.edges[e.id := e], lookups := Found(after));
            && (Plain(g) && PlainlyIndexed(ix, g) && Plain(h) ==> PlainlyIndexed(after, h))
            && (Tidy(g) && FullyIndexed(ix, g) && Tidy(h) ==> FullyIndexed(after, h))
  {
    hide Bucketed, NodesIndexed, KeysIndexed, NamesIndexed, EntitiesUnique, NodesFiled, EdgesFiled, KeysUnique,
         RelationshipsUnique, SecondariesDeclared, WithEdge, KeyFree, NameFree, LookupsAim, Found;
    var h := g.(edges := g.edges[e.id := e], lookups := Found(WithEdge(ix, e)));
    FreeKey(g.edges, e);
    SameEntities(ix, e, g.domains.Keys);
    if PlainlyIndexed(ix, g) {
      WithEdgeBucketed(ix, g.domains.Keys, g.nodes, g.edges, e);
      SameNodesIndexed(ix, WithEdge(ix, e), g.nodes);
      FiledAims(ix, g.edges, e);
    }
    if Tidy(h) && FullyIndexed(ix, g) {
      WithEdgeIndexed(ix, g.domains.Keys, g.nodes, g.edges, e);
    }
  }

  lemma SameNodesIndexed(a: Index, b: Index, nodes: Nodes)
    requires a.byEntity == b.byEntity
    ensures NodesIndexed(a, nodes) ==> NodesIndexed(b, nodes)
  {
    hide Points;
  }

  lemma ErasedEdgeIndexed(g: Graph, ix: Index, id: EdgeId)
    requires id in g.edges
    ensures var after := WithoutEdge(ix, g.domains.Keys, g.edges[id]);
            var h := g.(edges := g.edges - {id}, lookups := Found(after));
            && (Plain(g) && PlainlyIndexed(ix, g) ==> Plain(h) && PlainlyIndexed(after, h))
            && (Tidy(g) && FullyIndexed(ix, g) ==> Tidy(h) && FullyIndexed(after, h))
  {
    hide Bucketed, NodesIndexed, KeysIndexed, NamesIndexed, KeysUnique, RelationshipsUnique, WithoutEdge, StrandsScope,
         Plain, LookupsAim, Found;
    var declared := g.domains.Keys;
    var after := WithoutEdge(ix, declared, g.edges[id]);
    TidyWithoutEdge(g, id, Found(after));
    if Plain(g) {
      FiledEdge(g, id);
      NothingStranded(g, id);
      SameEntities(ix, g.edges[id], declared);
      if PlainlyIndexed(ix, g) {
        WithoutEdgeBucketed(ix, declared, g.nodes, g.edges, id);
        SameNodesIndexed(ix, after, g.nodes);
        WithdrawnAims(ix, declared, g.edges, id);
      }
      if FullyIndexed(ix, g) {
        WithoutEdgeIndexed(ix, declared, g.nodes, g.edges, id);
      }
    }
  }

  lemma NothingStranded(g: Graph, id: EdgeId)
    requires Plain(g) && id in g.edges
    ensures !StrandsScope(g.domains.Keys, g.nodes, g.edges, id)
  {
    hide EntitiesUnique, NodesFiled, EdgesFiled;
  }

  lemma EditedEdgeIndexed(g: Graph, ix: Index, id: EdgeId, e: Edge)
    requires id in g.edges
    ensures var after := WithEdge(WithoutEdge(ix, g.domains.Keys, g.edges[id]), e);
            var h := g.(edges := g.edges[id := e], lookups := Found(after));
            && (Plain(g) && PlainlyIndexed(ix, g) && Plain(h) ==> PlainlyIndexed(after, h))
            && (Tidy(g) && FullyIndexed(ix, g) && Tidy(h) ==> FullyIndexed(after, h))
  {
    hide FullyIndexed, PlainlyIndexed, Plain, KeysUnique, RelationshipsUnique, WithEdge, WithoutEdge, Found;
    var h := g.(edges := g.edges[id := e], lookups := Found(WithEdge(WithoutEdge(ix, g.domains.Keys, g.edges[id]), e)));
    if Plain(h) {
      FiledEdge(h, id);
      ReplacedEdgeIndexed(g, ix, e);
    }
  }

  lemma ReplacedEdgeIndexed(g: Graph, ix: Index, e: Edge)
    requires e.id in g.edges
    ensures var after := WithEdge(WithoutEdge(ix, g.domains.Keys, g.edges[e.id]), e);
            var h := g.(edges := g.edges[e.id := e], lookups := Found(after));
            && (Plain(g) && PlainlyIndexed(ix, g) && Plain(h) ==> PlainlyIndexed(after, h))
            && (Tidy(g) && FullyIndexed(ix, g) && Tidy(h) ==> FullyIndexed(after, h))
  {
    hide FullyIndexed, PlainlyIndexed, Plain, KeysUnique, RelationshipsUnique, WithEdge, WithoutEdge, Found;
    var without := WithoutEdge(ix, g.domains.Keys, g.edges[e.id]);
    var rest := g.(edges := g.edges - {e.id}, lookups := Found(without));
    assert rest.edges[e.id := e] == g.edges[e.id := e];
    ErasedEdgeIndexed(g, ix, e.id);
    InsertedEdgeIndexed(rest, without, e);
  }

  // ---- What the lookups find ------------------------------------------------------------------

  lemma EntityLookup(nodes: Nodes, ix: Index, entity: string)
    requires NodesIndexed(ix, nodes)
    ensures (if entity in ix.byEntity then Some(ix.byEntity[entity]) else None) == FindEntity(nodes, entity)
  {
    var found := FindEntity(nodes, entity);
    if found.Some? {
      assert (entity, found.value) in EntityPairs(nodes);
    }
    assert entity in ix.byEntity ==> (entity, ix.byEntity[entity]) in EntityPairs(nodes);
  }

  lemma DeclaredEnrolls(rosters: Rosters, declared: set<DomainId>, nodes: set<(DomainId, NodeId)>,
                        edges: set<(DomainId, EdgeId)>, d: DomainId)
    requires Enrolled(rosters, declared, nodes, edges)
    ensures Enrolled(rosters[d := Roster(rosters, d)], declared + {d}, nodes, edges)
  {
    assert forall c :: Roster(rosters[d := Roster(rosters, d)], c) == Roster(rosters, c);
  }

  lemma DeclaredBucketed(ix: Index, declared: set<DomainId>, nodes: Nodes, edges: Edges, d: DomainId)
    requires Bucketed(ix, declared, nodes, edges)
    ensures Bucketed(ix.(rosters := ix.rosters[d := Roster(ix.rosters, d)]), declared + {d}, nodes, edges)
  {
    hide Files, Pairs, Enrolled;
    DeclaredEnrolls(ix.rosters, declared, NodeScopePairs(nodes), Pairs(edges, ScopeSet), d);
  }

  lemma DeclaredIndexed(g: Graph, ix: Index, d: DomainDefinition)
    ensures var after := ix.(rosters := ix.rosters[d.id := Roster(ix.rosters, d.id)]);
            var h := g.(domains := g.domains[d.id := d]);
            && (Plain(g) && PlainlyIndexed(ix, g) ==> Plain(h) && PlainlyIndexed(after, h))
            && (Tidy(g) && FullyIndexed(ix, g) ==> Tidy(h) && FullyIndexed(after, h))
  {
    hide KeysUnique, RelationshipsUnique, EntitiesUnique, Bucketed, NodesFiled, EdgesFiled, Points, KeyOf;
    assert g.domains[d.id := d].Keys == g.domains.Keys + {d.id};
    if Bucketed(ix, g.domains.Keys, g.nodes, g.edges) {
      DeclaredBucketed(ix, g.domains.Keys, g.nodes, g.edges, d.id);
    }
  }
}
