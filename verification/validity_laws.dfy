/** What whole-graph validation means, property by property, and what a committed publication therefore leaves. */
module ValidityLaws {
  import opened Types
  import opened Paths
  import opened Graphs
  import opened Authority
  import opened Mutations
  import opened Reconcile
  import opened PublishLaws

  /** Every node is of some class, stands for some entity of the fitting class, and has been counted. */
  ghost predicate NodesStand(g: Graph) {
    forall n :: n in g.nodes ==>
      && g.nodes[n].nodeClass != UnknownNodeClass && g.nodes[n].entity != "" && g.nodes[n].generation > 0
      && g.nodes[n].entityClass == EntityClassOf(g.nodes[n].nodeClass)
  }

  /** The registry, if there is one, has every entity in service as what the topology takes it for, and current nodes
      stand for its present incarnation. */
  ghost predicate RegistryBacks(env: Env, g: Graph) {
    env.directory.Some? ==>
      var directory := env.directory.value;
      forall n :: n in g.nodes ==>
        && g.nodes[n].entity in directory
        && var record := directory[g.nodes[n].entity];
           && !record.retired && !record.superseded && record.entityClass == g.nodes[n].entityClass
           && (g.nodes[n].lifecycle == Current ==> record.generation == g.nodes[n].entityGeneration)
  }

  /** Every edge is of some relation, leads from one node that is there to another, and the relation permits its layer
      and the classes of both. */
  ghost predicate RelationsObeyed(g: Graph) {
    forall e :: e in g.edges ==>
      && g.edges[e].relation != UnknownRelation && g.edges[e].from in g.nodes && g.edges[e].to in g.nodes
      && g.edges[e].from != g.edges[e].to && LayerPermitted(g.edges[e].relation, g.edges[e].layer)
      && FromPermitted(g.edges[e].relation, g.nodes[g.edges[e].from].nodeClass)
      && ToPermitted(g.edges[e].relation, g.nodes[g.edges[e].to].nodeClass)
  }

  /** The scopes an edge is kept in: its own, and for one that crosses the other one as well. */
  function ScopesOf(e: Edge): set<DomainId> {
    if e.crossDomain then {e.domain, e.secondary} else {e.domain}
  }

  /** Every edge is kept where its endpoints are. */
  ghost predicate ScopesCover(g: Graph)
    requires EndpointsExist(g.nodes, g.edges)
  {
    forall e :: e in g.edges ==>
      {g.nodes[g.edges[e].from].domain, g.nodes[g.edges[e].to].domain} <= ScopesOf(g.edges[e])
  }

  /** A current edge is bound to the present incarnations of two current nodes. */
  ghost predicate CurrentIsRooted(g: Graph)
    requires EndpointsExist(g.nodes, g.edges)
  {
    forall e :: e in g.edges && g.edges[e].lifecycle == Current ==>
      var from, to := g.nodes[g.edges[e].from], g.nodes[g.edges[e].to];
      && from.lifecycle == to.lifecycle == Current
      && g.edges[e].fromGeneration == from.entityGeneration && g.edges[e].toGeneration == to.entityGeneration
  }

  /** What an edge rests on is there, a logical one rests on a physical one, and nothing supersedes itself. */
  ghost predicate SupportsHold(edges: Edges) {
    forall e :: e in edges ==>
      && edges[e].supersededBy != Some(edges[e].id)
      && (edges[e].supportedBy.Some? ==>
            && edges[e].supportedBy.value in edges
            && (edges[e].layer == Logical ==> edges[edges[e].supportedBy.value].layer == Physical))
  }

  /** No slot is held by two current attachments. */
  ghost predicate SlotsHeldOnce(edges: Edges) {
    forall d, e :: d in edges && e in edges && d != e
                   && edges[d].lifecycle == edges[e].lifecycle == Current
                   && edges[d].relation == edges[e].relation == AttachedTo && edges[d].attachment.Some? ==>
      edges[d].attachment != edges[e].attachment
  }

  const HIERARCHIES: set<Relation> := {Contains, MemberOf, BackedBy, HostedBy, PresentsEndpoint, FabricMembership}

  /** No live edges of a hierarchy lead from a node back to itself. */
  ghost predicate HierarchiesAcyclic(edges: Edges) {
    forall r :: r in HIERARCHIES ==> Acyclic(LiveArcs(edges, r))
  }

  /** The graph is consistent in every respect. */
  ghost predicate Consistent(env: Env, g: Graph) {
    && NodesStand(g) && RegistryBacks(env, g) && RelationsObeyed(g) && EndpointsExist(g.nodes, g.edges)
    && ScopesCover(g) && CurrentIsRooted(g) && SupportsHold(g.edges) && KeysUnique(g.edges) && SlotsHeldOnce(g.edges)
    && HierarchiesAcyclic(g.edges)
  }

  lemma ScopeValidExactly(e: Edge, from: DomainId, to: DomainId)
    ensures ScopeValid(e, from, to) <==> {from, to} <= ScopesOf(e)
  {
  }

  lemma NodeValidExactly(env: Env, g: Graph)
    ensures (forall n :: n in g.nodes ==> NodeValid(env, g.nodes[n])) <==> NodesStand(g) && RegistryBacks(env, g)
  {
    hide EntityClassOf;
  }

  lemma EdgeValidExactly(g: Graph)
    ensures (forall e :: e in g.edges ==> EdgeValid(g, g.edges[e]))
            <==> RelationsObeyed(g) && EndpointsExist(g.nodes, g.edges) && ScopesCover(g) && CurrentIsRooted(g)
                 && SupportsHold(g.edges)
  {
    hide ScopeValid, ScopesOf, FromPermitted, ToPermitted, LayerPermitted;
    forall e, from, to
      ensures ScopeValid(e, from, to) <==> {from, to} <= ScopesOf(e)
    {
      ScopeValidExactly(e, from, to);
    }
  }

  lemma SlotsExactly(edges: Edges)
    ensures SlotsExclusive(edges) <==> SlotsHeldOnce(edges)
  {
  }

  lemma NoUnknownArcs(edges: Edges)
    requires forall e :: e in edges ==> edges[e].relation != UnknownRelation
    ensures AcyclicWhereRequired(edges) <==> HierarchiesAcyclic(edges)
  {
    assert LiveArcs(edges, UnknownRelation) == {};
    forall v, n: nat | Walk(LiveArcs(edges, UnknownRelation), v, v, n)
      ensures n == 0
    {
    }
    assert forall r :: r in HIERARCHIES <==> MustStayAcyclic(r) && r != UnknownRelation;
  }

  /** A graph is valid exactly when it is consistent: the checks, made node by node and edge by edge, come to these
      properties of the whole. */
  lemma ValidExactlyWhenConsistent(env: Env, g: Graph)
    ensures ValidTopology(env, g) <==> Consistent(env, g)
  {
    hide NodeValid, EdgeValid, SlotsExclusive, SlotsHeldOnce, NodesStand, RegistryBacks, ScopesCover, CurrentIsRooted,
         SupportsHold, AcyclicWhereRequired, HierarchiesAcyclic, KeysUnique, FromPermitted, ToPermitted, LayerPermitted;
    NodeValidExactly(env, g);
    EdgeValidExactly(g);
    SlotsExactly(g.edges);
    if RelationsObeyed(g) {
      NoUnknownArcs(g.edges);
    }
  }

  /** Whatever a publication says, what it commits is consistent. */
  lemma CommitsAreConsistent(s: State, env: Env, c: Context, p: Publication, nodes: seq<ObservedNode>,
                             edges: seq<ObservedEdge>, persisted: bool)
    requires Publish(s, env, c, p, nodes, edges, persisted).verdict == Committed
    ensures Consistent(env, Publish(s, env, c, p, nodes, edges, persisted).state.graph)
  {
    hide Publish, Consistent, ValidTopology;
    PublishAllOrNothing(s, env, c, p, nodes, edges, persisted);
    ValidExactlyWhenConsistent(env, Publish(s, env, c, p, nodes, edges, persisted).state.graph);
  }
}
