/** What a committed request about one node achieves, exactly when it commits, and what asking again does. */
module NodeEffects {
  import opened Types
  import opened Graphs
  import opened Authority
  import opened GrantLaws
  import opened Mutations
  import opened MutationLaws
  import opened EffectLaws

  // ---- Edges whose endpoint moves to another incarnation -------------------------------------------------

  /** The edge is bound to the new incarnation of the node, at its start, or at its end as well, and has to be
      revalidated; nothing else about it has changed. */
  predicate Rebinds(before: Edge, after: Edge, n: NodeId, generation: Counter, bothEnds: bool) {
    && after.lifecycle == RevalidationRequired
    && after.fromGeneration == (if before.from == n then generation else before.fromGeneration)
    && after.toGeneration == (if before.to == n && (bothEnds || before.from != n) then generation
                              else before.toGeneration)
    && (after == before || Stepped(before.generation, after.generation))
    && before == after.(lifecycle := before.lifecycle, fromGeneration := before.fromGeneration,
                        toGeneration := before.toGeneration, generation := before.generation)
  }

  /** Every live edge at the node is rebound, and no other edge has changed. */
  ghost predicate AllRebound(before: Edges, after: Edges, n: NodeId, generation: Counter, bothEnds: bool) {
    after.Keys == before.Keys
    && forall e :: e in before ==>
         if Touches(before[e], n) && Live(before[e]) then Rebinds(before[e], after[e], n, generation, bothEnds)
         else after[e] == before[e]
  }

  lemma FencedAreRebound(edges: Edges, n: NodeId, generation: Counter)
    ensures AllRebound(edges, FenceIncident(edges, n, generation), n, generation, false)
    ensures AllRebound(edges, ReissueIncident(edges, n, generation), n, generation, true)
  {
  }

  // ---- Adding a node ----------------------------------------------------------------------------------------

  /** The registry has the entity in service, as something such a node may stand for. */
  predicate Registered(env: Env, entity: string, nodeClass: NodeClass) {
    && env.directory.Some? && entity in env.directory.value
    && var record := env.directory.value[entity];
       !record.retired && !record.superseded && record.entityClass == EntityClassOf(nodeClass)
  }

  /** The identifier that was asked for, or else the derived one. */
  function NodeIdFor(env: Env, r: Request): NodeId
    requires r.AddNode?
  {
    match r.nodeId
    case Some(id) => id
    case None => env.nodeIdOf(r.entity)
  }

  /** The request is in order, and its identifier and its entity belong together or are both free. */
  ghost predicate AddNodeMayHappen(s: State, env: Env, c: Context, r: Request)
    requires r.AddNode?
  {
    && 0 < |r.entity| <= env.limits.maxIdentifier && r.nodeClass != UnknownNodeClass
    && MetadataOk(r.metadata, env.limits) && r.domain != "" && r.domain in s.graph.domains
    && MayWrite(s, c, r.domain) && Fresh(r.expected, s.graph.generation)
    && Registered(env, r.entity, r.nodeClass)
    && var id := NodeIdFor(env, r);
       && id != ""
       && (if id in s.graph.nodes then s.graph.nodes[id].entity == r.entity
           else forall n :: n in s.graph.nodes ==> s.graph.nodes[n].entity != r.entity)
  }

  /** The node is current, in the registry's incarnation of its entity, and says what the request says. */
  predicate NodeSays(n: Node, r: Request, generation: Counter)
    requires r.AddNode?
  {
    n.entityGeneration == generation && n.tier == r.tier && n.metadata == r.metadata && n.lifecycle == Current
  }

  /** A new node of the caller's making, and nothing else. */
  ghost predicate NodeAdded(s: State, t: State, c: Context, id: NodeId, r: Request, record: EntityRecord)
    requires r.AddNode?
  {
    && id !in s.graph.nodes && id in t.graph.nodes
    && t.graph.nodes == s.graph.nodes + map[id := t.graph.nodes[id]]
    && t.graph.edges == s.graph.edges && t.graph.lookups == s.graph.lookups
    && var n := t.graph.nodes[id];
       && n.id == id && n.entity == r.entity && n.entityClass == record.entityClass && n.nodeClass == r.nodeClass
       && n.domain == r.domain && NodeSays(n, r, record.generation)
       && n.generation == 1 && n.created == n.validated == s.graph.generation
       && n.provenance.publisher == c.publisher && n.provenance.boot == c.boot && n.provenance.epoch == c.epoch
       && n.provenance.evidence == c.evidence && n.provenance.publication == c.publication
       && n.provenance.created == n.provenance.validated == s.graph.generation
  }

  /** The node says what was asked for; when its entity has moved on, its live edges have to be revalidated. */
  ghost predicate NodeRefreshed(s: State, t: State, id: NodeId, r: Request, record: EntityRecord)
    requires r.AddNode?
  {
    && id in s.graph.nodes && id in t.graph.nodes
    && t.graph.nodes == s.graph.nodes[id := t.graph.nodes[id]]
    && var before, after := s.graph.nodes[id], t.graph.nodes[id];
       && NodeSays(after, r, record.generation)
       && Stepped(before.generation, after.generation) && after.validated == s.graph.generation
       && before == after.(entityGeneration := before.entityGeneration, tier := before.tier,
                           metadata := before.metadata, lifecycle := before.lifecycle,
                           generation := before.generation, validated := before.validated)
       && (if before.entityGeneration == record.generation
           then t.graph.edges == s.graph.edges && t.graph.lookups == s.graph.lookups
           else AllRebound(s.graph.edges, t.graph.edges, id, record.generation, false))
  }

  lemma NewNodeFinished(s: State, c: Context, id: NodeId, r: Request, record: EntityRecord, persisted: bool)
    requires r.AddNode? && id !in s.graph.nodes
    ensures var g := s.graph;
            var out := Finish(s, g.nodes[id := NewNode(g, c, id, r, record)], g.edges, g.lookups, g.lookups, persisted);
            && (out.verdict == Committed <==> CanAdvance(g.generation) && persisted) && out.verdict != Idempotent
            && (out.verdict == Committed ==> Advanced(s, out.state) && NodeAdded(s, out.state, c, id, r, record))
  {
    var n := NewNode(s.graph, c, id, r, record);
    assert s.graph.nodes[id := n] == s.graph.nodes + map[id := n];
  }

  lemma RefreshFinished(s: State, id: NodeId, r: Request, record: EntityRecord, persisted: bool)
    requires r.AddNode? && id in s.graph.nodes && s.graph.nodes[id].id == id
    ensures var n := RefreshedNode(s.graph, s.graph.nodes[id], r, record);
            var out := Refresh(s, n, s.graph.nodes[id].entityGeneration != record.generation, persisted);
            && (out.verdict == Committed <==> CanAdvance(s.graph.generation) && persisted) && out.verdict != Idempotent
            && (out.verdict == Committed ==> Advanced(s, out.state) && NodeRefreshed(s, out.state, id, r, record))
  {
    hide Refiled, FiledBack, FenceIncident, ReissueIncident, AllRebound;
    FencedAreRebound(s.graph.edges, id, record.generation);
  }

  /** Adding a node commits exactly when the request is in order, its node does not say so already, and a new one fits;
      then the node is there, current and as asked for, and asking again changes nothing. */
  lemma AddNodeTakesEffect(s: State, env: Env, c: Context, r: Request, persisted: bool)
    requires r.AddNode? && Shaped(s.graph)
    ensures var out := Mutate(s, env, c, r, persisted);
            var may := AddNodeMayHappen(s, env, c, r);
            var id := NodeIdFor(env, r);
            && (out.verdict == Idempotent <==>
                  && may && id in s.graph.nodes
                  && NodeSays(s.graph.nodes[id], r, env.directory.value[r.entity].generation))
            && (out.verdict == Idempotent ==> out.state == s)
            && (out.verdict == Committed <==>
                  && may && CanAdvance(s.graph.generation) && persisted
                  && (if id in s.graph.nodes
                      then !NodeSays(s.graph.nodes[id], r, env.directory.value[r.entity].generation)
                      else |s.graph.nodes| < env.limits.maxNodes))
            && (out.verdict == Committed ==>
                  && Advanced(s, out.state)
                  && (if id in s.graph.nodes then NodeRefreshed(s, out.state, id, r, env.directory.value[r.entity])
                      else NodeAdded(s, out.state, c, id, r, env.directory.value[r.entity])))
  {
    hide Shaped, CheckAuthority, MayWrite, AuthorityOutcome, MetadataOk, Finish, Refresh, NewNode, RefreshedNode,
         NodeAdded, NodeRefreshed, Advanced, EntityClassOf;
    EntityScopeChecked(s, c, r.domain, IncrementalWrite);
    if AddNodeMayHappen(s, env, c, r) {
      var id, record := NodeIdFor(env, r), env.directory.value[r.entity];
      if id in s.graph.nodes {
        NodeFacts(s.graph, id);
        RefreshFinished(s, id, r, record, persisted);
      } else {
        NewNodeFinished(s, c, id, r, record, persisted);
      }
    }
  }

  lemma AddNodeAgain(s: State, env: Env, c: Context, r: Request, persisted: bool, again: bool)
    requires r.AddNode? && Shaped(s.graph) && Mutate(s, env, c, r, persisted).verdict == Committed
    ensures var t := Mutate(s, env, c, r, persisted).state;
            Mutate(t, env, c, Unconditional(r), again) == Result(t, Idempotent)
  {
    hide Mutate, Shaped, CheckAuthority, MetadataOk, EntityClassOf, AllRebound;
    AddNodeTakesEffect(s, env, c, r, persisted);
    MutationLawful(s, env, c, r, persisted);
    var t := Mutate(s, env, c, r, persisted).state;
    SameAuthority(s, t, c, r.domain, IncrementalWrite);
    EntityScopeChecked(s, c, r.domain, IncrementalWrite);
    EntityScopeChecked(t, c, r.domain, IncrementalWrite);
    AddNodeTakesEffect(t, env, c, Unconditional(r), again);
  }

  // ---- Removing a node -------------------------------------------------------------------------------------

  /** The node and everything at it are gone; everything else is as it was. */
  ghost predicate NodeRemoved(s: State, t: State, n: NodeId) {
    && Advanced(s, t) && t.graph.nodes == s.graph.nodes - {n}
    && (forall e :: e in t.graph.edges <==> e in s.graph.edges && n !in {s.graph.edges[e].from, s.graph.edges[e].to})
    && (forall e :: e in t.graph.edges ==> t.graph.edges[e] == s.graph.edges[e])
  }

  /** Removing a node commits exactly when the caller may replace its scope and nothing is in the way, or it is to go
      too; then the node is gone with all its edges, and cannot be found again. */
  lemma RemoveNodeTakesEffect(s: State, env: Env, c: Context, r: Request, persisted: bool, again: bool)
    requires r.RemoveNode?
    ensures var out := Mutate(s, env, c, r, persisted);
            && out.verdict != Idempotent
            && (out.verdict == Committed <==>
                  && r.node != "" && r.node in s.graph.nodes && MayReplace(s, c, s.graph.nodes[r.node].domain)
                  && Fresh(r.expected, s.graph.generation)
                  && (r.cascade || forall e :: e in s.graph.edges ==>
                        r.node !in {s.graph.edges[e].from, s.graph.edges[e].to})
                  && CanAdvance(s.graph.generation) && persisted)
            && (out.verdict == Committed ==>
                  && NodeRemoved(s, out.state, r.node)
                  && Mutate(out.state, env, c, Unconditional(r), again) == Refuse(out.state, NotFound))
  {
    hide CheckAuthority, MayReplace, AuthorityOutcome, Delisted, FiledBack;
    if r.node in s.graph.nodes {
      EntityScopeChecked(s, c, s.graph.nodes[r.node].domain, AuthoritativeWrite);
      WithoutIncidentMeans(s.graph.edges, r.node);
    }
  }

  lemma WithoutIncidentMeans(edges: Edges, n: NodeId)
    ensures forall e :: e in WithoutIncident(edges, n) <==> e in edges && n !in {edges[e].from, edges[e].to}
    ensures forall e :: e in WithoutIncident(edges, n) ==> WithoutIncident(edges, n)[e] == edges[e]
  {
  }

  // ---- Replacing an endpoint's entity ------------------------------------------------------------------------

  /** The node may be bound anew, to a successor that is in service, of its class, and bound to no other node. */
  ghost predicate ReplaceMayHappen(s: State, env: Env, c: Context, r: Request)
    requires r.ReplaceEndpoint?
  {
    && r.node != "" && r.node in s.graph.nodes && MayWrite(s, c, s.graph.nodes[r.node].domain)
    && Fresh(r.expected, s.graph.generation) && Fresh(r.expectedNode, s.graph.nodes[r.node].generation)
    && (r.rebind ==>
          && r.successor != "" && Registered(env, r.successor, s.graph.nodes[r.node].nodeClass)
          && forall n :: n in s.graph.nodes && n != r.node ==> s.graph.nodes[n].entity != r.successor)
  }

  /** Without a successor, an incarnation that is named and not newer than the present one asks for nothing. */
  predicate NotNewer(n: Node, r: Request)
    requires r.ReplaceEndpoint?
  {
    !r.rebind && 0 < r.newGeneration <= n.entityGeneration
  }

  /** The node stands for the successor, or for the named incarnation, and its live edges have to be revalidated. */
  ghost predicate EndpointReplaced(s: State, t: State, env: Env, r: Request)
    requires r.ReplaceEndpoint?
  {
    && Advanced(s, t) && r.node in s.graph.nodes && r.node in t.graph.nodes
    && t.graph.nodes == s.graph.nodes[r.node := t.graph.nodes[r.node]]
    && var before, after := s.graph.nodes[r.node], t.graph.nodes[r.node];
       && (r.rebind ==>
             && env.directory.Some? && r.successor in env.directory.value && after.entity == r.successor
             && after.entityClass == env.directory.value[r.successor].entityClass
             && after.entityGeneration == env.directory.value[r.successor].generation)
       && (!r.rebind ==>
             && after.entity == before.entity && after.entityClass == before.entityClass
             && after.entityGeneration == r.newGeneration)
       && Stepped(before.generation, after.generation) && after.validated == s.graph.generation
       && before == after.(entity := before.entity, entityClass := before.entityClass,
                           entityGeneration := before.entityGeneration, generation := before.generation,
                           validated := before.validated)
       && AllRebound(s.graph.edges, t.graph.edges, r.node, after.entityGeneration, true)
  }

  lemma NoOtherHolder(nodes: Nodes, entity: string, n: NodeId)
    requires EntitiesUnique(nodes) && n in nodes
    ensures FindEntity(nodes, entity).Some? && FindEntity(nodes, entity).value != n
            <==> exists m :: m in nodes && m != n && nodes[m].entity == entity
  {
  }

  lemma ReplaceGuardMeans(s: State, env: Env, c: Context, r: Request)
    requires r.ReplaceEndpoint? && Shaped(s.graph)
    ensures ReplaceGuard(s, env, c, r) == Ok <==> ReplaceMayHappen(s, env, c, r)
  {
    hide CheckAuthority, MayWrite, AuthorityOutcome, EntityClassOf, AcyclicWhereRequired, EndpointsExist,
         EdgesNormalized, EdgeScopesDeclared, EdgesFiled, NodeScopesDeclared, FindEntity;
    if r.node in s.graph.nodes {
      EntityScopeChecked(s, c, s.graph.nodes[r.node].domain, IncrementalWrite);
      NoOtherHolder(s.graph.nodes, r.successor, r.node);
    }
  }

  /** A replacement commits exactly when the node may be bound anew and is not newer already; then it is so bound and
      its live edges have to be revalidated. */
  lemma ReplaceTakesEffect(s: State, env: Env, c: Context, r: Request, persisted: bool)
    requires r.ReplaceEndpoint? && Shaped(s.graph)
    ensures var out := Mutate(s, env, c, r, persisted);
            var may := ReplaceMayHappen(s, env, c, r);
            && (out.verdict == Idempotent <==> may && NotNewer(s.graph.nodes[r.node], r))
            && (out.verdict == Idempotent ==> out.state == s)
            && (out.verdict == Committed <==>
                  may && !NotNewer(s.graph.nodes[r.node], r) && CanAdvance(s.graph.generation) && persisted)
            && (out.verdict == Committed ==> EndpointReplaced(s, out.state, env, r))
  {
    hide Shaped, ReplaceGuard, MayWrite, ReissueIncident, FenceIncident, Refiled, FiledBack, EntityClassOf,
         AllRebound;
    ReplaceGuardMeans(s, env, c, r);
    if ReplaceMayHappen(s, env, c, r) {
      FencedAreRebound(s.graph.edges, r.node, BoundNode(env, s.graph.nodes[r.node], r).entityGeneration);
    }
  }

  /** Asking again is Idempotent exactly when an incarnation was named; binding to the same successor, or to no
      incarnation, is carried out every time. */
  lemma ReplaceAgain(s: State, env: Env, c: Context, r: Request, persisted: bool, again: bool)
    requires r.ReplaceEndpoint? && Shaped(s.graph) && Mutate(s, env, c, r, persisted).verdict == Committed
    ensures var t := Mutate(s, env, c, r, persisted).state;
            var out := Mutate(t, env, c, Unconditional(r), again);
            && (out.verdict == Idempotent <==> !r.rebind && r.newGeneration != 0)
            && (out.verdict == Idempotent ==> out.state == t)
            && (out.verdict == Committed <==>
                  (r.rebind || r.newGeneration == 0) && CanAdvance(t.graph.generation) && again)
  {
    hide Mutate, Shaped, MayWrite, EntityClassOf, AllRebound;
    ReplaceTakesEffect(s, env, c, r, persisted);
    MutationLawful(s, env, c, r, persisted);
    var t := Mutate(s, env, c, r, persisted).state;
    var domain := s.graph.nodes[r.node].domain;
    SameMayWrite(s, t, c, domain);
    assert ReplaceMayHappen(t, env, c, Unconditional(r));
    ReplaceTakesEffect(t, env, c, Unconditional(r), again);
  }

  lemma SameMayWrite(s: State, t: State, c: Context, domain: DomainId)
    requires t.publishers == s.publishers && t.epoch == s.epoch && t.fenced == s.fenced
    ensures MayWrite(t, c, domain) <==> MayWrite(s, c, domain)
  {
  }
}
