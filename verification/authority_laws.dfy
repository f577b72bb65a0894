/** What authority means: who is granted, what registration and fencing change, and how scopes nest. */
module AuthorityLaws {
  import opened Types
  import opened Paths
  import opened Graphs
  import opened Authority
  import opened Mutations
  import opened Reconcile

  /** The present, unfenced incarnation of a registered publisher, in the present epoch. */
  ghost predicate Standing(s: State, c: Context) {
    && c.publisher != "" && c.boot != "" && c.epoch == s.epoch && c.boot !in s.fenced
    && c.publisher in s.publishers && s.publishers[c.publisher].boot == c.boot
    && s.publishers[c.publisher].epoch == s.epoch && !s.publishers[c.publisher].fenced
  }

  /** Helper: a request is granted exactly when its caller stands and some grant for the scope is strong enough. */
  lemma GrantedExactly(s: State, c: Context, domain: DomainId, required: GrantMode)
    ensures CheckAuthority(s, c, domain, required) == Granted
            <==> Standing(s, c) && (required == NoGrant
                 || exists m :: ScopeGrant(domain, m) in s.publishers[c.publisher].grants && Rank(m) >= Rank(required))
  {
    if Standing(s, c) {
      var grants := s.publishers[c.publisher].grants;
      var best := GrantFor(grants, domain);
      if m :| ScopeGrant(domain, m) in grants && Rank(m) >= Rank(required) {
        var i :| 0 <= i < |grants| && grants[i] == ScopeGrant(domain, m);
        assert Rank(grants[i].mode) <= Rank(best);
      }
    }
  }

  /** Helper: a registration that is accepted gives its boot exactly its grants, and silences the boot it replaces. */
  lemma RegistrationAuthorises(s: State, r: Registration, domain: DomainId, required: GrantMode)
    requires Register(s, r).verdict.Committed? || Register(s, r).verdict.Idempotent?
    ensures var t := Register(s, r).state;
            && (CheckAuthority(t, Context(t.epoch, r.publisher, r.boot, 0, ""), domain, required) == Granted
                <==> Rank(GrantFor(r.grants, domain)) >= Rank(required))
            && (r.publisher in s.publishers && s.publishers[r.publisher].boot != r.boot ==>
                  s.publishers[r.publisher].boot in t.fenced)
            && t.graph == s.graph && t.epoch == s.epoch && s.fenced <= t.fenced
            && (forall p :: p in s.publishers && p != r.publisher ==>
                p in t.publishers && t.publishers[p] == s.publishers[p])
  {
    hide GrantFor;
  }

  /** A registration is accepted exactly when it names a publisher and an unfenced boot in the present epoch; then the
      publisher is on file as it says, not fenced, and everyone else as before. */
  lemma RegisterExactly(s: State, r: Registration)
    ensures var out := Register(s, r);
            var entry := Publisher(r.boot, r.epoch, r.grants, false);
            && (out.verdict.Refused? <==>
                  r.publisher == "" || r.boot == "" || r.boot in s.fenced || r.epoch != s.epoch)
            && (out.verdict.Refused? ==> out.state == s)
            && (out.verdict == Idempotent <==>
                  !out.verdict.Refused? && r.publisher in s.publishers && s.publishers[r.publisher] == entry)
            && (!out.verdict.Refused? ==>
                  && out.state.publishers == s.publishers[r.publisher := entry]
                  && out.state == s.(publishers := out.state.publishers, fenced := out.state.fenced)
                  && forall b :: b in out.state.fenced <==>
                       || b in s.fenced
                       || (r.publisher in s.publishers && b == s.publishers[r.publisher].boot && b != r.boot))
  {
  }

  // ---- Fencing ---------------------------------------------------------------------------------

  /** The edge must be revalidated, and but for that and one step of its own counter it is as it was. */
  predicate Lapsed(before: Edge, after: Edge) {
    && after.lifecycle == RevalidationRequired
    && (CanAdvance(before.generation) ==> after.generation == before.generation + 1)
    && (!CanAdvance(before.generation) ==> after.generation == before.generation)
    && before == after.(lifecycle := before.lifecycle, generation := before.generation)
  }

  /** Just these edges were current, and they have lapsed; nodes and every other edge are as they were, and the
      generation has moved by one exactly when there were any. */
  ghost predicate LapsedExactly(g: Graph, h: Graph, ids: set<EdgeId>) {
    && h.nodes == g.nodes && h.edges.Keys == g.edges.Keys
    && (forall e :: e in g.edges ==> if e in ids then Lapsed(g.edges[e], h.edges[e]) else h.edges[e] == g.edges[e])
    && (h.generation == g.generation <==> ids == {})
    && (ids != {} ==> CanAdvance(g.generation) && h.generation == g.generation + 1)
    && h == g.(edges := h.edges, lookups := h.lookups, generation := h.generation)
  }

  /** The current edges that rest on this publisher's word, or on this boot's, or on anyone's. */
  ghost function CurrentOf(edges: Edges, publisher: PublisherId): set<EdgeId> {
    set e | e in edges && edges[e].lifecycle == Current && edges[e].provenance.publisher == publisher
  }

  ghost function CurrentUnder(edges: Edges, boot: BootId): set<EdgeId> {
    set e | e in edges && edges[e].lifecycle == Current && edges[e].provenance.boot == boot
  }

  ghost function CurrentPublished(edges: Edges): set<EdgeId> {
    set e | e in edges && edges[e].lifecycle == Current && edges[e].provenance.publisher != ""
  }

  lemma DemotionLapses(g: Graph, ids: set<EdgeId>, demoted: Edges, persisted: bool)
    requires ids <= g.edges.Keys && demoted.Keys == g.edges.Keys
    requires forall e :: e in g.edges ==> demoted[e] == if e in ids then Demoted(g.edges[e]) else g.edges[e]
    ensures var (h, o) := CommitDemotion(g, ids, demoted, persisted);
            && (o == Ok ==> LapsedExactly(g, h, ids)) && (o != Ok ==> h == g.(lookups := h.lookups))
            && (o == Ok <==> ids == {} || (CanAdvance(g.generation) && persisted))
            && (o != Ok ==> o == if !CanAdvance(g.generation) then ResourceLimit else PersistenceIoFailure)
  {
    hide Refiled, FiledBack;
    forall e | e in g.edges
      ensures e in ids ==> Lapsed(g.edges[e], demoted[e])
    {
    }
  }

  lemma PublisherLapses(g: Graph, publisher: PublisherId, persisted: bool)
    ensures var (h, o) := CommitDemotion(g, PublisherIds(g.edges, publisher), DemotePublisher(g.edges, publisher),
                                         persisted);
            var ids := CurrentOf(g.edges, publisher);
            && (o == Ok ==> LapsedExactly(g, h, ids)) && (o != Ok ==> h == g.(lookups := h.lookups))
            && (o == Ok <==> ids == {} || (CanAdvance(g.generation) && persisted))
            && (o != Ok ==> o == if !CanAdvance(g.generation) then ResourceLimit else PersistenceIoFailure)
  {
    hide Refiled, FiledBack, CommitDemotion, LapsedExactly;
    assert PublisherIds(g.edges, publisher) == CurrentOf(g.edges, publisher);
    DemotionLapses(g, PublisherIds(g.edges, publisher), DemotePublisher(g.edges, publisher), persisted);
  }

  lemma FencedIsRefused(s: State, c: Context, domain: DomainId, required: GrantMode)
    ensures c.boot in s.fenced ==> CheckAuthority(s, c, domain, required) != Granted
  {
    hide GrantFor;
  }

  /** Helper: fencing a publisher takes the currentness of exactly what it asserted, and its authority; when that
      cannot be made durable the topology is as it was, and the boot is fenced all the same. */
  lemma FencingSilences(s: State, publisher: PublisherId, boot: BootId, persisted: bool, c: Context, domain: DomainId,
                        required: GrantMode)
    requires publisher != "" && boot != ""
    ensures var r := FencePublisher(s, publisher, boot, persisted);
            var known := publisher in s.publishers && s.publishers[publisher].boot == boot;
            var ids := CurrentOf(s.graph.edges, publisher);
            && r.state.fenced == s.fenced + {boot} && r.state.epoch == s.epoch && r.state.ledger == s.ledger
            && (c.boot == boot ==> CheckAuthority(r.state, c, domain, required) != Granted)
            && (!r.verdict.Refused? <==> known && (ids == {} || (CanAdvance(s.graph.generation) && persisted)))
            && (publisher !in s.publishers ==> r.verdict == Refused(StaleAuthority))
            && (publisher in s.publishers && !known ==> r.verdict == Refused(StaleWorkerBoot))
            && (!r.verdict.Refused? ==> (r.verdict == Idempotent <==> s.publishers[publisher].fenced))
            && (known ==> r.state.publishers == s.publishers[publisher := s.publishers[publisher].(fenced := true)])
            && (!known ==> r.state.publishers == s.publishers)
            && (if r.verdict.Refused? then r.state.graph == s.graph.(lookups := r.state.graph.lookups)
                else LapsedExactly(s.graph, r.state.graph, ids))
  {
    hide GrantFor, Refiled, FiledBack, CommitDemotion, LapsedExactly, CheckAuthority, CurrentOf, PublisherIds,
         DemotePublisher;
    PublisherLapses(s.graph, publisher, persisted);
    FencedIsRefused(FencePublisher(s, publisher, boot, persisted).state, c, domain, required);
  }

  /** Helper: fencing a boot takes the currentness of exactly what was asserted under it, fences whoever is registered
      under it, and takes its authority; when that cannot be made durable the topology is as it was. */
  lemma BootFencingSilences(s: State, boot: BootId, persisted: bool, c: Context, domain: DomainId,
                            required: GrantMode)
    requires boot != ""
    ensures var t := FenceBoot(s, boot, persisted);
            var ids := CurrentUnder(s.graph.edges, boot);
            && t.fenced == s.fenced + {boot} && t.epoch == s.epoch && t.ledger == s.ledger
            && (c.boot == boot ==> CheckAuthority(t, c, domain, required) != Granted)
            && t.publishers.Keys == s.publishers.Keys
            && (forall p :: p in s.publishers ==>
                  if s.publishers[p].boot == boot
                  then t.publishers[p].fenced && s.publishers[p] == t.publishers[p].(fenced := s.publishers[p].fenced)
                  else t.publishers[p] == s.publishers[p])
            && (if ids == {} || (CanAdvance(s.graph.generation) && persisted) then LapsedExactly(s.graph, t.graph, ids)
                else t.graph == s.graph.(lookups := t.graph.lookups))
  {
    hide GrantFor, Refiled, FiledBack, CommitDemotion, LapsedExactly;
    var edges := s.graph.edges;
    assert BootIds(edges, boot) == CurrentUnder(edges, boot);
    DemotionLapses(s.graph, BootIds(edges, boot), DemoteBoot(edges, boot), persisted);
  }

  lemma PublishedLapse(edges: Edges)
    ensures PublishedIds(edges) == CurrentPublished(edges) && DemotePublished(edges).Keys == edges.Keys
    ensures forall e :: e in edges ==>
              if e in CurrentPublished(edges) then Lapsed(edges[e], DemotePublished(edges)[e])
              else DemotePublished(edges)[e] == edges[e]
    ensures CurrentPublished(edges) == {} ==> DemotePublished(edges) == edges
  {
  }

  /** Helper: a new epoch leaves no one registered or with authority. When the demotion is durable, exactly what rests
      on a publisher's word loses its currentness; when it is not, the topology is as it was. */
  lemma EpochSilences(s: State, persisted: bool, c: Context, domain: DomainId, required: GrantMode)
    requires CanAdvance(s.epoch)
    ensures var t := AdvanceEpoch(s, persisted);
            var ids := CurrentPublished(s.graph.edges);
            && t.epoch == s.epoch + 1 && t.publishers == map[] && t.fenced == s.fenced && t.ledger == s.ledger
            && CheckAuthority(t, c, domain, required) != Granted
            && (persisted && CanAdvance(s.graph.generation) ==> LapsedExactly(s.graph, t.graph, ids))
            && (persisted && !CanAdvance(s.graph.generation) ==>
                  && t.graph == s.graph.(edges := t.graph.edges, lookups := t.graph.lookups)
                  && t.graph.edges.Keys == s.graph.edges.Keys
                  && forall e :: e in s.graph.edges ==>
                       if e in ids then Lapsed(s.graph.edges[e], t.graph.edges[e])
                       else t.graph.edges[e] == s.graph.edges[e])
            && (!persisted ==> t.graph == s.graph.(lookups := t.graph.lookups))
  {
    hide GrantFor, Refiled, FiledBack, Lapsed, PublishedIds, CurrentPublished, DemotePublished;
    PublishedLapse(s.graph.edges);
  }

  /** An epoch that cannot advance leaves everything as it is. */
  lemma LastEpochStays(s: State, persisted: bool)
    ensures AdvanceEpoch(s, persisted) == s <==> !CanAdvance(s.epoch)
    ensures FenceBoot(s, "", persisted) == s
    ensures forall p, b :: p == "" || b == "" ==> FencePublisher(s, p, b, persisted) == Refuse(s, MalformedRequest)
  {
    hide Refiled, FiledBack;
  }

  // ---- Scopes ----------------------------------------------------------------------------------

  /** Helper: the scope of a relationship is where its endpoints are;
      across two scopes both are named, and a rule permits it. */
  lemma ScopeIsWhereEndpointsAre(rules: seq<CrossDomainRule>, from: DomainId, to: DomainId, requested: DomainId,
                                 r: Relation, cross: bool)
    ensures match ResolveScope(rules, from, to, requested, r, cross)
            case NoScope => true
            case InDomain(d) => d == from == to && d != "" && (requested == "" || requested == d)
            case Crossing(a, b) =>
              a == requested && {a, b} == {from, to} && from != to && cross && RulePermits(rules, from, to, r)
  {
  }

  ghost function ParentArcs(domains: map<DomainId, DomainDefinition>): Arcs<DomainId> {
    set d | d in domains && domains[d].parent != "" :: (d, domains[d].parent)
  }

  /** The walk finds the scope whenever going up from the cursor would. */
  lemma {:induction false} WalkFindsScope(domains: map<DomainId, DomainDefinition>, cursor: DomainId, id: DomainId,
                                          hops: nat, n: nat)
    requires id != "" && "" !in domains && ParentWalk(domains, cursor, id, hops) == Ok
    ensures !Walk(ParentArcs(domains), cursor, id, n)
    decreases n
  {
    var arcs := ParentArcs(domains);
    if n > 0 && Walk(arcs, cursor, id, n) {
      var c :| (cursor, c) in arcs && Walk(arcs, c, id, n - 1);
      assert c == domains[cursor].parent;
      WalkFindsScope(domains, c, id, hops - 1, n - 1);
    }
  }

  lemma ParentArcsOfMore(domains: map<DomainId, DomainDefinition>, d: DomainDefinition)
    requires d.id !in domains
    ensures ParentArcs(domains[d.id := d])
            == if d.parent == "" then ParentArcs(domains) else ParentArcs(domains) + {(d.id, d.parent)}
  {
    var after := domains[d.id := d];
    assert after[d.id] == d && forall c :: c in domains ==> after[c] == domains[c];
    forall a
      ensures a in ParentArcs(after) <==> a in ParentArcs(domains) || (d.parent != "" && a == (d.id, d.parent))
    {
      assert a.0 in after <==> a.0 in domains || a.0 == d.id;
    }
  }

  /** Declaring a scope keeps the nesting of scopes acyclic. */
  lemma NestingStaysAcyclic(s: State, env: Env, d: DomainDefinition)
    requires "" !in s.graph.domains && Acyclic(ParentArcs(s.graph.domains))
    ensures var t := DefineDomain(s, env, d).state; "" !in t.graph.domains && Acyclic(ParentArcs(t.graph.domains))
  {
    hide Lookup;
    var domains := s.graph.domains;
    var out := DefineDomain(s, env, d);
    if out.state != s {
      var after := domains[d.id := d];
      var arcs := ParentArcs(domains);
      ParentArcsOfMore(domains, d);
      if d.parent != "" {
        if Reaches(arcs, d.parent, d.id) {
          var n: nat :| Walk(arcs, d.parent, d.id, n);
          WalkFindsScope(domains, d.parent, d.id, env.limits.maxNodes, n);
        }
        AddArcAcyclic(arcs, d.id, d.parent);
      }
    }
  }

  /** A scope is declared exactly when it has a name that is free, an anchor the registry has in service, if it has an
      anchor and there is a registry, and a parent that is declared, if it has a parent, not too deep. Declaring it
      again in the same words changes nothing; in other words it is refused. */
  lemma DefineDomainExactly(s: State, env: Env, d: DomainDefinition)
    ensures var out := DefineDomain(s, env, d);
            var domains := s.graph.domains;
            var anchored := d.anchor == "" || env.directory.None?
                            || (&& d.anchor in env.directory.value && !env.directory.value[d.anchor].retired
                                && !env.directory.value[d.anchor].superseded);
            && (out.verdict == Committed <==>
                  && d.id != "" && anchored && d.id !in domains && (d.parent == "" || d.parent in domains)
                  && ParentWalk(domains, d.parent, d.id, env.limits.maxNodes) == Ok)
            && (out.verdict == Idempotent <==> d.id != "" && anchored && d.id in domains && domains[d.id] == d)
            && (out.verdict == Committed ==>
                  out.state == s.(graph := s.graph.(domains := domains + map[d.id := d])))
            && (out.verdict != Committed ==> out.state == s)
  {
    hide ParentWalk;
    assert s.graph.domains[d.id := d] == s.graph.domains + map[d.id := d];
  }

  /** A rule is added, once, exactly when it names a relation and two declared scopes. */
  lemma DefineRuleExactly(s: State, r: CrossDomainRule)
    ensures var out := DefineRule(s, r);
            var named := r.relation != UnknownRelation && r.from != "" && r.to != ""
                         && r.from in s.graph.domains && r.to in s.graph.domains;
            && (out.verdict == Committed <==> named && r !in s.graph.rules)
            && (out.verdict == Idempotent <==> named && r in s.graph.rules)
            && (!out.verdict.Refused? ==>
                  && forall q :: q in out.state.graph.rules <==> q in s.graph.rules || q == r)
            && out.state == s.(graph := s.graph.(rules := out.state.graph.rules))
            && (out.verdict != Committed ==> out.state == s)
  {
  }

  // ---- Relation rules ---------------------------------------------------------------------------

  /** Storing an undirected relationship the other way round never makes its endpoint classes impermissible. */
  lemma NormalizationKeepsPermission(r: Relation, from: NodeId, to: NodeId, a: NodeClass, b: NodeClass)
    ensures var (x, y) := Normalize(r, from, to);
            (x, y) == (from, to) || ((x, y) == (to, from) && EndpointsPermitted(r, a, b) == EndpointsPermitted(r, b, a))
    ensures Undirected(r) ==> !MustStayAcyclic(r)
  {
    hide Less, EndpointsPermitted;
    if Undirected(r) {
      UndirectedIsSymmetric(r, a, b);
    }
  }

  lemma UndirectedIsSymmetric(r: Relation, a: NodeClass, b: NodeClass)
    requires Undirected(r)
    ensures EndpointsPermitted(r, a, b) == EndpointsPermitted(r, b, a)
  {
    hide FromPermitted, ToPermitted, Portish, Switchish;
    UndirectedClasses(a);
    UndirectedClasses(b);
  }

  /** Either end of an undirected relationship may be of the same classes. */
  lemma UndirectedClasses(c: NodeClass)
    ensures FromPermitted(ConnectedTo, c) == Portish(c) == ToPermitted(ConnectedTo, c)
    ensures FromPermitted(PeersWith, c) == Switchish(c) == ToPermitted(PeersWith, c)
    ensures FromPermitted(LogicallyConnectedTo, c) == Portish(c) == ToPermitted(LogicallyConnectedTo, c)
  {
    hide Portish, Switchish;
  }

  /** Helper: an edge that passes the candidate checks passes
      whole-graph validation, as long as its endpoints are current. */
  lemma FiledCandidateIsValid(g: Graph, c: Context, k: Candidate)
    requires ValidateCandidate(g, k, true) == Ok && k.from in g.nodes && k.to in g.nodes
    requires g.nodes[k.from].lifecycle == Current && g.nodes[k.to].lifecycle == Current && k.id !in g.edges
    requires ScopeValid(NewEdge(g, c, k, RealEvidence, OperatorDeclaration), g.nodes[k.from].domain,
        g.nodes[k.to].domain)
    ensures var e := NewEdge(g, c, k, RealEvidence, OperatorDeclaration); EdgeValid(g.(edges := g.edges[k.id := e]), e)
  {
    hide EndpointsPermitted, LayerPermitted, WouldCycle, AttachmentConflict;
  }
}
