/** How a restarted coordinator gets back what it lost: a publisher registers anew and revalidates. */
module RecoveryLaws {
  import opened Types
  import opened Graphs
  import opened Authority
  import opened AuthorityLaws
  import opened GrantLaws
  import opened Mutations
  import opened EffectLaws
  import opened Recovery
  import opened Records
  import opened Image
  import NamingLaws
  import Runs

  /** The registration names a boot that was never fenced, in the epoch of the restarted coordinator, and brings a
      writing grant for the scope. */
  ghost predicate Returns(t: State, r: Registration, domain: DomainId) {
    && r.publisher != "" && r.boot != "" && r.boot !in t.fenced && r.epoch == t.epoch
    && (ScopeGrant(domain, IncrementalWrite) in r.grants || ScopeGrant(domain, AuthoritativeWrite) in r.grants)
  }

  function ContextOf(t: State, r: Registration): Context {
    Context(t.epoch, r.publisher, r.boot, 0, "")
  }

  lemma ReturnedMayWrite(t: State, r: Registration, domain: DomainId)
    requires Returns(t, r, domain) && t.publishers == map[]
    ensures var out := Register(t, r);
            && out.verdict == Committed && out.state.graph == t.graph
            && MayWrite(out.state, ContextOf(t, r), domain)
  {
  }

  /** What a restart makes of the topology, as far as currentness and authority are concerned. */
  ghost predicate Restarted(env: Env, g: Graph, t: State) {
    && t.publishers == map[] && t.graph.generation == g.generation
    && t.graph.nodes.Keys == g.nodes.Keys && t.graph.edges.Keys == g.edges.Keys
    && (forall n :: n in g.nodes ==> NodeComesBack(env, g.nodes[n], t.graph.nodes[n]))
    && (forall e :: e in g.edges ==> ComesBack(g.edges[e], t.graph.edges[e]))
  }

  lemma LoadedIsRestarted(env: Env, g: Graph, epoch: Counter, fenced: set<BootId>, s: Stored, l: StoreLimits,
                          initial: Counter)
    requires Graphs.Shaped(g) && NamingLaws.Named(g) && Lists(s, g, epoch, fenced) && Storable(s, l)
    requires forall b :: b in fenced ==> ValidIdentifier(b, MAX_IDENTIFIER)
    ensures var loaded := Load(env, l, PutState(s), initial); loaded.Some? ==> Restarted(env, g, loaded.value)
  {
    hide Graphs.Shaped, NamingLaws.Named, Lists, Storable, ValidIdentifier, Load, PutState, NodeComesBack, ComesBack,
         Runs.Coherent, Graphs.Complete, Graphs.KeepsUnique, Graphs.Reshaped;
    RestartIsConservative(env, g, epoch, fenced, s, l, initial);
  }

  lemma RootedComesBack(env: Env, g: Graph, t: State, e: EdgeId)
    requires Restarted(env, g, t) && e in g.edges && Rooted(env, g, g.edges[e])
    requires g.edges[e].lifecycle == Current && g.edges[e].provenance.publisher != ""
    ensures Rooted(env, t.graph, t.graph.edges[e]) && Lapsed(g.edges[e], t.graph.edges[e])
  {
  }

  /** What was current before a restart on a publisher's word, and still is as far as the registry goes, is current
      again once a publisher of its scope has registered and revalidated it. */
  lemma CurrentnessReturns(env: Env, g: Graph, t: State, r: Registration, e: EdgeId, evidence: Counter)
    requires Restarted(env, g, t) && CanAdvance(g.generation) && e in g.edges && Rooted(env, g, g.edges[e])
    requires g.edges[e].lifecycle == Current && g.edges[e].provenance.publisher != ""
    requires Returns(t, r, g.edges[e].domain)
    ensures var out := Mutate(Register(t, r).state, env, ContextOf(t, r), Revalidate(e, evidence, 0), true);
            && out.verdict == Committed && e in out.state.graph.edges
            && out.state.graph.edges[e].lifecycle == Current && out.state.graph.edges[e].evidence == evidence
            && out.state.graph.edges[e].provenance.publisher == r.publisher
            && SameIdentity(g.edges[e], out.state.graph.edges[e])
  {
    hide Mutate, Register, Rooted, Restarted, Returns, MayWrite;
    RootedComesBack(env, g, t, e);
    RestartedGeneration(env, g, t);
    ReturnedMayWrite(t, r, g.edges[e].domain);
    LapsedComesBack(Register(t, r).state, env, ContextOf(t, r), e, evidence);
  }

  lemma RestartedGeneration(env: Env, g: Graph, t: State)
    requires Restarted(env, g, t)
    ensures t.graph.generation == g.generation && t.publishers == map[] && t.graph.edges.Keys == g.edges.Keys
  {
  }
}
