/** Whole runs of the runtime: every interleaving of mutations, publications, registrations, fencing and snapshots. */
module Runs {
  import opened Types
  import opened Graphs
  import opened Authority
  import opened Mutations
  import opened MutationLaws
  import opened Reconcile
  import opened PublishLaws
  import opened DraftNames
  import opened NamesLaws

  /** One atomic step: each runs alone under the authority and state
      locks. The registry may differ from step to step. */
  datatype Op =
    | Mutation(env: Env, context: Context, request: Request, persisted: bool)
    | Publication(env: Env, context: Context, publication: Reconcile.Publication, nodes: seq<ObservedNode>,
                  edges: seq<ObservedEdge>, persisted: bool)
    | Registering(registration: Registration)
    | FencingPublisher(publisher: PublisherId, boot: BootId, persisted: bool)
    | FencingBoot(boot: BootId, persisted: bool)
    | AdvancingEpoch(persisted: bool)
    | DefiningDomain(env: Env, definition: DomainDefinition)
    | DefiningRule(rule: CrossDomainRule)
    | NumberingSnapshot

  ghost function Step(s: State, op: Op): State {
    match op
    case Mutation(env, c, r, persisted) => Mutate(s, env, c, r, persisted).state
    case Publication(env, c, p, nodes, edges, persisted) => Publish(s, env, c, p, nodes, edges, persisted).state
    case Registering(r) => Register(s, r).state
    case FencingPublisher(publisher, boot, persisted) => FencePublisher(s, publisher, boot, persisted).state
    case FencingBoot(boot, persisted) => FenceBoot(s, boot, persisted)
    case AdvancingEpoch(persisted) => AdvanceEpoch(s, persisted)
    case DefiningDomain(env, d) => DefineDomain(s, env, d).state
    case DefiningRule(r) => DefineRule(s, r).state
    case NumberingSnapshot => s.(graph := s.graph.(ordinal := Bump(s.graph.ordinal)))
  }

  /** states[i+1] is what step ops[i] makes of states[i]. */
  ghost predicate Run(states: seq<State>, ops: seq<Op>) {
    |states| == |ops| + 1
    && forall i :: 0 <= i < |ops| ==> states[i + 1] == Step(states[i], ops[i])
  }

  ghost predicate RegistrationsCurrent(s: State) {
    forall p :: p in s.publishers ==> s.publishers[p].epoch == s.epoch
  }

  /** What every step of every run keeps, without exception. */
  ghost predicate Coherent(s: State) {
    Shaped(s.graph) && RegistrationsCurrent(s)
  }

  /** A coherent state in which no relationship and no relationship name is used twice. */
  ghost predicate Healthy(s: State) {
    Sound(s.graph) && RegistrationsCurrent(s)
  }

  lemma HealthyIsCoherent(s: State)
    requires Healthy(s)
    ensures Coherent(s) && Structured(s.graph)
  {
    hide Shaped, KeysUnique, RelationshipsUnique;
  }

  // ---- The steps that may duplicate something ------------------------------------------

  /** The step commits neither a move nor an addition for a relationship that an edge already stands for, listed or
      not: the move of an attachment to where it already is, or an addition whose key lookup misses the edge. */
  ghost predicate KeepsKeys(s: State, op: Op) {
    op.Mutation? ==>
      SparesKeys(s, op.env, op.request, Mutate(s, op.env, op.context, op.request, op.persisted).verdict)
  }

  ghost function PublishedVerdict(s: State, op: Op): Verdict
    requires op.Publication?
  {
    Publish(s, op.env, op.context, op.publication, op.nodes, op.edges, op.persisted).verdict
  }

  /** The step commits neither a move under a derived name in use, nor an addition under a name whose lookup misses a
      holder, nor a publication that files under a name which stays taken. */
  ghost predicate KeepsNames(s: State, op: Op) {
    && (op.Mutation? ==>
          SparesNames(s, op.env, op.request, Mutate(s, op.env, op.context, op.request, op.persisted).verdict))
    && (op.Publication? && PublishedVerdict(s, op) == Committed ==>
          var placed := Placed(op.env, op.context, op.publication, s.graph, op.nodes);
          placed.Draft? ==> NamesSettle(op.env, op.publication, placed.g))
  }

  /** The entries are processed in some order. */
  ghost predicate Ordered(op: Op) {
    op.Publication? ==> Rearranges(op.nodes, op.publication.nodes) && Rearranges(op.edges, op.publication.edges)
  }

  // ---- Demotion ----------------------------------------------------------------------

  /** Edges that were kept or demoted, one by one. */
  ghost predicate SomeDemoted(before: Edges, after: Edges) {
    after.Keys == before.Keys
    && forall e :: e in before ==>
        after[e] == before[e] || (before[e].lifecycle == Current && after[e] == Demoted(before[e]))
  }

  lemma DemotionReshapes(before: Edges, after: Edges)
    requires SomeDemoted(before, after)
    ensures Reshaped(before, after) && SameNames(before, after)
  {
    forall e | e in before
      ensures SameShape(before[e], after[e]) && Ages(before[e].lifecycle, after[e].lifecycle)
      ensures before[e].relationship == after[e].relationship
    {
    }
  }

  lemma DemotesSome(edges: Edges, publisher: PublisherId, boot: BootId)
    ensures SomeDemoted(edges, DemotePublisher(edges, publisher)) && SomeDemoted(edges, DemoteBoot(edges, boot))
    ensures SomeDemoted(edges, DemotePublished(edges))
  {
  }

  /** A graph whose edges were demoted is as much in order as before, whatever its counters say. */
  lemma DemotedKeepsOrder(g: Graph, edges: Edges, generation: Counter)
    requires Shaped(g) && SomeDemoted(g.edges, edges)
    ensures KeepsOrder(g, g.(edges := edges, generation := generation)) && EdgesAge(g.edges, edges)
  {
    hide AcyclicWhereRequired, EndpointsExist, EdgesNormalized, EdgeScopesDeclared, EdgesFiled, SomeDemoted,
         KeepsUnique,
         Reshaped, SameNames;
    DemotionReshapes(g.edges, edges);
    ReshapedAges(g.edges, edges);
    ReshapedKeepsUnique(g.edges, edges);
    ReshapedStaysShaped(g, g.nodes, edges, generation);
  }

  lemma CommittedDemotionOrderly(g: Graph, ids: set<EdgeId>, demoted: Edges, persisted: bool)
    requires Shaped(g) && SomeDemoted(g.edges, demoted)
    ensures KeepsOrder(g, CommitDemotion(g, ids, demoted, persisted).0)
    ensures EdgesAge(g.edges, CommitDemotion(g, ids, demoted, persisted).0.edges)
  {
    hide Shaped, SomeDemoted, KeysUnique, RelationshipsUnique, Refiled, FiledBack;
    ShapedAnyLookups(g);
    if CanAdvance(g.generation) {
      DemotedKeepsOrder(g, demoted, g.generation + 1);
      ShapedAnyLookups(g.(edges := demoted, generation := g.generation + 1));
    }
  }

  lemma MoreDomainsKeepOrder(g: Graph, d: DomainDefinition)
    requires Shaped(g)
    ensures KeepsOrder(g, g.(domains := g.domains[d.id := d]))
  {
    hide KeysUnique, AcyclicWhereRequired, EntitiesUnique, RelationshipsUnique, EdgesFiled, NodesFiled, EndpointsExist,
         EdgesNormalized;
  }

  lemma OtherFieldsKeepOrder(g: Graph, ordinal: Counter, rules: seq<CrossDomainRule>)
    requires Shaped(g)
    ensures KeepsOrder(g, g.(ordinal := ordinal)) && KeepsOrder(g, g.(rules := rules))
  {
    hide KeysUnique, AcyclicWhereRequired, EntitiesUnique, RelationshipsUnique, EdgesFiled, NodesFiled, EndpointsExist,
         EdgesNormalized, NodeScopesDeclared, EdgeScopesDeclared;
  }

  // ---- Every step keeps a coherent state coherent ------------------------------------------

  /** The step keeps the state coherent and its edges ageing; KeepsUnique says what it leaves used once. */
  ghost predicate Settles(s: State, t: State) {
    Coherent(t) && EdgesAge(s.graph.edges, t.graph.edges)
  }

  lemma FencePublisherSettles(s: State, publisher: PublisherId, boot: BootId, persisted: bool)
    requires Coherent(s)
    ensures var t := FencePublisher(s, publisher, boot, persisted).state;
            Settles(s, t) && KeepsUnique(s.graph.edges, t.graph.edges)
  {
    hide Shaped, CommitDemotion, KeysUnique, RelationshipsUnique;
    CommittedDemotionOrderly(s.graph, PublisherIds(s.graph.edges, publisher),
                             DemotePublisher(s.graph.edges, publisher), persisted);
  }

  lemma FenceBootSettles(s: State, boot: BootId, persisted: bool)
    requires Coherent(s)
    ensures var t := FenceBoot(s, boot, persisted); Settles(s, t) && KeepsUnique(s.graph.edges, t.graph.edges)
  {
    hide Shaped, CommitDemotion, KeysUnique, RelationshipsUnique;
    CommittedDemotionOrderly(s.graph, BootIds(s.graph.edges, boot), DemoteBoot(s.graph.edges, boot), persisted);
  }

  lemma AdvanceEpochSettles(s: State, persisted: bool)
    requires Coherent(s)
    ensures var t := AdvanceEpoch(s, persisted); Settles(s, t) && KeepsUnique(s.graph.edges, t.graph.edges)
  {
    hide Shaped, KeysUnique, RelationshipsUnique, Refiled, FiledBack;
    var g, demoted := s.graph, DemotePublished(s.graph.edges);
    ShapedAnyLookups(g);
    DemotedKeepsOrder(g, demoted, Bump(g.generation));
    ShapedAnyLookups(g.(edges := demoted, generation := Bump(g.generation)));
  }

  lemma AuthorityStepSettles(s: State, op: Op)
    requires Coherent(s) && !op.Mutation? && !op.Publication?
    ensures Settles(s, Step(s, op)) && KeepsUnique(s.graph.edges, Step(s, op).graph.edges)
  {
    hide Shaped, Mutate, Publish, FencePublisher, FenceBoot, AdvanceEpoch, ParentWalk, KeysUnique, RelationshipsUnique;
    match op
    case Registering(r) =>
    case FencingPublisher(publisher, boot, persisted) => FencePublisherSettles(s, publisher, boot, persisted);
    case FencingBoot(boot, persisted) => FenceBootSettles(s, boot, persisted);
    case AdvancingEpoch(persisted) => AdvanceEpochSettles(s, persisted);
    case DefiningDomain(env, d) => MoreDomainsKeepOrder(s.graph, d);
    case DefiningRule(r) => OtherFieldsKeepOrder(s.graph, 0, s.graph.rules + [r]);
    case NumberingSnapshot => OtherFieldsKeepOrder(s.graph, Bump(s.graph.ordinal), []);
  }

  /** Whatever the step is, the state stays coherent and no edge is revived;
      relationships stay unique exactly when no committed move or addition duplicates one. */
  lemma StepSettles(s: State, op: Op)
    requires Coherent(s)
    ensures Settles(s, Step(s, op))
    ensures KeysUnique(s.graph.edges) ==> (KeysUnique(Step(s, op).graph.edges) <==> KeepsKeys(s, op))
  {
    hide Shaped, Mutate, Publish, FencePublisher, FenceBoot, AdvanceEpoch, DefineDomain, DefineRule, Register,
         KeysUnique, RelationshipsUnique, EdgesAge, SparesKeys, SparesNames;
    match op
    case Mutation(env, c, r, persisted) => MutationLawful(s, env, c, r, persisted);
    case Publication(env, c, p, nodes, edges, persisted) =>
      PublishLawful(s, env, c, p, nodes, edges, persisted);
      PublishAllOrNothing(s, env, c, p, nodes, edges, persisted);
    case _ => AuthorityStepSettles(s, op);
  }

  /** From a sound state, whatever its lookups find, a step leads to a sound state exactly when it does not commit a
      duplicate. */
  lemma StepSoundExactlyWhen(s: State, op: Op)
    requires Healthy(s) && Ordered(op)
    ensures Sound(Step(s, op).graph) <==> KeepsKeys(s, op) && KeepsNames(s, op)
  {
    hide Shaped, Mutate, Publish, FencePublisher, FenceBoot, AdvanceEpoch, DefineDomain, DefineRule, Register,
         EdgesAge, KeysUnique, RelationshipsUnique, NamesSettle, SparesKeys, SparesNames, Placed, Ordered;
    HealthyIsCoherent(s);
    StepSettles(s, op);
    match op
    case Mutation(env, c, r, persisted) => MutationLawful(s, env, c, r, persisted);
    case Publication(env, c, p, nodes, edges, persisted) =>
      PublishAllOrNothing(s, env, c, p, nodes, edges, persisted);
      if PublishedVerdict(s, op) == Committed {
        OrderedEntries(op);
        PublishSoundExactlyWhenNamesSettle(s, env, c, p, nodes, edges, persisted);
      }
    case _ => AuthorityStepSettles(s, op);
  }

  lemma OrderedEntries(op: Op)
    requires op.Publication? && Ordered(op)
    ensures Rearranges(op.nodes, op.publication.nodes) && Rearranges(op.edges, op.publication.edges)
  {
  }

  // ---- Safety over whole runs, without exception ---------------------------------------------

  /** In every state of every run the live edges of each acyclic relation form no cycle, no endpoint dangles,
      identities and entities are unique, scopes are declared, and no registration is of another epoch. */
  lemma {:induction false} RunsStayCoherent(states: seq<State>, ops: seq<Op>, i: nat)
    requires Run(states, ops) && Coherent(states[0]) && i < |states|
    ensures Coherent(states[i])
  {
    hide Coherent, Step, EdgesAge;
    if i > 0 {
      RunsStayCoherent(states, ops, i - 1);
      StepSettles(states[i - 1], ops[i - 1]);
    }
  }

  /** While an edge stays in the graph, Retired is absorbing and Superseded can only stay or become Retired. */
  lemma {:induction false} LifecyclesOnlyAge(states: seq<State>, ops: seq<Op>, i: nat, j: nat, e: EdgeId)
    requires Run(states, ops) && Coherent(states[0]) && i <= j < |states|
    requires forall k :: i <= k <= j ==> e in states[k].graph.edges
    ensures Ages(states[i].graph.edges[e].lifecycle, states[j].graph.edges[e].lifecycle)
  {
    hide Coherent, Step;
    if i < j {
      LifecyclesOnlyAge(states, ops, i, j - 1, e);
      RunsStayCoherent(states, ops, j - 1);
      StepSettles(states[j - 1], ops[j - 1]);
    }
  }

  /** In no reachable state can a request be refused because its registration belongs to another epoch. */
  lemma RegistrationNeverStale(states: seq<State>, ops: seq<Op>, i: nat, c: Context, domain: DomainId,
                               required: GrantMode)
    requires Run(states, ops) && Coherent(states[0]) && i < |states|
    ensures CheckAuthority(states[i], c, domain, required) != RegistrationStale
  {
    hide Shaped, Step;
    RunsStayCoherent(states, ops, i);
  }

  // ---- Uniqueness over whole runs --------------------------------------------------------------

  /** Over any run in which no committed move or addition duplicates one, no relationship is ever stored twice. */
  lemma {:induction false} RunsStayStructured(states: seq<State>, ops: seq<Op>, i: nat)
    requires Run(states, ops) && Coherent(states[0]) && Structured(states[0].graph) && i < |states|
    requires forall k :: 0 <= k < i ==> KeepsKeys(states[k], ops[k])
    ensures Structured(states[i].graph)
  {
    hide Step, Shaped, KeepsKeys, KeysUnique, EdgesAge;
    if i > 0 {
      RunsStayStructured(states, ops, i - 1);
      RunsStayCoherent(states, ops, i - 1);
      StepSettles(states[i - 1], ops[i - 1]);
    }
  }

  /** Over any run in which no step commits a duplicate, every state is sound. */
  lemma {:induction false} RunsStayHealthy(states: seq<State>, ops: seq<Op>, i: nat)
    requires Run(states, ops) && Healthy(states[0]) && i < |states|
    requires forall k :: 0 <= k < i ==> Ordered(ops[k]) && KeepsKeys(states[k], ops[k]) && KeepsNames(states[k], ops[k])
    ensures Healthy(states[i])
  {
    hide Step, Sound, KeepsKeys, KeepsNames, Shaped, EdgesAge, Ordered;
    if i > 0 {
      RunsStayHealthy(states, ops, i - 1);
      HealthyIsCoherent(states[i - 1]);
      StepSoundExactlyWhen(states[i - 1], ops[i - 1]);
      StepSettles(states[i - 1], ops[i - 1]);
    }
  }

  /** The empty runtime a process starts with. */
  function Fresh(epoch: Counter): State {
    State(Graph(map[], map[], NO_LOOKUPS, 0, 0, map[], []), epoch, map[], {}, [])
  }

  lemma FreshIsHealthy(epoch: Counter)
    ensures Healthy(Fresh(epoch)) && Complete(Fresh(epoch).graph)
  {
    forall r | MustStayAcyclic(r)
      ensures Paths.Acyclic(LiveArcs(map[], r))
    {
      Paths.RankedIsAcyclic(LiveArcs(map[], r), map[]);
    }
  }
}
