/** Generation and epoch stamps: two observable states with the same stamp hold the same topology. */
module StampLaws {
  import opened Types
  import opened Graphs
  import opened Authority
  import opened Mutations
  import opened MutationLaws
  import opened Reconcile
  import opened PublishLaws
  import opened Runs

  /** The counters never fall, boots stay fenced, and scopes stay declared. */
  ghost predicate Forward(s: State, t: State) {
    s.graph.generation <= t.graph.generation && s.epoch <= t.epoch && s.graph.ordinal <= t.graph.ordinal
    && s.fenced <= t.fenced && s.graph.domains.Keys <= t.graph.domains.Keys
  }

  predicate SameTopology(s: State, t: State) {
    s.graph.nodes == t.graph.nodes && s.graph.edges == t.graph.edges
  }

  predicate SameStamp(s: State, t: State) {
    s.graph.generation == t.graph.generation && s.epoch == t.epoch
  }

  /** Whether a step fails in one of the three ways that leave something behind: a move whose new identifier was taken,
      an addition whose identifier and key belong to an edge that the key lookup misses, or an endpoint replacement
      whose rebound node cannot be made durable. */
  ghost predicate LeavesResidue(s: State, op: Op) {
    match op
    case Mutation(env, c, r, persisted) =>
      || (r.MoveAttachment? && ErasesHolder(s, env, c, r))
      || (r.AddRelationship? && ErasesUnlisted(s, env, c, r))
      || (r.ReplaceEndpoint? && LeavesBinding(s, env, c, r, persisted))
    case _ => false
  }

  // ---- Mutations -------------------------------------------------------------------------

  /** Only the graph may differ, and but for what its lookups find it differs only when the mutation committed. */
  ghost predicate StampedBy(s: State, r: Result) {
    && r.state == s.(graph := r.state.graph)
    && r.state.graph == s.graph.(nodes := r.state.graph.nodes, edges := r.state.graph.edges,
                                 lookups := r.state.graph.lookups, generation := r.state.graph.generation)
    && (if r.verdict == Committed
        then CanAdvance(s.graph.generation) && r.state.graph.generation == s.graph.generation + 1
        else OnlyLookups(s, r.state))
  }

  lemma AddNodeStamped(s: State, env: Env, c: Context, r: Request, persisted: bool)
    requires r.AddNode?
    ensures StampedBy(s, DoAddNode(s, env, c, r, persisted))
  {
    hide CheckAuthority, AuthorityOutcome, MetadataOk, FenceIncident, NewNode, RefreshedNode, Refiled, FiledBack,
         FencedIds;
  }

  /** What is left of the state, whether an edge is erased or not. */
  ghost predicate StampedOrLeft(s: State, out: Result, residue: bool) {
    if residue
    then
      && SameStamp(s, out.state) && !SameTopology(s, out.state)
      && out.state == s.(graph := s.graph.(nodes := out.state.graph.nodes, edges := out.state.graph.edges,
                                           lookups := out.state.graph.lookups))
    else StampedBy(s, out)
  }

  lemma AddRelationshipStamped(s: State, env: Env, c: Context, r: Request, persisted: bool)
    requires r.AddRelationship?
    ensures StampedOrLeft(s, DoAddRelationship(s, env, c, r, persisted),
                          LeavesResidue(s, Mutation(env, c, r, persisted)))
  {
    hide AddGuard, Asked, ValidateCandidate, SameStatement, RestatedEdge, NewEdge, KeyOf, MakeKey, Enlist, Delist,
         EndpointsMatch;
    AddIsAtomicExactlyWhenListed(s, env, c, r, persisted);
    if ErasesUnlisted(s, env, c, r) {
      assert Asked(s.graph, env, r).value.id !in s.graph.edges - {Asked(s.graph, env, r).value.id};
    }
  }

  lemma EvidenceStamped(s: State, env: Env, c: Context, id: EdgeId, evidence: Counter, lifecycle: Lifecycle,
                        expected: Counter, expectedEdge: Counter, metadata: Option<Metadata>, persisted: bool)
    ensures StampedBy(s, ChangeEvidence(s, env, c, id, evidence, lifecycle, expected, expectedEdge, metadata,
                                        persisted))
  {
    hide CheckAuthority, AuthorityOutcome, CurrentnessBlocked, WithEvidence, Enlist, Delist;
  }

  lemma RemovalStamped(s: State, c: Context, r: Request, persisted: bool)
    requires r.RemoveNode?
    ensures StampedBy(s, DoRemoveNode(s, c, r, persisted))
  {
    hide CheckAuthority, AuthorityOutcome, WithoutIncident, Delisted, FiledBack, IncidentIds;
  }

  lemma ClosingStamped(s: State, c: Context, r: Request, persisted: bool)
    ensures r.Supersede? ==> StampedBy(s, DoSupersede(s, c, r, persisted))
    ensures r.Retire? ==> StampedBy(s, DoRetire(s, c, r, persisted))
  {
    hide CheckAuthority, AuthorityOutcome, Enlist, Delist, SupersededEdge, RetiredEdge;
  }

  lemma EdgeRequestStamped(s: State, env: Env, c: Context, r: Request, persisted: bool)
    requires r.UpdateEvidence? || r.Revalidate? || r.Supersede? || r.Retire? || r.RemoveNode?
    ensures StampedBy(s, Mutate(s, env, c, r, persisted))
  {
    hide MetadataOk, ChangeEvidence, DoSupersede, DoRetire, DoRemoveNode;
    match r
    case RemoveNode(_, _, _) => RemovalStamped(s, c, r, persisted);
    case UpdateEvidence(edge, evidence, lifecycle, expected, expectedEdge, replace, metadata) =>
      EvidenceStamped(s, env, c, edge, evidence, lifecycle, expected, expectedEdge,
                      if replace then Some(metadata) else None, persisted);
    case Revalidate(edge, evidence, expected) =>
      EvidenceStamped(s, env, c, edge, evidence, Current, expected, 0, None, persisted);
    case _ => ClosingStamped(s, c, r, persisted);
  }

  lemma MutationStamped(s: State, env: Env, c: Context, r: Request, persisted: bool)
    requires !r.MoveAttachment? && !r.ReplaceEndpoint? && !r.AddRelationship?
    ensures StampedBy(s, Mutate(s, env, c, r, persisted))
  {
    hide DoAddNode, StampedBy, DoUpdateEvidence, DoRemoveNode, DoSupersede, DoRetire, ChangeEvidence;
    if r.AddNode? {
      AddNodeStamped(s, env, c, r, persisted);
    } else {
      EdgeRequestStamped(s, env, c, r, persisted);
    }
  }

  lemma MoveStamped(s: State, env: Env, c: Context, r: Request, persisted: bool)
    requires r.MoveAttachment?
    ensures StampedOrLeft(s, DoMoveAttachment(s, env, c, r, persisted),
                          LeavesResidue(s, Mutation(env, c, r, persisted)))
  {
    hide MoveGuard, NewEdge, Enlist, Delist, SupersededEdge;
    GuardsFindTheirTargets(s, env, c, r);
    if MoveGuard(s, env, c, r) == Ok {
      var k := MovedCandidate(env, r, s.graph.edges[r.edge]);
      assert k.id !in s.graph.edges - {k.id};
    }
  }

  lemma ReplaceStamped(s: State, env: Env, c: Context, r: Request, persisted: bool)
    requires r.ReplaceEndpoint?
    ensures StampedOrLeft(s, DoReplaceEndpoint(s, env, c, r, persisted),
                          LeavesResidue(s, Mutation(env, c, r, persisted)))
  {
    hide ReplaceGuard, ReissueIncident, Refiled, FiledBack, ReissuedIds;
    GuardsFindTheirTargets(s, env, c, r);
    if ReplaceGuard(s, env, c, r) == Ok {
      var n := s.graph.nodes[r.node];
      var bound := BoundNode(env, n, r);
      assert s.graph.nodes[r.node := bound][r.node] == bound;
      assert bound == n ==> s.graph.nodes[r.node := bound] == s.graph.nodes;
    }
  }

  // ---- Every step ---------------------------------------------------------------------------

  lemma DemotionStamped(g: Graph, ids: set<EdgeId>, demoted: Edges, persisted: bool)
    ensures var after := CommitDemotion(g, ids, demoted, persisted).0;
            && after == g.(edges := after.edges, lookups := after.lookups, generation := after.generation)
            && (after == g.(lookups := after.lookups)
                || (CanAdvance(g.generation) && after.generation == g.generation + 1))
  {
    hide Refiled, FiledBack;
  }

  ghost predicate Stamped(s: State, op: Op) {
    && Forward(s, Step(s, op))
    && (SameStamp(s, Step(s, op)) ==> (SameTopology(s, Step(s, op)) <==> !LeavesResidue(s, op)))
  }

  lemma MutationStep(s: State, op: Op)
    requires op.Mutation?
    ensures Stamped(s, op)
  {
    hide Mutate, DoMoveAttachment, DoReplaceEndpoint, DoAddRelationship, LeavesResidue;
    var Mutation(env, c, r, persisted) := op;
    MutateIs(s, env, c, r, persisted);
    if r.MoveAttachment? {
      MoveStamped(s, env, c, r, persisted);
    } else if r.AddRelationship? {
      AddRelationshipStamped(s, env, c, r, persisted);
    } else if r.ReplaceEndpoint? {
      ReplaceStamped(s, env, c, r, persisted);
    } else {
      MutationStamped(s, env, c, r, persisted);
      NoResidue(s, op);
    }
  }

  lemma MutateIs(s: State, env: Env, c: Context, r: Request, persisted: bool)
    ensures r.MoveAttachment? ==> Mutate(s, env, c, r, persisted) == DoMoveAttachment(s, env, c, r, persisted)
    ensures r.AddRelationship? ==> Mutate(s, env, c, r, persisted) == DoAddRelationship(s, env, c, r, persisted)
    ensures r.ReplaceEndpoint? ==> Mutate(s, env, c, r, persisted) == DoReplaceEndpoint(s, env, c, r, persisted)
  {
    hide DoMoveAttachment, DoReplaceEndpoint, DoAddRelationship;
  }

  lemma NoResidue(s: State, op: Op)
    requires op.Mutation? ==>
               !op.request.MoveAttachment? && !op.request.ReplaceEndpoint? && !op.request.AddRelationship?
    ensures !LeavesResidue(s, op)
  {
  }

  // ---- Publications --------------------------------------------------------------------------

  lemma PublicationStep(s: State, op: Op)
    requires op.Publication?
    ensures Stamped(s, op)
  {
    hide Reconciled, PublishGuard, ValidTopology;
    var Publication(env, c, p, nodes, edges, persisted) := op;
    ReconciledOnlyTopology(env, c, p, s.graph, nodes, edges);
  }

  // ---- Every step ----------------------------------------------------------------------------

  lemma FenceStep(s: State, op: Op)
    requires op.FencingPublisher? || op.FencingBoot?
    ensures Stamped(s, op)
  {
    hide Mutate, Publish, CommitDemotion, ParentWalk, DemotePublisher, DemoteBoot, Register, AdvanceEpoch, DefineDomain;
    if op.FencingPublisher? {
      DemotionStamped(s.graph, PublisherIds(s.graph.edges, op.publisher),
                      DemotePublisher(s.graph.edges, op.publisher), op.persisted);
    } else {
      DemotionStamped(s.graph, BootIds(s.graph.edges, op.boot), DemoteBoot(s.graph.edges, op.boot), op.persisted);
    }
  }

  lemma AuthorityStep(s: State, op: Op)
    requires !op.Mutation? && !op.Publication? && !op.FencingPublisher? && !op.FencingBoot?
    ensures Stamped(s, op)
  {
    hide Mutate, Publish, ParentWalk, DemotePublished, FencePublisher, FenceBoot, Refiled, FiledBack;
  }

  /** No step turns a counter back, and only the three failures that
      leave a residue change the topology under one stamp. */
  lemma StepStamped(s: State, op: Op)
    ensures Stamped(s, op)
  {
    hide Stamped;
    if op.Mutation? {
      MutationStep(s, op);
    } else if op.Publication? {
      PublicationStep(s, op);
    } else if op.FencingPublisher? || op.FencingBoot? {
      FenceStep(s, op);
    } else {
      AuthorityStep(s, op);
    }
  }

  lemma {:induction false} RunsGoForward(states: seq<State>, ops: seq<Op>, i: nat, j: nat)
    requires Run(states, ops) && i <= j < |states|
    ensures Forward(states[i], states[j])
  {
    hide Step, LeavesResidue;
    if i < j {
      RunsGoForward(states, ops, i, j - 1);
      StepStamped(states[j - 1], ops[j - 1]);
    }
  }

  ghost predicate NoResidueBetween(states: seq<State>, ops: seq<Op>, i: nat, j: nat)
    requires |states| == |ops| + 1 && i <= j < |states|
  {
    forall k :: i <= k < j ==> !LeavesResidue(states[k], ops[k])
  }

  /** Any two states of a run with equal generation and epoch have
      equal nodes and edges, whatever happened in between. */
  lemma {:induction false} StampDeterminesTopology(states: seq<State>, ops: seq<Op>, i: nat, j: nat)
    requires Run(states, ops) && i <= j < |states| && NoResidueBetween(states, ops, i, j)
    requires SameStamp(states[i], states[j])
    ensures SameTopology(states[i], states[j])
  {
    hide Step, LeavesResidue;
    if i < j {
      RunsGoForward(states, ops, i, j - 1);
      StepStamped(states[j - 1], ops[j - 1]);
      StampDeterminesTopology(states, ops, i, j - 1);
    }
  }

  /** A step that leaves a residue is exactly a step after which equal stamps no longer mean equal topology. */
  lemma ResidueBreaksStamp(s: State, op: Op)
    ensures LeavesResidue(s, op) <==> SameStamp(s, Step(s, op)) && !SameTopology(s, Step(s, op))
  {
    hide Mutate, Publish, Register, FencePublisher, FenceBoot, AdvanceEpoch, DefineDomain, DefineRule, LeavesResidue;
    StepStamped(s, op);
    if LeavesResidue(s, op) {
      ResidueKeepsStamp(s, op);
    }
  }

  lemma ResidueKeepsStamp(s: State, op: Op)
    requires LeavesResidue(s, op)
    ensures SameStamp(s, Step(s, op))
  {
    hide DoMoveAttachment, DoReplaceEndpoint, DoAddRelationship;
    var Mutation(env, c, r, persisted) := op;
    MutateIs(s, env, c, r, persisted);
    if r.MoveAttachment? {
      MoveStamped(s, env, c, r, persisted);
    } else if r.AddRelationship? {
      AddRelationshipStamped(s, env, c, r, persisted);
    } else {
      ReplaceStamped(s, env, c, r, persisted);
    }
  }

  // ---- Fenced boots and past epochs --------------------------------------------------------------

  ghost predicate Acts(op: Op) {
    op.Mutation? || op.Publication?
  }

  ghost predicate NeverGranted(s: State, c: Context) {
    forall d: DomainId, m: GrantMode :: CheckAuthority(s, c, d, m) != Granted
  }

  lemma UngrantedMutatesNothing(s: State, env: Env, c: Context, r: Request, persisted: bool)
    requires NeverGranted(s, c)
    ensures Mutate(s, env, c, r, persisted).state == s
  {
    hide CheckAuthority, MetadataOk, Finish, FinishEdge, FinishMove, Refresh, ApplyCandidate, ValidateCandidate,
         FailedMove, CurrentnessBlocked, ResolveScope, Normalize, WithoutIncident, Asked, Refiled, FiledBack;
  }

  /** A request without authority changes nothing. */
  lemma UngrantedStepStands(s: State, op: Op)
    requires Acts(op) && NeverGranted(s, op.context)
    ensures Step(s, op) == s
  {
    hide Mutate, Reconciled, WellFormed, CheckAuthority, ValidTopology;
    if op.Mutation? {
      UngrantedMutatesNothing(s, op.env, op.context, op.request, op.persisted);
    }
  }

  /** Once a boot is fenced, nothing it asks for ever changes the state again. */
  lemma FencedBootsNeverAct(states: seq<State>, ops: seq<Op>, i: nat, j: nat, boot: BootId)
    requires Run(states, ops) && i <= j < |ops|
    requires boot in states[i].fenced && Acts(ops[j]) && ops[j].context.boot == boot
    ensures states[j + 1] == states[j]
  {
    hide Step;
    RunsGoForward(states, ops, i, j);
    UngrantedStepStands(states[j], ops[j]);
  }

  /** Once the epoch has moved on, nothing asked in an earlier one ever changes the state again. */
  lemma PastEpochsNeverAct(states: seq<State>, ops: seq<Op>, i: nat, j: nat)
    requires Run(states, ops) && i <= j < |ops|
    requires Acts(ops[j]) && ops[j].context.epoch < states[i].epoch
    ensures states[j + 1] == states[j]
  {
    hide Step;
    RunsGoForward(states, ops, i, j);
    UngrantedStepStands(states[j], ops[j]);
  }
}
