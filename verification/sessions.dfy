/** Coordinator sessions: what a publisher is delegated, and what the end of one incarnation means for the next. */
module Sessions {
  import opened Types
  import opened Authority
  import opened Mutations
  import opened Reconcile
  import opened Runs
  import opened StampLaws

  /** The scopes a coordinator defines and the most it lets anyone do in each. */
  datatype Policy = Policy(domains: seq<DomainId>, grants: seq<ScopeGrant>)

  /** The strongest mode the policy allows; nothing at all in a scope it does not define. */
  function Delegable(policy: Policy, domain: DomainId): GrantMode {
    if domain in policy.domains then GrantFor(policy.grants, domain) else NoGrant
  }

  method DelegatedMode(policy: Policy, domain: DomainId) returns (best: GrantMode)
    ensures best == Delegable(policy, domain)
  {
    best := NoGrant;
    var defined := false;
    for i := 0 to |policy.domains|
      invariant !defined && domain !in policy.domains[..i]
    {
      if policy.domains[i] == domain {
        defined := true;
        break;
      }
    }
    if !defined {
      return;
    }
    for i := 0 to |policy.grants|
      invariant best == GrantFor(policy.grants[..i], domain)
    {
      assert policy.grants[..i + 1][..i] == policy.grants[..i];
      if policy.grants[i].domain == domain && Rank(policy.grants[i].mode) > Rank(best) {
        best := policy.grants[i].mode;
      }
    }
    assert policy.grants[..|policy.grants|] == policy.grants;
  }

  function Weaker(a: GrantMode, b: GrantMode): GrantMode {
    if Rank(a) < Rank(b) then a else b
  }

  /** What a session is registered with: each request cut down to the policy, and dropped when nothing is left. */
  function Delegated(policy: Policy, requested: seq<ScopeGrant>): seq<ScopeGrant> {
    if requested == [] then []
    else
      var last := requested[|requested| - 1];
      var mode := Weaker(last.mode, Delegable(policy, last.domain));
      Delegated(policy, requested[..|requested| - 1]) + if mode == NoGrant then [] else [ScopeGrant(last.domain, mode)]
  }

  method Delegate(policy: Policy, requested: seq<ScopeGrant>) returns (grants: seq<ScopeGrant>)
    ensures grants == Delegated(policy, requested)
  {
    grants := [];
    for i := 0 to |requested|
      invariant grants == Delegated(policy, requested[..i])
    {
      assert requested[..i + 1][..i] == requested[..i];
      var limit := DelegatedMode(policy, requested[i].domain);
      var mode := if Rank(requested[i].mode) < Rank(limit) then requested[i].mode else limit;
      if mode != NoGrant {
        grants := grants + [ScopeGrant(requested[i].domain, mode)];
      }
    }
    assert requested[..|requested|] == requested;
  }

  lemma GrantForAppended(grants: seq<ScopeGrant>, g: ScopeGrant, domain: DomainId)
    ensures GrantFor(grants + [g], domain)
            == if g.domain == domain && Rank(g.mode) > Rank(GrantFor(grants, domain))
                then g.mode else GrantFor(grants, domain)
  {
    assert (grants + [g])[..|grants|] == grants;
  }

  lemma NoGrants(domain: DomainId)
    ensures GrantFor([], domain) == NoGrant
  {
  }

  lemma NothingIsWeakest(a: GrantMode, b: GrantMode)
    ensures Weaker(a, b) == NoGrant <==> a == NoGrant || b == NoGrant
  {
  }

  /** Delegation grants, in every scope, exactly the weaker of what was asked for and what the policy allows. */
  lemma {:induction false} DelegationIsExact(policy: Policy, requested: seq<ScopeGrant>, domain: DomainId)
    ensures GrantFor(Delegated(policy, requested), domain)
            == Weaker(GrantFor(requested, domain), Delegable(policy, domain))
  {
    hide Delegable, GrantFor;
    if requested == [] {
      NoGrants(domain);
    } else {
      var n := |requested| - 1;
      DelegationIsExact(policy, requested[..n], domain);
      var last := requested[n];
      var mode := Weaker(last.mode, Delegable(policy, last.domain));
      NothingIsWeakest(last.mode, Delegable(policy, last.domain));
      if mode != NoGrant {
        GrantForAppended(Delegated(policy, requested[..n]), ScopeGrant(last.domain, mode), domain);
      } else {
        assert Delegated(policy, requested) == Delegated(policy, requested[..n]);
      }
      assert requested == requested[..n] + [last];
      GrantForAppended(requested[..n], last, domain);
    }
  }

  // ---- No session ever holds more than the policy ---------------------------------------------

  ghost predicate WithinPolicy(policy: Policy, s: State) {
    forall p, domain :: p in s.publishers ==>
      Rank(GrantFor(s.publishers[p].grants, domain)) <= Rank(Delegable(policy, domain))
  }

  /** Registrations come only from sessions, with delegated grants. */
  ghost predicate FromSessions(policy: Policy, ops: seq<Op>) {
    forall i :: 0 <= i < |ops| && ops[i].Registering? ==>
      exists requested :: ops[i].registration.grants == Delegated(policy, requested)
  }

  lemma StepKeepsPublishers(s: State, op: Op)
    requires op.Mutation? || op.Publication?
    ensures Step(s, op).publishers == s.publishers && Step(s, op).epoch == s.epoch && Step(s, op).fenced == s.fenced
  {
    hide Mutate, Reconciled, PublishGuard, ValidTopology;
    if op.Mutation? {
      MutationKeepsAuthority(s, op.env, op.context, op.request, op.persisted);
    }
  }

  lemma MutationKeepsAuthority(s: State, env: Env, c: Context, r: Request, persisted: bool)
    ensures Mutate(s, env, c, r, persisted).state == s.(graph := Mutate(s, env, c, r, persisted).state.graph)
  {
    hide Mutate, DoMoveAttachment, DoReplaceEndpoint, DoAddRelationship;
    MutateIs(s, env, c, r, persisted);
    if r.MoveAttachment? {
      MoveStamped(s, env, c, r, persisted);
    } else if r.AddRelationship? {
      AddRelationshipStamped(s, env, c, r, persisted);
    } else if r.ReplaceEndpoint? {
      ReplaceStamped(s, env, c, r, persisted);
    } else {
      MutationStamped(s, env, c, r, persisted);
    }
  }

  lemma StepWithinPolicy(policy: Policy, s: State, op: Op)
    requires WithinPolicy(policy, s)
    requires op.Registering? ==> exists requested :: op.registration.grants == Delegated(policy, requested)
    ensures WithinPolicy(policy, Step(s, op))
  {
    hide Mutate, Publish, GrantFor, Delegated, Delegable, CommitDemotion, ParentWalk, DemotePublished;
    if op.Mutation? || op.Publication? {
      StepKeepsPublishers(s, op);
    } else if op.Registering? {
      var requested :| op.registration.grants == Delegated(policy, requested);
      forall domain
        ensures Rank(GrantFor(op.registration.grants, domain)) <= Rank(Delegable(policy, domain))
      {
        DelegationIsExact(policy, requested, domain);
      }
    }
  }

  lemma {:induction false} RunsStayWithinPolicy(policy: Policy, states: seq<State>, ops: seq<Op>, i: nat)
    requires Run(states, ops) && FromSessions(policy, ops) && WithinPolicy(policy, states[0]) && i < |states|
    ensures WithinPolicy(policy, states[i])
  {
    hide Step, WithinPolicy, Delegated;
    if i > 0 {
      RunsStayWithinPolicy(policy, states, ops, i - 1);
      StepWithinPolicy(policy, states[i - 1], ops[i - 1]);
    }
  }

  /** The policy allows something in a scope only if it defines the scope and grants it. */
  lemma DelegableIsGranted(policy: Policy, domain: DomainId, required: GrantMode)
    ensures Rank(required) <= Rank(Delegable(policy, domain)) && required != NoGrant ==>
              domain in policy.domains
              && exists m :: ScopeGrant(domain, m) in policy.grants && Rank(m) >= Rank(required)
  {
  }

  /** In every reachable state, what a session is allowed to do is within the policy: in a scope the policy defines, by
      a grant of the policy that is as strong. */
  lemma AuthorityWithinPolicy(policy: Policy, states: seq<State>, ops: seq<Op>, i: nat, c: Context, domain: DomainId,
                              required: GrantMode)
    requires Run(states, ops) && FromSessions(policy, ops) && WithinPolicy(policy, states[0]) && i < |states|
    requires CheckAuthority(states[i], c, domain, required) == Granted
    ensures Rank(required) <= Rank(Delegable(policy, domain))
    ensures required != NoGrant ==>
              domain in policy.domains
              && exists m :: ScopeGrant(domain, m) in policy.grants && Rank(m) >= Rank(required)
  {
    hide Step, Delegated, Delegable, GrantFor;
    RunsStayWithinPolicy(policy, states, ops, i);
    DelegableIsGranted(policy, domain, required);
  }

  // ---- Ending an older incarnation --------------------------------------------------------------

  /** Steps that are aimed at this very incarnation: fencing its boot, registering its
      publisher or a holder of its boot anew, or starting another epoch. */
  ghost predicate Unseats(s: State, op: Op, publisher: PublisherId, boot: BootId) {
    match op
    case Registering(r) =>
      r.publisher == publisher || (r.publisher in s.publishers && s.publishers[r.publisher].boot == boot)
    case FencingPublisher(_, b, _) => b == boot
    case FencingBoot(b, _) => b == boot
    case AdvancingEpoch(_) => true
    case _ => false
  }

  /** How the authority check sees one incarnation. */
  ghost predicate SameStanding(s: State, t: State, publisher: PublisherId, boot: BootId) {
    && s.epoch == t.epoch && (boot in s.fenced <==> boot in t.fenced)
    && (publisher in s.publishers <==> publisher in t.publishers)
    && (publisher in s.publishers && s.publishers[publisher].boot == boot ==>
        t.publishers[publisher] == s.publishers[publisher])
  }

  lemma StepKeepsStanding(s: State, op: Op, publisher: PublisherId, boot: BootId)
    requires !Unseats(s, op, publisher, boot)
    ensures SameStanding(s, Step(s, op), publisher, boot)
  {
    hide Mutate, Publish, CommitDemotion, ParentWalk, GrantFor;
    if op.Mutation? || op.Publication? {
      StepKeepsPublishers(s, op);
    }
  }

  /** Whatever else happens, including the end of every other incarnation's session, this one keeps its authority. */
  lemma {:induction false} IncarnationKeepsAuthority(states: seq<State>, ops: seq<Op>, i: nat, j: nat, c: Context,
                                                     domain: DomainId, required: GrantMode)
    requires Run(states, ops) && i <= j < |states|
    requires forall k :: i <= k < j ==> !Unseats(states[k], ops[k], c.publisher, c.boot)
    requires c.publisher in states[i].publishers && states[i].publishers[c.publisher].boot == c.boot
    ensures CheckAuthority(states[j], c, domain, required) == CheckAuthority(states[i], c, domain, required)
    ensures c.publisher in states[j].publishers && states[j].publishers[c.publisher].boot == c.boot
  {
    hide Step, Unseats, GrantFor;
    if i < j {
      IncarnationKeepsAuthority(states, ops, i, j - 1, c, domain, required);
      StepKeepsStanding(states[j - 1], ops[j - 1], c.publisher, c.boot);
    }
  }

  /** The two steps that end a session, with anything harmless to the newer incarnation in between. */
  lemma EndingOlderSessionSparesNewer(states: seq<State>, ops: seq<Op>, older: BootId, c: Context, domain: DomainId,
                                      required: GrantMode)
    requires Run(states, ops) && |ops| >= 2 && older != c.boot
    requires ops[0].FencingBoot? && ops[0].boot == older
    requires ops[|ops| - 1].FencingPublisher? && ops[|ops| - 1].publisher == c.publisher && ops[|ops| - 1].boot == older
    requires forall k :: 0 < k < |ops| - 1 ==> !Unseats(states[k], ops[k], c.publisher, c.boot)
    requires CheckAuthority(states[0], c, domain, required) == Granted
    ensures CheckAuthority(states[|ops|], c, domain, required) == Granted
    ensures older == "" || older in states[|ops|].fenced
  {
    hide Step, GrantFor;
    assert forall k :: 0 <= k < |ops| ==> !Unseats(states[k], ops[k], c.publisher, c.boot);
    IncarnationKeepsAuthority(states, ops, 0, |ops|, c, domain, required);
    FencingBootFences(states[0], ops[0]);
    RunsGoForward(states, ops, 1, |ops|);
  }

  lemma FencingBootFences(s: State, op: Op)
    requires op.FencingBoot?
    ensures op.boot == "" || op.boot in Step(s, op).fenced
  {
    hide CommitDemotion;
  }
}
