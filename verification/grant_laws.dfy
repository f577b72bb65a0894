/** What a caller must hold before anything it asks for takes effect, scope by scope. */
module GrantLaws {
  import opened Types
  import opened Graphs
  import opened Authority
  import opened AuthorityLaws
  import opened Mutations
  import opened Reconcile

  /** The caller stands, and holds a writing grant for the scope. */
  ghost predicate MayWrite(s: State, c: Context, domain: DomainId) {
    Standing(s, c)
    && var grants := s.publishers[c.publisher].grants;
       ScopeGrant(domain, IncrementalWrite) in grants || ScopeGrant(domain, AuthoritativeWrite) in grants
  }

  /** The caller stands, and holds the authoritative grant for the scope. */
  ghost predicate MayReplace(s: State, c: Context, domain: DomainId) {
    Standing(s, c) && ScopeGrant(domain, AuthoritativeWrite) in s.publishers[c.publisher].grants
  }

  lemma GrantedMeans(s: State, c: Context, domain: DomainId)
    ensures CheckAuthority(s, c, domain, IncrementalWrite) == Granted <==> MayWrite(s, c, domain)
    ensures CheckAuthority(s, c, domain, AuthoritativeWrite) == Granted <==> MayReplace(s, c, domain)
  {
    hide CheckAuthority, Standing;
    GrantedExactly(s, c, domain, IncrementalWrite);
    GrantedExactly(s, c, domain, AuthoritativeWrite);
    forall m: GrantMode
      ensures Rank(m) >= Rank(IncrementalWrite) <==> m == IncrementalWrite || m == AuthoritativeWrite
      ensures Rank(m) >= Rank(AuthoritativeWrite) <==> m == AuthoritativeWrite
    {
    }
  }

  /** A caller without a name or a boot is malformed, one of another epoch is told so, a fenced boot or one that is not
      the registered one is stale, and among those that stand only the grant can be missing. */
  lemma DenialIsExplained(s: State, c: Context, domain: DomainId, required: GrantMode)
    ensures var o := AuthorityOutcome(CheckAuthority(s, c, domain, required));
            && (o == Ok <==> CheckAuthority(s, c, domain, required) == Granted)
            && (o == MalformedRequest <==> c.publisher == "" || c.boot == "")
            && (o == StaleCoordinatorEpoch <==> c.publisher != "" && c.boot != "" && c.epoch != s.epoch)
            && (o == StaleWorkerBoot <==>
                  && c.publisher != "" && c.boot != "" && c.epoch == s.epoch
                  && (|| c.boot in s.fenced
                      || (c.publisher in s.publishers && s.publishers[c.publisher].boot != c.boot)))
            && (o == UnauthorizedScope <==> Standing(s, c) && CheckAuthority(s, c, domain, required) != Granted)
            && o in {Ok, MalformedRequest, StaleCoordinatorEpoch, StaleWorkerBoot, StaleAuthority, UnauthorizedScope}
  {
    hide GrantFor, Rank;
  }

  // ---- Mutations --------------------------------------------------------------------------------

  /** Who may ask for this: writing where the entity is, at both ends of a new relationship, and the authoritative
      grant where a node is to be removed. */
  ghost predicate MayAsk(s: State, c: Context, r: Request) {
    var nodes, edges := s.graph.nodes, s.graph.edges;
    match r
    case AddNode(_, _, _, _, domain, _, _) => MayWrite(s, c, domain)
    case RemoveNode(n, _, _) => n in nodes && MayReplace(s, c, nodes[n].domain)
    case AddRelationship(_, _, _, from, to, _, _, _, _, _, _, _, _, _) =>
      from in nodes && to in nodes && MayWrite(s, c, nodes[from].domain) && MayWrite(s, c, nodes[to].domain)
    case UpdateEvidence(e, _, _, _, _, _, _) => e in edges && MayWrite(s, c, edges[e].domain)
    case Revalidate(e, _, _) => e in edges && MayWrite(s, c, edges[e].domain)
    case Supersede(e, _, _) => e in edges && MayWrite(s, c, edges[e].domain)
    case Retire(e, _) => e in edges && MayWrite(s, c, edges[e].domain)
    case MoveAttachment(e, _, _, _, _, _, _, _, _) => e in edges && MayWrite(s, c, edges[e].domain)
    case ReplaceEndpoint(n, _, _, _, _, _) => n in nodes && MayWrite(s, c, nodes[n].domain)
  }

  /** The scopes checked for a new relationship are those of its two ends. */
  lemma AddGuardNeedsBothEnds(s: State, env: Env, c: Context, r: Request)
    requires r.AddRelationship? && AddGuard(s, env, c, r) == Ok
    ensures MayAsk(s, c, r)
  {
    hide CheckAuthority, MetadataOk, ResolveScope, MayWrite, ResolveLayer, AuthorityOutcome;
    var g, k := s.graph, Asked(s.graph, env, r).value;
    var (from, to) := Normalize(r.relation, r.from, r.to);
    ScopeIsWhereEndpointsAre(g.rules, g.nodes[from].domain, g.nodes[to].domain, r.domain, r.relation, r.allowCross);
    assert {k.domain} + (if k.crossDomain then {k.secondary} else {}) == {g.nodes[from].domain, g.nodes[to].domain};
    assert {from, to} == {r.from, r.to};
    DenialIsExplained(s, c, k.domain, IncrementalWrite);
    DenialIsExplained(s, c, k.secondary, IncrementalWrite);
    GrantedMeans(s, c, k.domain);
    GrantedMeans(s, c, k.secondary);
  }

  lemma EntityScopeChecked(s: State, c: Context, domain: DomainId, required: GrantMode)
    requires required == IncrementalWrite || required == AuthoritativeWrite
    ensures CheckAuthority(s, c, domain, required) == Granted
            <==> if required == IncrementalWrite then MayWrite(s, c, domain) else MayReplace(s, c, domain)
    ensures CheckAuthority(s, c, domain, required) != Granted ==>
              AuthorityOutcome(CheckAuthority(s, c, domain, required)) != Ok
  {
    hide CheckAuthority, MayWrite, MayReplace;
    GrantedMeans(s, c, domain);
    DenialIsExplained(s, c, domain, required);
  }

  /** Nothing happens for a caller that may not ask for it: the request is refused and the state is as it was. */
  lemma MutationUnderGrant(s: State, env: Env, c: Context, r: Request, persisted: bool)
    requires !MayAsk(s, c, r)
    ensures var out := Mutate(s, env, c, r, persisted); out.verdict.Refused? && out.state == s
  {
    hide CheckAuthority, MayWrite, MayReplace, AuthorityOutcome, MetadataOk, AddGuard, ApplyCandidate,
         ValidateCandidate, Finish, FinishEdge, Refresh, FinishMove, FailedMove, CurrentnessBlocked, Asked;
    match r
    case AddNode(_, _, _, _, domain, _, _) => EntityScopeChecked(s, c, domain, IncrementalWrite);
    case RemoveNode(n, _, _) =>
      if n in s.graph.nodes {
        EntityScopeChecked(s, c, s.graph.nodes[n].domain, AuthoritativeWrite);
      }
    case AddRelationship(_, _, _, _, _, _, _, _, _, _, _, _, _, _) =>
      if AddGuard(s, env, c, r) == Ok {
        AddGuardNeedsBothEnds(s, env, c, r);
      }
    case UpdateEvidence(e, _, _, _, _, _, _) => EdgeScopeChecked(s, c, e);
    case Revalidate(e, _, _) => EdgeScopeChecked(s, c, e);
    case Supersede(e, _, _) => EdgeScopeChecked(s, c, e);
    case Retire(e, _) => EdgeScopeChecked(s, c, e);
    case MoveAttachment(e, _, _, _, _, _, _, _, _) => EdgeScopeChecked(s, c, e);
    case ReplaceEndpoint(n, _, _, _, _, _) =>
      if n in s.graph.nodes {
        EntityScopeChecked(s, c, s.graph.nodes[n].domain, IncrementalWrite);
      }
  }

  lemma EdgeScopeChecked(s: State, c: Context, e: EdgeId)
    ensures e in s.graph.edges && CheckAuthority(s, c, s.graph.edges[e].domain, IncrementalWrite) == Granted
            <==> e in s.graph.edges && MayWrite(s, c, s.graph.edges[e].domain)
    ensures e in s.graph.edges && CheckAuthority(s, c, s.graph.edges[e].domain, IncrementalWrite) != Granted ==>
              AuthorityOutcome(CheckAuthority(s, c, s.graph.edges[e].domain, IncrementalWrite)) != Ok
  {
    hide CheckAuthority, MayWrite, AuthorityOutcome;
    if e in s.graph.edges {
      EntityScopeChecked(s, c, s.graph.edges[e].domain, IncrementalWrite);
    }
  }

  // ---- Publications ------------------------------------------------------------------------------

  /** Who may publish: a writer of the scope, and for an authoritative snapshot one that may replace it. */
  ghost predicate MayPublish(s: State, c: Context, p: Header) {
    if p.mode == AuthoritativeSnapshot then MayReplace(s, c, p.domain) else MayWrite(s, c, p.domain)
  }

  /** A publication by a caller that may not make it is refused and leaves no trace; one that stands and only lacks the
      grant is told that the scope is not its own. What is not refused was published by a writer of the scope, and a
      snapshot by a holder of the authoritative grant. */
  lemma PublicationUnderGrant(s: State, env: Env, c: Context, p: Publication, nodes: seq<ObservedNode>,
                              edges: seq<ObservedEdge>, persisted: bool)
    ensures var out := Publish(s, env, c, p, nodes, edges, persisted);
            && (!MayPublish(s, c, p.head) ==> out.verdict.Refused? && out.state == s)
            && (!MayPublish(s, c, p.head) && Standing(s, c) && WellFormed(env, p)
                && p.head.domain in s.graph.domains ==>
                  out == Refuse(s, UnauthorizedScope))
            && (!out.verdict.Refused? ==>
                  && MayWrite(s, c, p.head.domain)
                  && (p.head.mode == AuthoritativeSnapshot ==>
                        ScopeGrant(p.head.domain, AuthoritativeWrite) in s.publishers[c.publisher].grants))
  {
    hide CheckAuthority, Standing, AuthorityOutcome, WellFormed, Reconciled, ValidTopology, Record;
    EntityScopeChecked(s, c, p.head.domain, IncrementalWrite);
    EntityScopeChecked(s, c, p.head.domain, AuthoritativeWrite);
    DenialIsExplained(s, c, p.head.domain, IncrementalWrite);
    DenialIsExplained(s, c, p.head.domain, AuthoritativeWrite);
  }
}
