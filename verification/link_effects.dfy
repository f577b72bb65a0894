/** What adding a relationship or moving an attachment achieves, exactly when it commits, and what asking again does. */
module LinkEffects {
  import opened Types
  import opened Paths
  import opened Graphs
  import opened Authority
  import opened GrantLaws
  import opened Mutations
  import opened MutationLaws
  import opened EffectLaws
  import opened NodeEffects

  // ---- What may be stored --------------------------------------------------------------------------------

  /** Whoever claims an attachment for itself claims it alone: no current edge with an attachment starts, as an
      attachment, at the same node, and none has the same attachment between other nodes. */
  ghost predicate ClaimsAlone(edges: Edges, k: Candidate) {
    k.exclusive && k.attachment.Some? ==>
      forall e :: e in edges && edges[e].id != k.id && edges[e].lifecycle == Current && edges[e].attachment.Some? ==>
        && !(edges[e].relation == AttachedTo && edges[e].from == k.from)
        && (edges[e].attachment == k.attachment ==> (edges[e].from, edges[e].to) == (k.from, k.to))
  }

  /** What a relationship rests on is another one, and a logical relationship rests on a physical one. */
  predicate RestsWell(edges: Edges, k: Candidate) {
    k.supportedBy.Some? ==>
      && k.supportedBy.value in edges && k.supportedBy.value != k.id
      && (k.layer == Logical ==> edges[k.supportedBy.value].layer == Physical)
  }

  /** Two different nodes in use, of classes the relation permits, on a layer it permits, resting well, alone where it
      claims to be, and, if it is new, closing no cycle where the relation forbids one. */
  ghost predicate Fits(g: Graph, k: Candidate, isNew: bool) {
    && k.relation != UnknownRelation && k.id != "" && k.relationship != ""
    && k.from in g.nodes && k.to in g.nodes && k.from != k.to
    && g.nodes[k.from].lifecycle !in {Lifecycle.Retired, Superseded}
    && g.nodes[k.to].lifecycle !in {Lifecycle.Retired, Superseded}
    && EndpointsPermitted(k.relation, g.nodes[k.from].nodeClass, g.nodes[k.to].nodeClass)
    && LayerPermitted(k.relation, k.layer) && RestsWell(g.edges, k) && ClaimsAlone(g.edges, k)
    && (isNew && MustStayAcyclic(k.relation) ==> !Reaches(LiveArcs(g.edges, k.relation), k.to, k.from))
  }

  lemma ValidExactlyWhenFits(g: Graph, k: Candidate, isNew: bool)
    ensures ValidateCandidate(g, k, isNew) == Ok <==> Fits(g, k, isNew)
  {
    hide EndpointsPermitted, LayerPermitted, LiveArcs, Reaches, MustStayAcyclic;
    assert AttachmentConflict(g.edges, k) <==> !ClaimsAlone(g.edges, k);
  }

  // ---- What a request for a relationship intends ------------------------------------------------------------

  /** A rule lets the relation lead from one scope to the other. */
  ghost predicate RuleFor(rules: seq<CrossDomainRule>, from: DomainId, to: DomainId, r: Relation) {
    exists rule :: rule in rules && rule.relation == r
      && ((rule.from, rule.to) == (from, to) || (rule.symmetric && (rule.to, rule.from) == (from, to)))
  }

  /** The relationship lies in the scope of its endpoints; across two of them only if the caller allows it, says in
      which it is kept, and a rule permits it. */
  ghost predicate Placed(rules: seq<CrossDomainRule>, from: DomainId, to: DomainId, r: Request, k: Candidate)
    requires r.AddRelationship?
  {
    && from != "" && to != ""
    && (from == to ==> r.domain in {"", from} && k.domain == from && !k.crossDomain && k.secondary == "")
    && (from != to ==>
          && r.allowCross && k.crossDomain && k.domain == r.domain && {k.domain, k.secondary} == {from, to}
          && RuleFor(rules, from, to, r.relation))
  }

  lemma PlacedExactly(rules: seq<CrossDomainRule>, from: DomainId, to: DomainId, r: Request, k: Candidate)
    requires r.AddRelationship?
    ensures var scope := ResolveScope(rules, from, to, r.domain, r.relation, r.allowCross);
            Placed(rules, from, to, r, k) <==>
            && !scope.NoScope? && k.domain == scope.domain && k.crossDomain == scope.Crossing?
            && k.secondary == if scope.Crossing? then scope.secondary else ""
  {
    assert RulePermits(rules, from, to, r.relation) <==> RuleFor(rules, from, to, r.relation);
  }

  /** The relationship a request describes: between its endpoints, the smaller first if it has no direction, under the
      identifier and the name it gives or else derived ones, and with everything else as it says. */
  ghost predicate Intends(g: Graph, env: Env, r: Request, k: Candidate)
    requires r.AddRelationship?
  {
    && r.from in g.nodes && r.to in g.nodes && k.relation == r.relation
    && (k.from, k.to) == (if Undirected(r.relation) && Less(r.to, r.from) then (r.to, r.from) else (r.from, r.to))
    && k.from in g.nodes && k.to in g.nodes && ResolveLayer(r.relation, r.layer) == Some(k.layer)
    && Placed(g.rules, g.nodes[k.from].domain, g.nodes[k.to].domain, r, k)
    && var key := EdgeKey(k.relation, k.from, k.to, k.domain);
       && k.id == (if r.edgeId.Some? then r.edgeId.value else env.edgeIdOf(key))
       && k.relationship == (if r.relationship == "" then env.relIdOf(key) else r.relationship)
       && k.evidence == r.evidence && k.supportedBy == r.supportedBy && k.attachment == r.attachment
       && k.exclusive == r.exclusive && k.metadata == r.metadata && k.sourceRelationship == ""
  }

  lemma AskedIsIntended(g: Graph, env: Env, r: Request, k: Candidate)
    requires r.AddRelationship?
    ensures Asked(g, env, r) == Some(k) <==> Intends(g, env, r, k)
  {
    hide ResolveScope, ResolveLayer, Placed, Less, Undirected;
    if r.from in g.nodes && r.to in g.nodes {
      var (from, to) := Normalize(r.relation, r.from, r.to);
      PlacedExactly(g.rules, g.nodes[from].domain, g.nodes[to].domain, r, k);
      assert MakeKey(r.relation, from, to, k.domain) == EdgeKey(r.relation, from, to, k.domain);
    }
  }

  /** The request itself is in order, and made by someone who may write at both of its ends. */
  ghost predicate AddMayHappen(s: State, env: Env, c: Context, r: Request, k: Candidate)
    requires r.AddRelationship?
  {
    && Intends(s.graph, env, r, k) && r.relation != UnknownRelation && r.from != "" && r.to != ""
    && MetadataOk(r.metadata, env.limits) && Fresh(r.expected, s.graph.generation)
    && MayWrite(s, c, s.graph.nodes[k.from].domain) && MayWrite(s, c, s.graph.nodes[k.to].domain)
  }

  lemma AddGuardExactly(s: State, env: Env, c: Context, r: Request, k: Candidate)
    requires r.AddRelationship? && Intends(s.graph, env, r, k)
    ensures AddGuard(s, env, c, r) == Ok <==> AddMayHappen(s, env, c, r, k)
    ensures Asked(s.graph, env, r) == Some(k)
  {
    hide CheckAuthority, MetadataOk, MayWrite, ResolveLayer, AuthorityOutcome, Asked, RuleFor;
    AskedIsIntended(s.graph, env, r, k);
    var g := s.graph;
    assert {k.domain} + (if k.crossDomain then {k.secondary} else {}) == {g.nodes[k.from].domain, g.nodes[k.to].domain};
    EntityScopeChecked(s, c, k.domain, IncrementalWrite);
    EntityScopeChecked(s, c, k.secondary, IncrementalWrite);
  }

  // ---- Adding a relationship ------------------------------------------------------------------------------------

  /** The edge is current and says what the candidate says, of the present incarnations of its endpoints. */
  predicate LinkSays(g: Graph, e: Edge, k: Candidate) {
    && e.layer == k.layer && e.evidence == k.evidence && e.metadata == k.metadata && e.supportedBy == k.supportedBy
    && e.attachment == k.attachment && e.lifecycle == Current && k.from in g.nodes && k.to in g.nodes
    && e.fromGeneration == g.nodes[k.from].entityGeneration && e.toGeneration == g.nodes[k.to].entityGeneration
  }

  /** Nothing is found, or this very edge. */
  predicate NoOther(found: Option<EdgeId>, id: EdgeId) {
    found.Some? ==> found.value == id
  }

  /** The identifier, the key and the name belong together or are free, as far as the lookups find them, and nothing
      dead is in the way. */
  ghost predicate IdentityFree(g: Graph, k: Candidate) {
    && k.id != "" && k.relationship != ""
    && var key := EdgeKey(k.relation, k.from, k.to, k.domain);
       && NoOther(FindKey(g, key), k.id) && NoOther(FindRelationship(g, k.relationship), k.id)
       && (k.id in g.edges ==> KeyOf(g.edges[k.id]) == key)
       && (FindKey(g, key) == Some(k.id) ==> Live(g.edges[k.id]))
  }

  /** The edge of the candidate's key, if it is found, already says all of it. */
  ghost predicate AlreadyLinked(g: Graph, k: Candidate) {
    FindKey(g, EdgeKey(k.relation, k.from, k.to, k.domain)) == Some(k.id) && LinkSays(g, g.edges[k.id], k)
  }

  /** An edge stands where the candidate says, as the candidate says, and nothing else has changed. */
  ghost predicate LinkStored(s: State, t: State, k: Candidate) {
    && Advanced(s, t) && t.graph.nodes == s.graph.nodes && t.graph.edges.Keys == s.graph.edges.Keys + {k.id}
    && (forall e :: e in s.graph.edges && e != k.id ==> t.graph.edges[e] == s.graph.edges[e])
    && var e := t.graph.edges[k.id];
       && LinkSays(s.graph, e, k) && e.id == k.id && e.relationship == k.relationship && e.relation == k.relation
       && e.from == k.from && e.to == k.to && e.domain == k.domain
       && e.validated == s.graph.generation && e.provenance.validated == s.graph.generation
       && e.provenance.evidence == k.evidence
  }

  /** A new edge is the caller's own. */
  ghost predicate LinkCreated(s: State, t: State, c: Context, k: Candidate) {
    LinkStored(s, t, k) && k.id !in s.graph.edges
    && var e := t.graph.edges[k.id];
       && e.crossDomain == k.crossDomain && e.secondary == (if k.crossDomain then k.secondary else k.domain)
       && e.generation == 1 && e.created == s.graph.generation && e.supersededBy == None
       && e.provenance.publisher == c.publisher && e.provenance.boot == c.boot && e.provenance.epoch == c.epoch
       && e.provenance.publication == c.publication && e.provenance.created == s.graph.generation
       && e.provenance.source == OperatorDeclaration && e.provenance.evidenceType == RealEvidence
       && e.provenance.sourceRelationship == k.sourceRelationship
  }

  /** An edge that was there is restated, and stays on the word of whoever vouched for it. */
  ghost predicate LinkRestated(s: State, t: State, k: Candidate) {
    LinkStored(s, t, k) && k.id in s.graph.edges
    && var before, e := s.graph.edges[k.id], t.graph.edges[k.id];
       && Live(before) && Stepped(before.generation, e.generation)
       && e.crossDomain == before.crossDomain && e.secondary == before.secondary
       && e.created == before.created && e.supersededBy == before.supersededBy
       && before.provenance
          == e.provenance.(evidence := before.provenance.evidence, validated := before.provenance.validated)
  }

  /** The edge is found by its key and by its name. */
  ghost predicate Found(g: Graph, k: Candidate) {
    && FindKey(g, EdgeKey(k.relation, k.from, k.to, k.domain)) == Some(k.id)
    && FindRelationship(g, k.relationship) == Some(k.id)
  }

  lemma FoundAfter(s: State, t: State, k: Candidate)
    requires LinkStored(s, t, k) && !Swapped(k.relation, k.from, k.to)
    requires t.graph.lookups == Enlist(s.graph.lookups, t.graph.edges[k.id])
             || (k.id in s.graph.edges
                 && t.graph.lookups == Relist(s.graph.lookups, s.graph.edges[k.id], t.graph.edges[k.id]))
    ensures Found(t.graph, k)
  {
    hide Swapped, Delist;
  }

  lemma CreatedFinished(s: State, c: Context, k: Candidate, persisted: bool)
    requires k.from in s.graph.nodes && k.to in s.graph.nodes && k.id !in s.graph.edges
    requires !Swapped(k.relation, k.from, k.to)
    ensures var out := FinishNewEdge(s, NewEdge(s.graph, c, k, RealEvidence, OperatorDeclaration), persisted);
            && (out.verdict == Committed <==> CanAdvance(s.graph.generation) && persisted) && out.verdict != Idempotent
            && (out.verdict == Committed ==> LinkCreated(s, out.state, c, k) && Found(out.state.graph, k))
  {
    hide Enlist, Delist, Found, Swapped;
    var out := FinishNewEdge(s, NewEdge(s.graph, c, k, RealEvidence, OperatorDeclaration), persisted);
    if out.verdict == Committed {
      FoundAfter(s, out.state, k);
    }
  }

  lemma RestatedFinished(s: State, k: Candidate, persisted: bool)
    requires k.from in s.graph.nodes && k.to in s.graph.nodes && k.id in s.graph.edges && Live(s.graph.edges[k.id])
    requires !Swapped(k.relation, k.from, k.to)
    requires var e := s.graph.edges[k.id];
             e.id == k.id && e.relation == k.relation && e.from == k.from && e.to == k.to && e.domain == k.domain
    ensures var out := FinishEdge(s, k.id, RestatedEdge(s.graph, s.graph.edges[k.id], k), persisted);
            && (out.verdict == Committed <==> CanAdvance(s.graph.generation) && persisted) && out.verdict != Idempotent
            && (out.verdict == Committed ==> LinkRestated(s, out.state, k) && Found(out.state.graph, k))
  {
    hide Relist, Found, Swapped;
    var out := FinishEdge(s, k.id, RestatedEdge(s.graph, s.graph.edges[k.id], k), persisted);
    if out.verdict == Committed {
      FoundAfter(s, out.state, k);
    }
  }

  /** Where keys agree and both are stored the same way round, so do the endpoints. */
  lemma SameEnds(g: Graph, k: Candidate)
    requires Shaped(g) && k.id in g.edges && !Swapped(k.relation, k.from, k.to)
    requires KeyOf(g.edges[k.id]) == EdgeKey(k.relation, k.from, k.to, k.domain)
    ensures var e := g.edges[k.id];
            e.id == k.id && e.relation == k.relation && e.from == k.from && e.to == k.to && e.domain == k.domain
  {
    hide Less, AcyclicWhereRequired, EntitiesUnique, EndpointsExist, NodesFiled, NodeScopesDeclared,
         EdgeScopesDeclared;
  }

  /** The edge already says it exactly when neither its statement nor its bindings differ. */
  lemma LinkSaysExactly(g: Graph, e: Edge, k: Candidate)
    requires k.from in g.nodes && k.to in g.nodes
    ensures LinkSays(g, e, k) <==> SameStatement(e, k) && EndpointsMatch(g, e, k.from, k.to)
  {
  }

  lemma ApplyTakesEffect(s: State, c: Context, k: Candidate, persisted: bool)
    requires Shaped(s.graph) && k.from in s.graph.nodes && k.to in s.graph.nodes && !Swapped(k.relation, k.from, k.to)
    ensures var out := ApplyCandidate(s, c, k, persisted);
            var isNew := FindKey(s.graph, EdgeKey(k.relation, k.from, k.to, k.domain)).None?;
            && (out.verdict == Idempotent <==> IdentityFree(s.graph, k) && AlreadyLinked(s.graph, k))
            && (out.verdict == Idempotent ==> out.state == s)
            && (out.verdict == Committed <==>
                  && IdentityFree(s.graph, k) && !AlreadyLinked(s.graph, k) && Fits(s.graph, k, isNew)
                  && (isNew ==> k.id !in s.graph.edges) && CanAdvance(s.graph.generation) && persisted)
            && (out.verdict == Committed ==>
                  && (if isNew then LinkCreated(s, out.state, c, k) else LinkRestated(s, out.state, k))
                  && Found(out.state.graph, k))
  {
    hide Shaped, ValidateCandidate, Fits, KeyOf, FinishEdge, FinishNewEdge, FailedFiling, RestatedEdge, NewEdge,
         LinkCreated, LinkRestated, FindKey, FindRelationship, Less, Undirected, Found, LinkSays, SameStatement,
         EndpointsMatch;
    var key := EdgeKey(k.relation, k.from, k.to, k.domain);
    assert MakeKey(k.relation, k.from, k.to, k.domain) == key;
    ValidExactlyWhenFits(s.graph, k, FindKey(s.graph, key).None?);
    FailedFilingRefuses(s, k.id);
    if k.id in s.graph.edges {
      LinkSaysExactly(s.graph, s.graph.edges[k.id], k);
    }
    if k.id !in s.graph.edges {
      CreatedFinished(s, c, k, persisted);
    } else if KeyOf(s.graph.edges[k.id]) == key && Live(s.graph.edges[k.id]) {
      SameEnds(s.graph, k);
      RestatedFinished(s, k, persisted);
    }
  }

  lemma FailedFilingRefuses(s: State, id: EdgeId)
    ensures id in s.graph.edges ==> FailedFiling(s, id).verdict.Refused?
  {
  }

  lemma IntendedOrientation(g: Graph, env: Env, r: Request, k: Candidate)
    requires r.AddRelationship? && Intends(g, env, r, k)
    ensures !Swapped(k.relation, k.from, k.to) && k.from in g.nodes && k.to in g.nodes
  {
    hide Less, Placed, ResolveLayer;
    LessTotal(r.from, r.to);
  }

  /** Adding a relationship commits exactly when the request may be made, its identity is free, what it says fits and is
      not already so, and the lookups do not hide an edge with its identifier; then it stands as intended. */
  lemma AddRelationshipTakesEffect(s: State, env: Env, c: Context, r: Request, k: Candidate, persisted: bool)
    requires r.AddRelationship? && Shaped(s.graph) && Intends(s.graph, env, r, k)
    ensures var out := Mutate(s, env, c, r, persisted);
            var isNew := FindKey(s.graph, EdgeKey(k.relation, k.from, k.to, k.domain)).None?;
            var may := AddMayHappen(s, env, c, r, k) && IdentityFree(s.graph, k);
            && (out.verdict == Idempotent <==> may && AlreadyLinked(s.graph, k))
            && (out.verdict == Idempotent ==> out.state == s)
            && (out.verdict == Committed <==>
                  && may && !AlreadyLinked(s.graph, k) && Fits(s.graph, k, isNew)
                  && (isNew ==> k.id !in s.graph.edges) && CanAdvance(s.graph.generation) && persisted)
            && (out.verdict == Committed ==>
                  && (if isNew then LinkCreated(s, out.state, c, k) else LinkRestated(s, out.state, k))
                  && Found(out.state.graph, k))
  {
    hide Shaped, AddGuard, ApplyCandidate, AddMayHappen, IdentityFree, AlreadyLinked, Fits, LinkCreated, LinkRestated,
         FindKey, FindRelationship, Intends, Asked, Found;
    AddGuardExactly(s, env, c, r, k);
    IntendedOrientation(s.graph, env, r, k);
    ApplyTakesEffect(s, c, k, persisted);
  }

  /** A request that intends no relationship, because an endpoint is missing or its layer or its scope cannot be
      settled, is refused and changes nothing. */
  lemma NothingIntended(s: State, env: Env, c: Context, r: Request, persisted: bool)
    requires r.AddRelationship? && forall k :: !Intends(s.graph, env, r, k)
    ensures Mutate(s, env, c, r, persisted).verdict.Refused? && Mutate(s, env, c, r, persisted).state == s
  {
    hide CheckAuthority, MetadataOk, Asked, Intends, ResolveLayer;
    if Asked(s.graph, env, r).Some? {
      AskedIsIntended(s.graph, env, r, Asked(s.graph, env, r).value);
    }
  }

  lemma KeyOfStored(e: Edge, k: Candidate)
    requires e.relation == k.relation && e.from == k.from && e.to == k.to && e.domain == k.domain
    requires !Swapped(k.relation, k.from, k.to)
    ensures KeyOf(e) == EdgeKey(k.relation, k.from, k.to, k.domain)
  {
  }

  /** What has been stored is there under its identity, and says it already. */
  lemma StoredIsLinked(s: State, t: State, k: Candidate)
    requires LinkStored(s, t, k) && Found(t.graph, k) && !Swapped(k.relation, k.from, k.to)
    requires k.id != "" && k.relationship != ""
    ensures IdentityFree(t.graph, k) && AlreadyLinked(t.graph, k)
  {
    hide FindKey, FindRelationship, Swapped;
    KeyOfStored(t.graph.edges[k.id], k);
  }

  lemma AddRelationshipAgain(s: State, env: Env, c: Context, r: Request, k: Candidate, persisted: bool, again: bool)
    requires r.AddRelationship? && Shaped(s.graph) && Intends(s.graph, env, r, k)
    requires Mutate(s, env, c, r, persisted).verdict == Committed
    ensures var t := Mutate(s, env, c, r, persisted).state;
            Mutate(t, env, c, Unconditional(r), again) == Result(t, Idempotent)
  {
    hide Mutate, Shaped, MetadataOk, MayWrite, Fits, FindKey, FindRelationship, Intends, AlreadyLinked, LinkSays, Found;
    AddRelationshipTakesEffect(s, env, c, r, k, persisted);
    MutationLawful(s, env, c, r, persisted);
    var t := Mutate(s, env, c, r, persisted).state;
    IntendedOrientation(s.graph, env, r, k);
    SameMayWrite(s, t, c, s.graph.nodes[k.from].domain);
    SameMayWrite(s, t, c, s.graph.nodes[k.to].domain);
    StoredIsLinked(s, t, k);
    IntendsUnconditionally(s, t, env, r, k);
    AddRelationshipTakesEffect(t, env, c, Unconditional(r), k, again);
  }

  lemma IntendsUnconditionally(s: State, t: State, env: Env, r: Request, k: Candidate)
    requires r.AddRelationship? && t.graph.nodes == s.graph.nodes && t.graph.rules == s.graph.rules
    ensures Intends(s.graph, env, r, k) <==> Intends(t.graph, env, Unconditional(r), k)
  {
    hide Less, ResolveLayer, RuleFor;
  }

  // ---- Moving an attachment ---------------------------------------------------------------------------------------

  /** What a move files: a physical attachment from where the moved one starts to the target, with the slot to
      itself. */
  ghost predicate MoveIntends(env: Env, r: Request, e: Edge, k: Candidate)
    requires r.MoveAttachment?
  {
    var key := MakeKey(AttachedTo, e.from, r.target, e.domain);
    && k.id == (if r.newEdge.Some? then r.newEdge.value else env.edgeIdOf(key)) && k.relationship == env.relIdOf(key)
    && k.relation == AttachedTo && k.from == e.from && k.to == r.target && k.layer == Physical
    && k.domain == e.domain && !k.crossDomain && k.secondary == "" && k.evidence == r.evidence && k.supportedBy == None
    && k.attachment == Some(r.slot) && k.exclusive && k.sourceRelationship == "" && k.metadata == r.metadata
  }

  /** The attachment is current and stays in its scope, and nothing else is found where it is to go. */
  ghost predicate MoveMayHappen(s: State, env: Env, c: Context, r: Request, k: Candidate)
    requires r.MoveAttachment?
  {
    && r.edge != "" && r.target != "" && r.slot != "" && MetadataOk(r.metadata, env.limits) && r.edge in s.graph.edges
    && var e := s.graph.edges[r.edge];
       && e.relation == AttachedTo && e.lifecycle == Current && MayWrite(s, c, e.domain)
       && Fresh(r.expected, s.graph.generation) && Fresh(r.expectedEdge, e.generation) && r.domain in {"", e.domain}
       && NoOther(FindKey(s.graph, MakeKey(AttachedTo, e.from, r.target, e.domain)), r.edge)
       && MoveIntends(env, r, e, k) && Fits(s.graph, k, true)
  }

  /** The moved attachment is superseded by a new one, which is the caller's own, and nothing else has changed. */
  ghost predicate MoveMade(s: State, t: State, c: Context, id: EdgeId, k: Candidate) {
    && Advanced(s, t) && t.graph.nodes == s.graph.nodes && t.graph.edges.Keys == s.graph.edges.Keys + {k.id}
    && id in s.graph.edges && k.id !in s.graph.edges
    && (forall e :: e in s.graph.edges && e != id ==> t.graph.edges[e] == s.graph.edges[e])
    && var before, after, e := s.graph.edges[id], t.graph.edges[id], t.graph.edges[k.id];
       && after.lifecycle == Superseded && after.supersededBy == Some(k.id)
       && Stepped(before.generation, after.generation)
       && before == after.(lifecycle := Current, supersededBy := before.supersededBy, generation := before.generation)
       && LinkSays(s.graph, e, k) && e.id == k.id && e.relationship == k.relationship && e.relation == AttachedTo
       && e.from == k.from && e.to == k.to && e.domain == k.domain && !e.crossDomain && e.secondary == k.domain
       && e.generation == 1 && e.created == e.validated == s.graph.generation && e.supersededBy == None
       && e.provenance == Provenance(c.publisher, c.boot, c.epoch, OperatorDeclaration, RealEvidence, k.evidence, "",
                                     c.publication, s.graph.generation, s.graph.generation)
  }

  lemma MoveGuardExactly(s: State, env: Env, c: Context, r: Request, k: Candidate)
    requires r.MoveAttachment? && r.edge in s.graph.edges && MoveIntends(env, r, s.graph.edges[r.edge], k)
    ensures k == MovedCandidate(env, r, s.graph.edges[r.edge])
    ensures MoveGuard(s, env, c, r) == Ok <==> MoveMayHappen(s, env, c, r, k)
  {
    hide CheckAuthority, MetadataOk, MayWrite, AuthorityOutcome, MakeKey, FindKey, ValidateCandidate, Fits;
    EntityScopeChecked(s, c, s.graph.edges[r.edge].domain, IncrementalWrite);
    ValidExactlyWhenFits(s.graph, k, true);
    FitsHasEnds(s.graph, k);
  }

  lemma FitsHasEnds(g: Graph, k: Candidate)
    ensures Fits(g, k, true) ==> k.from in g.nodes && k.to in g.nodes
  {
  }

  lemma MoveFinished(s: State, c: Context, id: EdgeId, k: Candidate, persisted: bool)
    requires id in s.graph.edges && k.id !in s.graph.edges && s.graph.edges[id].lifecycle == Current
    requires k.from in s.graph.nodes && k.to in s.graph.nodes && k.relation == AttachedTo && !k.crossDomain
    requires k.sourceRelationship == ""
    ensures var out := FinishMove(s, id, NewEdge(s.graph, c, k, RealEvidence, OperatorDeclaration), persisted);
            && (out.verdict == Committed <==> CanAdvance(s.graph.generation) && persisted) && out.verdict != Idempotent
            && (out.verdict == Committed ==> MoveMade(s, out.state, c, id, k))
  {
    hide Enlist, Relist, Delist;
  }

  /** A move commits exactly when it may happen and the identifier of the new attachment is free; then the moved one is
      superseded by it. What carries an attachment already never moves, and nothing moves twice. */
  lemma MoveTakesEffect(s: State, env: Env, c: Context, r: Request, k: Candidate, persisted: bool)
    requires r.MoveAttachment? && Shaped(s.graph)
    requires r.edge in s.graph.edges ==> MoveIntends(env, r, s.graph.edges[r.edge], k)
    ensures var out := Mutate(s, env, c, r, persisted);
            && out.verdict != Idempotent
            && (out.verdict == Committed <==>
                  && MoveMayHappen(s, env, c, r, k) && k.id !in s.graph.edges
                  && CanAdvance(s.graph.generation) && persisted)
            && (out.verdict == Committed ==>
                  MoveMade(s, out.state, c, r.edge, k) && s.graph.edges[r.edge].attachment == None)
  {
    hide Shaped, MoveGuard, MovedCandidate, MoveIntends, Fits, NewEdge, FinishMove, MoveMade, MayWrite, MetadataOk,
         MakeKey, FindKey;
    if r.edge in s.graph.edges {
      MoveGuardExactly(s, env, c, r, k);
      FitsHasEnds(s.graph, k);
      if MoveMayHappen(s, env, c, r, k) && k.id !in s.graph.edges {
        IntendedMove(env, r, s.graph.edges[r.edge], k);
        MoveFinished(s, c, r.edge, k, persisted);
        EdgeFacts(s.graph, r.edge);
        MovesFree(s.graph, r.edge, k);
      }
    } else {
      GuardsFindTheirTargets(s, env, c, r);
    }
  }

  lemma IntendedMove(env: Env, r: Request, e: Edge, k: Candidate)
    requires r.MoveAttachment? && MoveIntends(env, r, e, k)
    ensures k.relation == AttachedTo && !k.crossDomain && k.sourceRelationship == "" && k.from == e.from
    ensures k.exclusive && k.attachment.Some?
  {
  }

  /** The new attachment would have to share the node it starts at with the one that moves. */
  lemma MovesFree(g: Graph, id: EdgeId, k: Candidate)
    requires Fits(g, k, true) && k.exclusive && k.attachment.Some? && id in g.edges && g.edges[id].id == id != k.id
    requires g.edges[id].relation == AttachedTo && g.edges[id].lifecycle == Current && g.edges[id].from == k.from
    ensures g.edges[id].attachment == None
  {
    hide EndpointsPermitted, LayerPermitted, LiveArcs, Reaches;
  }

  lemma MoveAgain(s: State, env: Env, c: Context, r: Request, persisted: bool, again: bool)
    requires r.MoveAttachment? && Shaped(s.graph) && Mutate(s, env, c, r, persisted).verdict == Committed
    ensures var t := Mutate(s, env, c, r, persisted).state;
            Mutate(t, env, c, Unconditional(r), again) == Refuse(t, NeedsRevalidation)
  {
    hide Mutate, Shaped, MayWrite, MetadataOk, MakeKey, FindKey, Fits, MoveIntends, CheckAuthority, MovedCandidate;
    CommittedMoveFound(s, env, c, r, persisted);
    var e := s.graph.edges[r.edge];
    MovedIsIntended(env, r, e);
    MoveTakesEffect(s, env, c, r, MovedCandidate(env, r, e), persisted);
    var t := Mutate(s, env, c, r, persisted).state;
    SameAuthority(s, t, c, e.domain, IncrementalWrite);
    EntityScopeChecked(s, c, e.domain, IncrementalWrite);
    MovedAlready(t, env, c, Unconditional(r), again);
  }

  lemma CommittedMoveFound(s: State, env: Env, c: Context, r: Request, persisted: bool)
    requires r.MoveAttachment? && Mutate(s, env, c, r, persisted).verdict == Committed
    ensures r.edge in s.graph.edges
  {
    hide MoveGuard;
    GuardsFindTheirTargets(s, env, c, r);
  }

  lemma MovedIsIntended(env: Env, r: Request, e: Edge)
    requires r.MoveAttachment?
    ensures MoveIntends(env, r, e, MovedCandidate(env, r, e))
  {
    hide MakeKey;
  }

  lemma MovedAlready(t: State, env: Env, c: Context, r: Request, persisted: bool)
    requires r.MoveAttachment? && r.edge != "" && r.target != "" && r.slot != "" && MetadataOk(r.metadata, env.limits)
    requires r.edge in t.graph.edges && r.expected == 0 && r.expectedEdge == 0
    requires t.graph.edges[r.edge].relation == AttachedTo && t.graph.edges[r.edge].lifecycle == Superseded
    requires CheckAuthority(t, c, t.graph.edges[r.edge].domain, IncrementalWrite) == Granted
    ensures Mutate(t, env, c, r, persisted) == Refuse(t, NeedsRevalidation)
  {
    hide CheckAuthority, MetadataOk, MakeKey, FindKey, ValidateCandidate;
  }

  // ---- Every request ------------------------------------------------------------------------------------------------

  lemma CommittedIsIntended(s: State, env: Env, c: Context, r: Request, persisted: bool) returns (k: Candidate)
    requires r.AddRelationship? && Mutate(s, env, c, r, persisted).verdict == Committed
    ensures Intends(s.graph, env, r, k)
  {
    hide Mutate, Intends;
    if forall k :: !Intends(s.graph, env, r, k) {
      NothingIntended(s, env, c, r, persisted);
    }
    k :| Intends(s.graph, env, r, k);
  }

  /** What has been done once is not done twice: the same request, by a caller that names no generation, is Idempotent
      and changes nothing. A node that was removed is not found again, an attachment that was moved is not moved again,
      and only a replacement that names no incarnation is carried out every time. */
  lemma AskedAgain(s: State, env: Env, c: Context, r: Request, persisted: bool, again: bool)
    requires Shaped(s.graph) && Mutate(s, env, c, r, persisted).verdict == Committed
    ensures var t := Mutate(s, env, c, r, persisted).state;
            var out := Mutate(t, env, c, Unconditional(r), again);
            match r
            case RemoveNode(_, _, _) => out == Refuse(t, NotFound)
            case MoveAttachment(_, _, _, _, _, _, _, _, _) => out == Refuse(t, NeedsRevalidation)
            case ReplaceEndpoint(_, generation, _, rebind, _, _) =>
              if !rebind && generation != 0 then out == Result(t, Idempotent) else out.verdict != Idempotent
            case _ => out == Result(t, Idempotent)
  {
    hide Mutate, Shaped, Unconditional;
    match r
    case AddNode(_, _, _, _, _, _, _) => AddNodeAgain(s, env, c, r, persisted, again);
    case RemoveNode(_, _, _) => RemoveNodeTakesEffect(s, env, c, r, persisted, again);
    case AddRelationship(_, _, _, _, _, _, _, _, _, _, _, _, _, _) =>
      var k := CommittedIsIntended(s, env, c, r, persisted);
      AddRelationshipAgain(s, env, c, r, k, persisted, again);
    case UpdateEvidence(_, _, _, _, _, _, _) => UpdateEvidenceTakesEffect(s, env, c, r, persisted, again);
    case Revalidate(_, _, _) => RevalidateTakesEffect(s, env, c, r, persisted, again);
    case Supersede(_, _, _) => SupersedeTakesEffect(s, env, c, r, persisted, again);
    case Retire(_, _) => RetireTakesEffect(s, env, c, r, persisted, again);
    case MoveAttachment(_, _, _, _, _, _, _, _, _) => MoveAgain(s, env, c, r, persisted, again);
    case ReplaceEndpoint(_, _, _, _, _, _) => ReplaceAgain(s, env, c, r, persisted, again);
  }
}
