/** What a committed request about one relationship achieves, exactly when it commits, and what asking again does. */
module EffectLaws {
  import opened Types
  import opened Graphs
  import opened Authority
  import opened GrantLaws
  import opened Mutations

  // ---- What every commit does ---------------------------------------------------------------------

  /** The generation is one further, and beside nodes, edges and lookups nothing else has changed. */
  ghost predicate Advanced(s: State, t: State) {
    && CanAdvance(s.graph.generation) && t.graph.generation == s.graph.generation + 1
    && s == t.(graph := t.graph.(nodes := s.graph.nodes, edges := s.graph.edges, lookups := s.graph.lookups,
                                 generation := s.graph.generation))
  }

  /** The caller names no generation to build on, or the present one. */
  predicate Fresh(expected: Counter, actual: Counter) {
    expected in {0, actual}
  }

  /** The same request, by a caller that names no generation. */
  function Unconditional(r: Request): Request {
    match r
    case AddNode(id, entity, kind, tier, domain, _, metadata) => AddNode(id, entity, kind, tier, domain, 0, metadata)
    case RemoveNode(node, _, cascade) => RemoveNode(node, 0, cascade)
    case AddRelationship(id, name, relation, from, to, layer, domain, _, evidence, support, slot, alone, cross, m) =>
      AddRelationship(id, name, relation, from, to, layer, domain, 0, evidence, support, slot, alone, cross, m)
    case UpdateEvidence(edge, evidence, lifecycle, _, _, replace, metadata) =>
      UpdateEvidence(edge, evidence, lifecycle, 0, 0, replace, metadata)
    case Revalidate(edge, evidence, _) => Revalidate(edge, evidence, 0)
    case Supersede(edge, replacement, _) => Supersede(edge, replacement, 0)
    case Retire(edge, _) => Retire(edge, 0)
    case MoveAttachment(edge, target, domain, id, _, _, evidence, slot, metadata) =>
      MoveAttachment(edge, target, domain, id, 0, 0, evidence, slot, metadata)
    case ReplaceEndpoint(node, generation, successor, rebind, _, _) =>
      ReplaceEndpoint(node, generation, successor, rebind, 0, 0)
  }

  /** The same relationship under the same name, between the same incarnations of its endpoints. */
  predicate SameIdentity(before: Edge, after: Edge) {
    && after.id == before.id && after.relationship == before.relationship && after.relation == before.relation
    && after.from == before.from && after.to == before.to && after.layer == before.layer
    && after.domain == before.domain && after.crossDomain == before.crossDomain
    && after.secondary == before.secondary && after.created == before.created
    && after.fromGeneration == before.fromGeneration && after.toGeneration == before.toGeneration
    && after.supportedBy == before.supportedBy && after.attachment == before.attachment
  }

  /** Its own counter has moved by one, unless it cannot. */
  predicate Stepped(before: Counter, after: Counter) {
    after == if before == MAX64 then MAX64 else before + 1
  }

  /** Of the whole topology only this edge has changed, and not in its identity. */
  ghost predicate OnlyEdge(s: State, t: State, id: EdgeId) {
    && Advanced(s, t) && t.graph.nodes == s.graph.nodes && t.graph.edges.Keys == s.graph.edges.Keys
    && id in s.graph.edges && SameIdentity(s.graph.edges[id], t.graph.edges[id])
    && Stepped(s.graph.edges[id].generation, t.graph.edges[id].generation)
    && forall e :: e in s.graph.edges && e != id ==> t.graph.edges[e] == s.graph.edges[e]
  }

  lemma FinishedEdge(s: State, id: EdgeId, e: Edge, persisted: bool)
    requires id in s.graph.edges && SameIdentity(s.graph.edges[id], e)
    requires Stepped(s.graph.edges[id].generation, e.generation)
    ensures var out := FinishEdge(s, id, e, persisted);
            && (out.verdict == Committed <==> CanAdvance(s.graph.generation) && persisted)
            && out.verdict != Idempotent
            && (out.verdict == Committed ==> OnlyEdge(s, out.state, id) && out.state.graph.edges[id] == e)
  {
    hide Relist;
  }

  /** What a request asks for is checked against the authority of the state, which no commit changes. */
  lemma SameAuthority(s: State, t: State, c: Context, domain: DomainId, required: GrantMode)
    requires t.publishers == s.publishers && t.epoch == s.epoch && t.fenced == s.fenced
    ensures CheckAuthority(t, c, domain, required) == CheckAuthority(s, c, domain, required)
  {
    hide GrantFor;
  }

  // ---- Evidence --------------------------------------------------------------------------------------

  /** The node stands where the registry, if there is one, has it. */
  predicate UpToDate(env: Env, n: Node) {
    env.directory.Some? ==>
      && n.entity in env.directory.value
      && var record := env.directory.value[n.entity];
         !record.retired && !record.superseded && record.generation == n.entityGeneration
  }

  /** Both endpoints are there, up to date, and in the incarnations the edge is bound to. */
  predicate Rooted(env: Env, g: Graph, e: Edge) {
    && e.from in g.nodes && e.to in g.nodes
    && e.fromGeneration == g.nodes[e.from].entityGeneration && e.toGeneration == g.nodes[e.to].entityGeneration
    && UpToDate(env, g.nodes[e.from]) && UpToDate(env, g.nodes[e.to])
  }

  lemma RootedIsUnblocked(env: Env, g: Graph, e: Edge)
    ensures CurrentnessBlocked(g, env, e) == Ok <==> Rooted(env, g, e)
  {
  }

  /** A change of evidence that may be made, or has been made already. */
  ghost predicate EvidenceMayChange(s: State, env: Env, c: Context, id: EdgeId, lifecycle: Lifecycle,
                                    expected: Counter, expectedEdge: Counter) {
    && id in s.graph.edges && MayWrite(s, c, s.graph.edges[id].domain)
    && Fresh(expected, s.graph.generation) && Fresh(expectedEdge, s.graph.edges[id].generation)
    && s.graph.edges[id].lifecycle !in {Lifecycle.Retired, Superseded}
    && (lifecycle == Current ==> Rooted(env, s.graph, s.graph.edges[id]))
  }

  predicate AlreadySays(e: Edge, evidence: Counter, lifecycle: Lifecycle, metadata: Option<Metadata>) {
    e.evidence == evidence && e.lifecycle == lifecycle && (metadata.Some? ==> e.metadata == metadata.value)
  }

  /** The edge has the evidence, the lifecycle and, if it was to be replaced, the metadata that were asked for, and
      vouching for it is whoever made it current. */
  ghost predicate EvidenceChanged(s: State, t: State, c: Context, id: EdgeId, evidence: Counter, lifecycle: Lifecycle,
                                  metadata: Option<Metadata>) {
    OnlyEdge(s, t, id)
    && var before, after := s.graph.edges[id], t.graph.edges[id];
       var p := before.provenance;
       && AlreadySays(after, evidence, lifecycle, metadata)
       && (metadata.None? ==> after.metadata == before.metadata)
       && after.supersededBy == before.supersededBy && after.validated == s.graph.generation
       && after.provenance.evidence == evidence && after.provenance.validated == s.graph.generation
       && (lifecycle == Current ==>
             && after.provenance.publisher == c.publisher && after.provenance.boot == c.boot
             && after.provenance.epoch == c.epoch
             && p == after.provenance.(publisher := p.publisher, boot := p.boot, epoch := p.epoch,
                                       evidence := p.evidence, validated := p.validated))
       && (lifecycle != Current ==> p == after.provenance.(evidence := p.evidence, validated := p.validated))
  }

  lemma EvidenceExactly(s: State, env: Env, c: Context, id: EdgeId, evidence: Counter, lifecycle: Lifecycle,
                        expected: Counter, expectedEdge: Counter, metadata: Option<Metadata>, persisted: bool)
    ensures var out := ChangeEvidence(s, env, c, id, evidence, lifecycle, expected, expectedEdge, metadata, persisted);
            var may := EvidenceMayChange(s, env, c, id, lifecycle, expected, expectedEdge);
            && (out.verdict == Idempotent <==> may && AlreadySays(s.graph.edges[id], evidence, lifecycle, metadata))
            && (out.verdict == Idempotent ==> out.state == s)
            && (out.verdict == Committed <==>
                  && may && !AlreadySays(s.graph.edges[id], evidence, lifecycle, metadata)
                  && CanAdvance(s.graph.generation) && persisted)
            && (out.verdict == Committed ==> EvidenceChanged(s, out.state, c, id, evidence, lifecycle, metadata))
  {
    hide CheckAuthority, MayWrite, CurrentnessBlocked, Rooted, FinishEdge, AuthorityOutcome;
    if id in s.graph.edges {
      var e := s.graph.edges[id];
      EntityScopeChecked(s, c, e.domain, IncrementalWrite);
      RootedIsUnblocked(env, s.graph, e);
      FinishedEdge(s, id, WithEvidence(s.graph, c, e, evidence, lifecycle, metadata), persisted);
    }
  }

  /** What has been changed is Idempotent from then on, for a caller that names no generation. */
  lemma EvidenceAgain(s: State, t: State, env: Env, c: Context, id: EdgeId, evidence: Counter, lifecycle: Lifecycle,
                      expected: Counter, expectedEdge: Counter, metadata: Option<Metadata>, persisted: bool)
    requires EvidenceMayChange(s, env, c, id, lifecycle, expected, expectedEdge) && !Dead(lifecycle)
    requires EvidenceChanged(s, t, c, id, evidence, lifecycle, metadata)
    ensures ChangeEvidence(t, env, c, id, evidence, lifecycle, 0, 0, metadata, persisted) == Result(t, Idempotent)
  {
    hide ChangeEvidence;
    EvidenceExactly(t, env, c, id, evidence, lifecycle, 0, 0, metadata, persisted);
  }

  /** The metadata an evidence request asks for, if it asks for any. */
  function AskedMetadata(r: Request): Option<Metadata>
    requires r.UpdateEvidence?
  {
    if r.replaceMetadata then Some(r.metadata) else None
  }

  /** An update of evidence commits exactly when it may be made and is not already so; then the edge says what was
      asked and asking again changes nothing. */
  lemma UpdateEvidenceTakesEffect(s: State, env: Env, c: Context, r: Request, persisted: bool, again: bool)
    requires r.UpdateEvidence?
    ensures var out := Mutate(s, env, c, r, persisted);
            var may := MetadataOk(r.metadata, env.limits) && r.lifecycle !in {Lifecycle.Retired, Superseded}
                       && EvidenceMayChange(s, env, c, r.edge, r.lifecycle, r.expected, r.expectedEdge);
            && (out.verdict == Committed <==>
                  && may && !AlreadySays(s.graph.edges[r.edge], r.evidence, r.lifecycle, AskedMetadata(r))
                  && CanAdvance(s.graph.generation) && persisted)
            && (out.verdict == Idempotent <==>
                  may && AlreadySays(s.graph.edges[r.edge], r.evidence, r.lifecycle, AskedMetadata(r)))
            && (out.verdict == Idempotent ==> out.state == s)
            && (out.verdict == Committed ==>
                  && EvidenceChanged(s, out.state, c, r.edge, r.evidence, r.lifecycle, AskedMetadata(r))
                  && Mutate(out.state, env, c, Unconditional(r), again) == Result(out.state, Idempotent))
  {
    hide ChangeEvidence, EvidenceMayChange, EvidenceChanged, AlreadySays, MetadataOk;
    var metadata := AskedMetadata(r);
    EvidenceExactly(s, env, c, r.edge, r.evidence, r.lifecycle, r.expected, r.expectedEdge, metadata, persisted);
    var out := Mutate(s, env, c, r, persisted);
    if out.verdict == Committed {
      EvidenceAgain(s, out.state, env, c, r.edge, r.evidence, r.lifecycle, r.expected, r.expectedEdge, metadata, again);
    }
  }

  /** A revalidation commits exactly when the edge is alive, rooted and not already current on that evidence; then it
      is current, on the caller's word, and asking again changes nothing. */
  lemma RevalidateTakesEffect(s: State, env: Env, c: Context, r: Request, persisted: bool, again: bool)
    requires r.Revalidate?
    ensures var out := Mutate(s, env, c, r, persisted);
            var may := EvidenceMayChange(s, env, c, r.edge, Current, r.expected, 0);
            && (out.verdict == Committed <==>
                  && may && !AlreadySays(s.graph.edges[r.edge], r.evidence, Current, None)
                  && CanAdvance(s.graph.generation) && persisted)
            && (out.verdict == Idempotent <==> may && AlreadySays(s.graph.edges[r.edge], r.evidence, Current, None))
            && (out.verdict == Idempotent ==> out.state == s)
            && (out.verdict == Committed ==>
                  && EvidenceChanged(s, out.state, c, r.edge, r.evidence, Current, None)
                  && Mutate(out.state, env, c, Unconditional(r), again) == Result(out.state, Idempotent))
  {
    hide ChangeEvidence, EvidenceMayChange, EvidenceChanged, AlreadySays;
    EvidenceExactly(s, env, c, r.edge, r.evidence, Current, r.expected, 0, None, persisted);
    var out := Mutate(s, env, c, r, persisted);
    if out.verdict == Committed {
      EvidenceAgain(s, out.state, env, c, r.edge, r.evidence, Current, r.expected, 0, None, again);
    }
  }

  /** Whatever has lapsed can come back: as long as the edge is rooted, a writer of its scope that revalidates it makes
      it current again, on its own word. */
  lemma LapsedComesBack(s: State, env: Env, c: Context, id: EdgeId, evidence: Counter)
    requires id in s.graph.edges && s.graph.edges[id].lifecycle == RevalidationRequired
    requires MayWrite(s, c, s.graph.edges[id].domain) && Rooted(env, s.graph, s.graph.edges[id])
    requires CanAdvance(s.graph.generation)
    ensures var out := Mutate(s, env, c, Revalidate(id, evidence, 0), true);
            && out.verdict == Committed && OnlyEdge(s, out.state, id)
            && out.state.graph.edges[id].lifecycle == Current && out.state.graph.edges[id].evidence == evidence
            && out.state.graph.edges[id].provenance.publisher == c.publisher
            && out.state.graph.edges[id].provenance.boot == c.boot
  {
    hide Mutate, MayWrite, Rooted;
    RevalidateTakesEffect(s, env, c, Revalidate(id, evidence, 0), true, true);
  }

  // ---- Supersede and retire ----------------------------------------------------------------------------

  /** The edge is dead in the given way, and says otherwise what it said. */
  ghost predicate PutToRest(s: State, t: State, id: EdgeId, lifecycle: Lifecycle, replacement: Option<EdgeId>) {
    OnlyEdge(s, t, id)
    && var before, after := s.graph.edges[id], t.graph.edges[id];
       && after.lifecycle == lifecycle && after.supersededBy == replacement
       && after.evidence == before.evidence && after.metadata == before.metadata
       && after.provenance == before.provenance && after.validated == before.validated
  }

  ghost predicate SupersedeMayHappen(s: State, c: Context, r: Request)
    requires r.Supersede?
  {
    && r.edge != "" && r.edge in s.graph.edges && MayWrite(s, c, s.graph.edges[r.edge].domain)
    && Fresh(r.expected, s.graph.generation)
  }

  predicate AlreadySuperseded(e: Edge, replacement: Option<EdgeId>) {
    e.lifecycle == Superseded && e.supersededBy == replacement
  }

  /** Nothing is superseded by itself, by what is not there, or by what is not current. */
  predicate CanReplace(edges: Edges, id: EdgeId, replacement: Option<EdgeId>) {
    replacement.Some? ==>
      replacement.value != id && replacement.value in edges && edges[replacement.value].lifecycle == Current
  }

  /** A supersession commits exactly when the edge is not retired nor already so superseded and the replacement can
      take its place; then the edge is superseded by it, and asking again changes nothing. */
  lemma SupersedeTakesEffect(s: State, env: Env, c: Context, r: Request, persisted: bool, again: bool)
    requires r.Supersede?
    ensures var out := Mutate(s, env, c, r, persisted);
            var may := SupersedeMayHappen(s, c, r);
            && (out.verdict == Committed <==>
                  && may && !AlreadySuperseded(s.graph.edges[r.edge], r.replacement)
                  && s.graph.edges[r.edge].lifecycle != Lifecycle.Retired
                  && CanReplace(s.graph.edges, r.edge, r.replacement) && CanAdvance(s.graph.generation) && persisted)
            && (out.verdict == Idempotent <==> may && AlreadySuperseded(s.graph.edges[r.edge], r.replacement))
            && (out.verdict == Idempotent ==> out.state == s)
            && (out.verdict == Committed ==>
                  && PutToRest(s, out.state, r.edge, Superseded, r.replacement)
                  && Mutate(out.state, env, c, Unconditional(r), again) == Result(out.state, Idempotent))
  {
    hide CheckAuthority, MayWrite, FinishEdge, AuthorityOutcome, OnlyEdge;
    if r.edge in s.graph.edges {
      var e := s.graph.edges[r.edge];
      EntityScopeChecked(s, c, e.domain, IncrementalWrite);
      FinishedEdge(s, r.edge, SupersededEdge(e, r.replacement), persisted);
      var out := Mutate(s, env, c, r, persisted);
      if out.verdict == Committed {
        OnlyEdgeKeepsAuthority(s, out.state, r.edge, c);
      }
    }
  }

  lemma OnlyEdgeKeepsAuthority(s: State, t: State, id: EdgeId, c: Context)
    requires OnlyEdge(s, t, id)
    ensures id in s.graph.edges && id in t.graph.edges && t.graph.edges[id].domain == s.graph.edges[id].domain
    ensures CheckAuthority(t, c, t.graph.edges[id].domain, IncrementalWrite)
            == CheckAuthority(s, c, s.graph.edges[id].domain, IncrementalWrite)
  {
    hide CheckAuthority;
    SameAuthority(s, t, c, s.graph.edges[id].domain, IncrementalWrite);
  }

  ghost predicate RetireMayHappen(s: State, c: Context, r: Request)
    requires r.Retire?
  {
    && r.edge != "" && r.edge in s.graph.edges && MayWrite(s, c, s.graph.edges[r.edge].domain)
    && Fresh(r.expected, s.graph.generation)
  }

  /** A retirement commits exactly when the edge is not retired yet; then it is, and asking again changes nothing. */
  lemma RetireTakesEffect(s: State, env: Env, c: Context, r: Request, persisted: bool, again: bool)
    requires r.Retire?
    ensures var out := Mutate(s, env, c, r, persisted);
            var may := RetireMayHappen(s, c, r);
            && (out.verdict == Committed <==>
                  && may && s.graph.edges[r.edge].lifecycle != Lifecycle.Retired
                  && CanAdvance(s.graph.generation) && persisted)
            && (out.verdict == Idempotent <==> may && s.graph.edges[r.edge].lifecycle == Lifecycle.Retired)
            && (out.verdict == Idempotent ==> out.state == s)
            && (out.verdict == Committed ==>
                  && PutToRest(s, out.state, r.edge, Lifecycle.Retired, s.graph.edges[r.edge].supersededBy)
                  && Mutate(out.state, env, c, Unconditional(r), again) == Result(out.state, Idempotent))
  {
    hide CheckAuthority, MayWrite, FinishEdge, AuthorityOutcome, OnlyEdge;
    if r.edge in s.graph.edges {
      var e := s.graph.edges[r.edge];
      EntityScopeChecked(s, c, e.domain, IncrementalWrite);
      FinishedEdge(s, r.edge, RetiredEdge(e), persisted);
      var out := Mutate(s, env, c, r, persisted);
      if out.verdict == Committed {
        OnlyEdgeKeepsAuthority(s, out.state, r.edge, c);
      }
    }
  }
}
