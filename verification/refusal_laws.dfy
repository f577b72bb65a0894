/** What a caller who may ask is told when a request is refused: the reason, request by request. */
module RefusalLaws {
  import opened Types
  import opened Graphs
  import opened Authority
  import opened GrantLaws
  import opened Mutations
  import opened EffectLaws
  import opened NodeEffects
  import opened LinkEffects

  /** A refusal that leaves the state as it was. */
  predicate ToldOnly(s: State, out: Result, o: Outcome) {
    out == Refuse(s, o)
  }

  /** Whoever may ask, and asks for something that could be stored, is told when the generation is exhausted or the
      write has failed; nodes and edges are then as they were. */
  predicate NotStored(s: State, out: Result, persisted: bool) {
    && out.verdict == Refused(if CanAdvance(s.graph.generation) then PersistenceIoFailure else ResourceLimit)
    && out.state == s.(graph := s.graph.(lookups := out.state.graph.lookups))
    && (CanAdvance(s.graph.generation) ==> !persisted)
  }

  lemma WriterPasses(s: State, c: Context, domain: DomainId)
    ensures MayWrite(s, c, domain) <==> CheckAuthority(s, c, domain, IncrementalWrite) == Granted
    ensures MayReplace(s, c, domain) <==> CheckAuthority(s, c, domain, AuthoritativeWrite) == Granted
  {
    hide CheckAuthority, MayWrite, MayReplace;
    GrantedMeans(s, c, domain);
  }

  lemma EdgeNotStored(s: State, id: EdgeId, e: Edge, persisted: bool)
    requires id in s.graph.edges && !(CanAdvance(s.graph.generation) && persisted)
    ensures NotStored(s, FinishEdge(s, id, e, persisted), persisted)
  {
    hide Relist;
  }

  // ---- One relationship ---------------------------------------------------------------------------------

  /** A writer that changes evidence is told that the edge is not there, that it builds on another generation, that the
      edge is retired or superseded, or that its endpoints have moved on; in this order. */
  lemma EvidenceRefusals(s: State, env: Env, c: Context, id: EdgeId, evidence: Counter, lifecycle: Lifecycle,
                         expected: Counter, expectedEdge: Counter, metadata: Option<Metadata>, persisted: bool)
    ensures var out := ChangeEvidence(s, env, c, id, evidence, lifecycle, expected, expectedEdge, metadata, persisted);
            && (id !in s.graph.edges ==> ToldOnly(s, out, NotFound))
            && (id in s.graph.edges && MayWrite(s, c, s.graph.edges[id].domain) ==>
                  var e := s.graph.edges[id];
                  var timely := Fresh(expected, s.graph.generation) && Fresh(expectedEdge, e.generation);
                  && (!timely ==> ToldOnly(s, out, StaleGeneration))
                  && (timely && e.lifecycle == Lifecycle.Retired ==> ToldOnly(s, out, EntityRetired))
                  && (timely && e.lifecycle == Superseded ==> ToldOnly(s, out, EntitySuperseded))
                  && (timely && Live(e) && lifecycle == Current && !Rooted(env, s.graph, e) ==>
                        ToldOnly(s, out, if e.from in s.graph.nodes && e.to in s.graph.nodes then StaleEntityGeneration
                                         else StructuralInvariantViolation))
                  && ((&& timely && Live(e) && (lifecycle == Current ==> Rooted(env, s.graph, e))
                       && !AlreadySays(e, evidence, lifecycle, metadata)
                       && !(CanAdvance(s.graph.generation) && persisted)) ==>
                        NotStored(s, out, persisted)))
  {
    hide CheckAuthority, MayWrite, FinishEdge, AuthorityOutcome, WithEvidence, NotStored;
    if id in s.graph.edges {
      var e := s.graph.edges[id];
      WriterPasses(s, c, e.domain);
      RootedIsUnblocked(env, s.graph, e);
      if !(CanAdvance(s.graph.generation) && persisted) {
        EdgeNotStored(s, id, WithEvidence(s.graph, c, e, evidence, lifecycle, metadata), persisted);
      }
    }
  }

  /** A writer that supersedes is told that the edge is not there or retired, that it builds on another generation, and
      that the replacement is not there, is the edge itself, or is not current. */
  lemma SupersedeRefusals(s: State, env: Env, c: Context, r: Request, persisted: bool)
    requires r.Supersede?
    ensures var out := Mutate(s, env, c, r, persisted);
            var edges := s.graph.edges;
            && (r.edge == "" ==> ToldOnly(s, out, MalformedRequest))
            && (r.edge != "" && r.edge !in edges ==> ToldOnly(s, out, NotFound))
            && (r.edge != "" && r.edge in edges && MayWrite(s, c, edges[r.edge].domain) ==>
                  var e, timely := edges[r.edge], Fresh(r.expected, s.graph.generation);
                  && (!timely ==> ToldOnly(s, out, StaleGeneration))
                  && (timely && e.lifecycle == Lifecycle.Retired ==> ToldOnly(s, out, EntityRetired))
                  && (timely && e.lifecycle != Lifecycle.Retired && !AlreadySuperseded(e, r.replacement)
                      && r.replacement.Some? ==>
                        && (r.replacement.value !in edges ==> ToldOnly(s, out, NotFound))
                        && (r.replacement.value == r.edge ==> ToldOnly(s, out, CycleRejected))
                        && (r.replacement.value in edges && r.replacement.value != r.edge
                            && edges[r.replacement.value].lifecycle != Current ==>
                              ToldOnly(s, out, RelationshipConflict))))
  {
    hide CheckAuthority, MayWrite, FinishEdge, AuthorityOutcome;
    if r.edge in s.graph.edges {
      WriterPasses(s, c, s.graph.edges[r.edge].domain);
    }
  }

  lemma RetireRefusals(s: State, env: Env, c: Context, r: Request, persisted: bool)
    requires r.Retire?
    ensures var out := Mutate(s, env, c, r, persisted);
            && (r.edge == "" ==> ToldOnly(s, out, MalformedRequest))
            && (r.edge != "" && r.edge !in s.graph.edges ==> ToldOnly(s, out, NotFound))
            && (r.edge != "" && r.edge in s.graph.edges && MayWrite(s, c, s.graph.edges[r.edge].domain) ==>
                  (!Fresh(r.expected, s.graph.generation) ==> ToldOnly(s, out, StaleGeneration)))
  {
    hide CheckAuthority, MayWrite, FinishEdge, AuthorityOutcome;
    if r.edge in s.graph.edges {
      WriterPasses(s, c, s.graph.edges[r.edge].domain);
    }
  }

  // ---- One node --------------------------------------------------------------------------------------------

  /** A writer that adds a node is told that it builds on another generation, that the registry does not know the entity
      or has retired, superseded or classed it otherwise, or that its identity is taken. */
  lemma AddNodeRefusals(s: State, env: Env, c: Context, r: Request, persisted: bool)
    requires r.AddNode? && 0 < |r.entity| <= env.limits.maxIdentifier && r.nodeClass != UnknownNodeClass
    requires r.domain != "" && MetadataOk(r.metadata, env.limits)
    ensures var out := Mutate(s, env, c, r, persisted);
            && (r.domain !in s.graph.domains ==> ToldOnly(s, out, DomainViolation))
            && (r.domain in s.graph.domains && MayWrite(s, c, r.domain) ==>
                  && (!Fresh(r.expected, s.graph.generation) ==> ToldOnly(s, out, StaleGeneration))
                  && (Fresh(r.expected, s.graph.generation) ==>
                        if env.directory.None? || r.entity !in env.directory.value then ToldOnly(s, out, UnknownEntity)
                        else
                          var record, id := env.directory.value[r.entity], NodeIdFor(env, r);
                          && (record.retired ==> ToldOnly(s, out, EntityRetired))
                          && (!record.retired && record.superseded ==> ToldOnly(s, out, EntitySuperseded))
                          && (!record.retired && !record.superseded && !Registered(env, r.entity, r.nodeClass) ==>
                                ToldOnly(s, out, IncompatibleEntityClass))
                          && (Registered(env, r.entity, r.nodeClass) && id != ""
                              && (if id in s.graph.nodes then s.graph.nodes[id].entity != r.entity
                                  else exists n :: n in s.graph.nodes && s.graph.nodes[n].entity == r.entity) ==>
                                ToldOnly(s, out, DuplicateIdentity))))
  {
    hide CheckAuthority, MayWrite, AuthorityOutcome, MetadataOk, Finish, Refresh, EntityClassOf;
    WriterPasses(s, c, r.domain);
  }

  lemma RemoveNodeRefusals(s: State, env: Env, c: Context, r: Request, persisted: bool)
    requires r.RemoveNode? && r.node != ""
    ensures var out := Mutate(s, env, c, r, persisted);
            && (r.node !in s.graph.nodes ==> ToldOnly(s, out, NotFound))
            && (r.node in s.graph.nodes && MayReplace(s, c, s.graph.nodes[r.node].domain) ==>
                  && (!Fresh(r.expected, s.graph.generation) ==> ToldOnly(s, out, StaleGeneration))
                  && (Fresh(r.expected, s.graph.generation) && !r.cascade
                      && (exists e :: e in s.graph.edges && r.node in {s.graph.edges[e].from, s.graph.edges[e].to}) ==>
                        ToldOnly(s, out, StructuralInvariantViolation)))
  {
    hide CheckAuthority, MayReplace, AuthorityOutcome, Delisted, FiledBack, Finish;
    if r.node in s.graph.nodes {
      WriterPasses(s, c, s.graph.nodes[r.node].domain);
    }
  }

  // ---- Relationships -----------------------------------------------------------------------------------------

  /** Why a candidate does not fit: its endpoints, their classes, its layer, what it rests on, or whom it would displace
      or close a circle with. */
  lemma MisfitsAreExplained(g: Graph, k: Candidate, isNew: bool)
    requires k.relation != UnknownRelation && k.id != "" && k.relationship != ""
    ensures var o := ValidateCandidate(g, k, isNew);
            if k.from !in g.nodes || k.to !in g.nodes then o == UnknownEntity
            else
              var ends := {g.nodes[k.from].lifecycle, g.nodes[k.to].lifecycle};
              && (o == UnknownEntity ==> k.supportedBy.Some? && k.supportedBy.value !in g.edges)
              && (o == EntityRetired ==> Lifecycle.Retired in ends) && (o == EntitySuperseded ==> Superseded in ends)
              && (o == IncompatibleEntityClass ==>
                    !EndpointsPermitted(k.relation, g.nodes[k.from].nodeClass, g.nodes[k.to].nodeClass))
              && (o == MalformedRequest ==> !LayerPermitted(k.relation, k.layer))
              && (o == InvalidEndpoint ==> k.from == k.to)
              && (o == RelationshipConflict ==> !RestsWell(g.edges, k) || !ClaimsAlone(g.edges, k))
              && (o == CycleRejected ==>
                    k.supportedBy == Some(k.id) || (isNew && WouldCycle(g.edges, k.relation, k.from, k.to)))
              && o in {Ok, UnknownEntity, EntityRetired, EntitySuperseded, IncompatibleEntityClass, MalformedRequest,
                       InvalidEndpoint, RelationshipConflict, CycleRejected}
  {
    hide EndpointsPermitted, LayerPermitted, WouldCycle;
    assert AttachmentConflict(g.edges, k) <==> !ClaimsAlone(g.edges, k);
  }

  /** A writer that adds a relationship is told that it builds on another generation, that the relationship or the name
      is someone else's, that the edge is dead, or why what it asks for does not fit. */
  lemma AddRelationshipRefusals(s: State, env: Env, c: Context, r: Request, k: Candidate, persisted: bool)
    requires r.AddRelationship? && Intends(s.graph, env, r, k) && r.relation != UnknownRelation
    requires r.from != "" && r.to != "" && MetadataOk(r.metadata, env.limits) && k.id != "" && k.relationship != ""
    requires MayWrite(s, c, s.graph.nodes[k.from].domain) && MayWrite(s, c, s.graph.nodes[k.to].domain)
    ensures var out := Mutate(s, env, c, r, persisted);
            var key := EdgeKey(k.relation, k.from, k.to, k.domain);
            var byKey, byName := FindKey(s.graph, key), FindRelationship(s.graph, k.relationship);
            && (!Fresh(r.expected, s.graph.generation) ==> ToldOnly(s, out, StaleGeneration))
            && (Fresh(r.expected, s.graph.generation) ==>
                  && (!NoOther(byKey, k.id) ==> ToldOnly(s, out, DuplicateEdge))
                  && (NoOther(byKey, k.id) ==>
                        && (k.id in s.graph.edges && KeyOf(s.graph.edges[k.id]) != key ==>
                              ToldOnly(s, out, DuplicateIdentity))
                        && (!NoOther(byName, k.id) ==> ToldOnly(s, out, DuplicateIdentity)))
                  && (byKey == Some(k.id) && NoOther(byName, k.id) && !Live(s.graph.edges[k.id]) ==>
                        ToldOnly(s, out, EntityRetired))
                  && (IdentityFree(s.graph, k) && !AlreadyLinked(s.graph, k) && !Fits(s.graph, k, byKey.None?) ==>
                        ToldOnly(s, out, ValidateCandidate(s.graph, k, byKey.None?))))
  {
    hide CheckAuthority, MetadataOk, MayWrite, AuthorityOutcome, ValidateCandidate, Fits, FindKey, FindRelationship,
         KeyOf, FinishEdge, FinishNewEdge, FailedFiling, RestatedEdge, NewEdge, Less, Undirected, Asked, Intends,
         ResolveLayer;
    AddGuardExactly(s, env, c, r, k);
    IntendedOrientation(s.graph, env, r, k);
    var g, key := s.graph, EdgeKey(k.relation, k.from, k.to, k.domain);
    ValidExactlyWhenFits(g, k, FindKey(g, key).None?);
    StaleAddition(s, env, c, r, k);
    assert MakeKey(k.relation, k.from, k.to, k.domain) == key;
  }

  lemma StaleAddition(s: State, env: Env, c: Context, r: Request, k: Candidate)
    requires r.AddRelationship? && Intends(s.graph, env, r, k) && r.relation != UnknownRelation
    requires r.from != "" && r.to != "" && MetadataOk(r.metadata, env.limits)
    requires MayWrite(s, c, s.graph.nodes[k.from].domain) && MayWrite(s, c, s.graph.nodes[k.to].domain)
    ensures Asked(s.graph, env, r) == Some(k)
    ensures !Fresh(r.expected, s.graph.generation) ==> AddGuard(s, env, c, r) == StaleGeneration
  {
    hide CheckAuthority, MetadataOk, MayWrite, ResolveLayer, AuthorityOutcome, Asked, RuleFor;
    AskedIsIntended(s.graph, env, r, k);
    var g := s.graph;
    assert {k.domain} + (if k.crossDomain then {k.secondary} else {}) == {g.nodes[k.from].domain, g.nodes[k.to].domain};
    WriterPasses(s, c, k.domain);
    WriterPasses(s, c, k.secondary);
  }

  /** A writer that moves an attachment is told that the edge is not there, not an attachment, or not current, that it
      builds on another generation, or that the target is not there, in another scope, or attached already. */
  lemma MoveRefusals(s: State, env: Env, c: Context, r: Request, persisted: bool)
    requires r.MoveAttachment? && r.edge != "" && r.target != "" && r.slot != "" && MetadataOk(r.metadata, env.limits)
    ensures var out := Mutate(s, env, c, r, persisted);
            && (r.edge !in s.graph.edges ==> ToldOnly(s, out, NotFound))
            && (r.edge in s.graph.edges && s.graph.edges[r.edge].relation != AttachedTo ==>
                  ToldOnly(s, out, MalformedRequest))
            && (r.edge in s.graph.edges && MayWrite(s, c, s.graph.edges[r.edge].domain)
                && s.graph.edges[r.edge].relation == AttachedTo ==>
                  var e := s.graph.edges[r.edge];
                  var timely := Fresh(r.expected, s.graph.generation) && Fresh(r.expectedEdge, e.generation);
                  var clash := FindKey(s.graph, MakeKey(AttachedTo, e.from, r.target, e.domain));
                  && (!timely ==> ToldOnly(s, out, StaleGeneration))
                  && (timely && e.lifecycle != Current ==> ToldOnly(s, out, NeedsRevalidation))
                  && (timely && e.lifecycle == Current ==>
                        && (r.target !in s.graph.nodes ==> ToldOnly(s, out, UnknownEntity))
                        && (r.target in s.graph.nodes && r.domain !in {"", e.domain} ==>
                              ToldOnly(s, out, DomainViolation))
                        && (r.target in s.graph.nodes && r.domain in {"", e.domain} && e.from in s.graph.nodes ==>
                              (!NoOther(clash, r.edge) ==> ToldOnly(s, out, DuplicateEdge)))))
  {
    hide CheckAuthority, MayWrite, AuthorityOutcome, MetadataOk, MakeKey, FindKey, ValidateCandidate;
    if r.edge in s.graph.edges {
      WriterPasses(s, c, s.graph.edges[r.edge].domain);
    }
  }

  /** A writer that binds a node anew is told that the node is not there, that it builds on another generation, or that
      the registry does not know the successor, has it out of service or classed otherwise. */
  lemma ReplaceRefusals(s: State, env: Env, c: Context, r: Request, persisted: bool)
    requires r.ReplaceEndpoint? && r.node != "" && (r.rebind ==> r.successor != "")
    ensures var out := Mutate(s, env, c, r, persisted);
            && (r.node !in s.graph.nodes ==> ToldOnly(s, out, NotFound))
            && (r.node in s.graph.nodes && MayWrite(s, c, s.graph.nodes[r.node].domain) ==>
                  var n := s.graph.nodes[r.node];
                  var timely := Fresh(r.expected, s.graph.generation) && Fresh(r.expectedNode, n.generation);
                  && (!timely ==> ToldOnly(s, out, StaleGeneration))
                  && (timely && r.rebind ==>
                        if env.directory.None? || r.successor !in env.directory.value
                        then ToldOnly(s, out, UnknownEntity)
                        else
                          var record := env.directory.value[r.successor];
                          && (record.retired || record.superseded ==> ToldOnly(s, out, EntityRetired))
                          && (!record.retired && !record.superseded && !Registered(env, r.successor, n.nodeClass) ==>
                                ToldOnly(s, out, IncompatibleEntityClass))))
  {
    hide CheckAuthority, MayWrite, AuthorityOutcome, EntityClassOf, ReissueIncident, Refiled, FiledBack, Finish;
    if r.node in s.graph.nodes {
      WriterPasses(s, c, s.graph.nodes[r.node].domain);
    }
  }
}
