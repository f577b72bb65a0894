/** Which entries and which publications are accepted, when nothing changes, and what a replay does. */
module AcceptanceLaws {
  import opened Types
  import opened Graphs
  import opened Authority
  import opened GrantLaws
  import opened Mutations
  import opened EffectLaws
  import opened NodeEffects
  import opened LinkEffects
  import opened Reconcile
  import opened PublishLaws
  import opened FrameLaws
  import opened EntryLaws
  import SnapshotLaws
  import RepublishLaws
  import opened ReportLaws
  import ValidityLaws

  // ---- Entries ---------------------------------------------------------------------------------------------

  /** The entry is of the publication's scope and of some class, mentions a node not mentioned yet, and if it reports
      the node's absence the publication may speak of absences. */
  predicate NodeMentionable(env: Env, p: Header, d: Draft, o: ObservedNode)
    requires d.Draft?
  {
    && o.domain in {"", p.domain} && o.nodeClass != UnknownNodeClass && ObservedId(env, o) !in d.nodeIds
    && (!o.present ==> p.mode != PartialObservation)
  }

  /** The entity is reported once, is in service as such a node, and belongs to the identifier, or both are free and one
      more node fits. */
  ghost predicate NodePlaceable(env: Env, d: Draft, o: ObservedNode)
    requires d.Draft?
  {
    && o.entity !in d.entities && Registered(env, o.entity, o.nodeClass)
    && var id := ObservedId(env, o);
       if id in d.g.nodes then d.g.nodes[id].entity == o.entity
       else
         && (forall n :: n in d.g.nodes ==> d.g.nodes[n].entity != o.entity)
         && |d.g.nodes| < env.limits.maxNodes
  }

  /** A node entry is accepted exactly when it may be mentioned and, if present, placed. */
  lemma NodeEntryAccepted(env: Env, c: Context, p: Header, d: Draft, o: ObservedNode)
    requires d.Draft?
    ensures NodeEntry(env, c, p, d, o).Draft?
            <==> NodeMentionable(env, p, d, o) && (o.present ==> NodePlaceable(env, d, o))
  {
    hide EntityClassOf, NodeSettled, PublishedNode, RestatedNode, ReissueIncident, Refiled;
  }

  /** The entry is of the publication's scope, of some relation between two named nodes that is not mentioned yet, and
      if it reports an absence the publication may speak of absences. */
  predicate EdgeMentionable(p: Header, d: Draft, o: ObservedEdge)
    requires d.Draft?
  {
    && o.relation != UnknownRelation && o.from != "" && o.to != "" && o.domain in {"", p.domain}
    && ObservedKey(p, o) !in d.keys && (!o.present ==> p.mode != PartialObservation)
  }

  /** The relationship, under a name reported once, fits, and its identity is free or its own; one that is there is
      alive, and in a snapshot not newer than the report. */
  ghost predicate LinkPlaceable(env: Env, p: Header, d: Draft, o: ObservedEdge, k: Candidate)
    requires d.Draft?
  {
    var found := FindKey(d.g, ObservedKey(p, o));
    && k.relationship !in d.names && NoOther(found, k.id)
    && (k.id in d.g.edges ==> KeyOf(d.g.edges[k.id]) == ObservedKey(p, o)) && Fits(d.g, k, found.None?)
    && (found.None? ==> |d.g.edges| < env.limits.maxEdges)
    && (found.Some? ==> Live(d.g.edges[k.id]) && (p.mode == AuthoritativeSnapshot ==>
          d.g.edges[k.id].evidence <= k.evidence))
  }

  /** What an entry describes: the relationship between its endpoints, the smaller first if it has no direction, in the
      publication's scope, under the identifier and name it gives or else derived ones. */
  predicate Describes(env: Env, p: Header, o: ObservedEdge, k: Candidate) {
    && SaysEntry(k, o) && k.relation == o.relation && k.exclusive == o.exclusive
    && (k.from, k.to) == (if Undirected(o.relation) && Less(o.to, o.from) then (o.to, o.from) else (o.from, o.to))
    && k.domain == p.domain && !k.crossDomain && k.secondary == ""
    && var key := EdgeKey(k.relation, k.from, k.to, k.domain);
       && k.id == (if o.edgeId.Some? then o.edgeId.value else env.edgeIdOf(key))
       && k.relationship == (if o.relationship == "" then env.relIdOf(key) else o.relationship)
  }

  lemma CandidateIsDescribed(env: Env, p: Header, o: ObservedEdge, k: Candidate)
    ensures Describes(env, p, o, k)
            <==> ResolveLayer(o.relation, o.layer).Some?
                 && k == ObservedCandidate(env, p, o, ResolveLayer(o.relation, o.layer).value)
    ensures Describes(env, p, o, k) ==> MakeKey(k.relation, k.from, k.to, k.domain) == ObservedKey(p, o)
  {
    hide ResolveLayer, Less, Undirected;
    var (from, to) := Normalize(o.relation, o.from, o.to);
    assert ObservedKey(p, o) == EdgeKey(o.relation, from, to, p.domain);
  }

  lemma PresentEdgeAccepted(env: Env, c: Context, p: Header, d: Draft, o: ObservedEdge, k: Candidate)
    requires d.Draft? && Describes(env, p, o, k)
    ensures PresentEdge(env, c, p, d, k).Draft? <==> LinkPlaceable(env, p, d, o, k)
  {
    hide ValidateCandidate, Fits, MakeKey, KeyOf, Enlist, Delist, Describes, ObservedKey, PublishedEdge,
         RestatedByPublication, SameStatement;
    CandidateIsDescribed(env, p, o, k);
    ValidExactlyWhenFits(d.g, k, FindKey(d.g, ObservedKey(p, o)).None?);
  }

  /** An edge entry is accepted exactly when it may be mentioned and, if present, describes a relationship that may be
      placed. */
  lemma EdgeEntryAccepted(env: Env, c: Context, p: Header, d: Draft, o: ObservedEdge)
    requires d.Draft?
    ensures EdgeEntry(env, c, p, d, o).Draft?
            <==> EdgeMentionable(p, d, o)
                 && (o.present ==> exists k :: Describes(env, p, o, k) && LinkPlaceable(env, p, d, o, k))
  {
    hide PresentEdge, ObservedCandidate, Describes, LinkPlaceable, ObservedKey, ResolveLayer, Enlist, Delist, KeyOf;
    var noted := d.(keys := d.keys + {ObservedKey(p, o)});
    forall k
      ensures Describes(env, p, o, k) <==>
              ResolveLayer(o.relation, o.layer).Some?
              && k == ObservedCandidate(env, p, o, ResolveLayer(o.relation, o.layer).value)
    {
      CandidateIsDescribed(env, p, o, k);
    }
    if o.present && ResolveLayer(o.relation, o.layer).Some? {
      var k := ObservedCandidate(env, p, o, ResolveLayer(o.relation, o.layer).value);
      PresentEdgeAccepted(env, c, p, noted, o, k);
      SamePlaceable(env, p, noted, d, o, k);
    }
  }

  lemma SamePlaceable(env: Env, p: Header, a: Draft, b: Draft, o: ObservedEdge, k: Candidate)
    requires a.Draft? && b.Draft? && a.g == b.g && a.names == b.names
    ensures LinkPlaceable(env, p, a, o, k) <==> LinkPlaceable(env, p, b, o, k)
  {
    hide Fits, KeyOf, ObservedKey, FindKey;
  }

  /** A node entry is rejected with the reason: its scope, its class, that it or its entity is mentioned twice or bound
      otherwise, what the registry knows of its entity, or that no more nodes fit. */
  lemma NodeRejectionsExplained(env: Env, c: Context, p: Header, d: Draft, o: ObservedNode)
    requires d.Draft? && NodeEntry(env, c, p, d, o).Rejected?
    ensures var why := NodeEntry(env, c, p, d, o).outcome;
            var known, id := env.directory.Some? && o.entity in env.directory.value, ObservedId(env, o);
            && (why == DomainViolation <==> o.domain !in {"", p.domain})
            && (why == MalformedRequest ==>
                  o.nodeClass == UnknownNodeClass || (!o.present && p.mode == PartialObservation))
            && (why == UnknownEntity ==> !known)
            && (why == EntityRetired ==> known && env.directory.value[o.entity].retired)
            && (why == EntitySuperseded ==> known && env.directory.value[o.entity].superseded)
            && (why == IncompatibleEntityClass ==> !Registered(env, o.entity, o.nodeClass))
            && (why == DuplicateIdentity ==>
                  || id in d.nodeIds || o.entity in d.entities || (id in d.g.nodes && d.g.nodes[id].entity != o.entity)
                  || (exists n :: n in d.g.nodes && n != id && d.g.nodes[n].entity == o.entity))
            && (why == ResourceLimit ==> |d.g.nodes| >= env.limits.maxNodes)
            && why in {DomainViolation, MalformedRequest, UnknownEntity, EntityRetired, EntitySuperseded,
                       IncompatibleEntityClass, DuplicateIdentity, ResourceLimit}
  {
    hide EntityClassOf, NodeSettled, PublishedNode, RestatedNode, ReissueIncident, Refiled;
  }

  /** A relationship that may be mentioned is rejected with the reason: another edge stands for it, its name or its
      identifier is taken, no more edges fit, it is dead, a snapshot is behind it, or it does not fit. */
  lemma EdgeRejectionsExplained(env: Env, c: Context, p: Header, d: Draft, o: ObservedEdge, k: Candidate)
    requires d.Draft? && o.present && EdgeMentionable(p, d, o) && Describes(env, p, o, k)
    requires EdgeEntry(env, c, p, d, o).Rejected?
    ensures var why := EdgeEntry(env, c, p, d, o).outcome;
            var found := FindKey(d.g, ObservedKey(p, o));
            var misfit := ValidateCandidate(d.g, k, found.None?);
            && (why == DuplicateEdge ==> !NoOther(found, k.id))
            && (why == DuplicateIdentity ==>
                  || k.relationship in d.names
                  || (k.id in d.g.edges && KeyOf(d.g.edges[k.id]) != ObservedKey(p, o)))
            && (why == ResourceLimit ==> found.None? && |d.g.edges| >= env.limits.maxEdges)
            && (why == StaleGeneration ==>
                  p.mode == AuthoritativeSnapshot && found == Some(k.id) && d.g.edges[k.id].evidence > k.evidence)
            && (why in {DuplicateEdge, DuplicateIdentity, ResourceLimit, StaleGeneration}
                || (misfit != Ok && why == misfit)
                || (why == EntityRetired && found == Some(k.id) && !Live(d.g.edges[k.id])))
  {
    hide Less, Undirected, ValidateCandidate, Describes, ObservedKey, KeyOf, PublishedEdge, RestatedByPublication,
         SameStatement, ObservedCandidate, Enlist, Delist, ResolveLayer, FindKey;
    CandidateIsDescribed(env, p, o, k);
    MisfitOutcomes(d.g, k, FindKey(d.g, ObservedKey(p, o)).None?);
    assert EdgeEntry(env, c, p, d, o) == PresentEdge(env, c, p, d.(keys := d.keys + {ObservedKey(p, o)}), k);
  }

  lemma MisfitOutcomes(g: Graph, k: Candidate, isNew: bool)
    ensures ValidateCandidate(g, k, isNew) !in {DuplicateEdge, DuplicateIdentity, ResourceLimit, StaleGeneration}
  {
    hide EndpointsPermitted, LayerPermitted, AttachmentConflict, WouldCycle;
  }

  // ---- No change ---------------------------------------------------------------------------------------------

  /** Where no difference is recorded there is none. */
  ghost predicate HonestSince(g: Graph, d: Draft) {
    d.Draft? && !d.changed ==> d.g == g
  }

  lemma NodeEntryHonest(env: Env, c: Context, p: Header, g: Graph, d: Draft, o: ObservedNode)
    requires d.Draft? && HonestSince(g, d)
    ensures HonestSince(g, NodeEntry(env, c, p, d, o))
  {
    hide Lookup, FindEntity, NodeSettled, PublishedNode, RestatedNode, ReissueIncident, Refiled;
  }

  lemma {:induction false} NodeEntriesHonest(env: Env, c: Context, p: Header, g: Graph, d: Draft, os: seq<ObservedNode>)
    requires d.Draft? && HonestSince(g, d)
    ensures HonestSince(g, NodeEntries(env, c, p, d, os))
  {
    hide NodeEntry, HonestSince;
    if os != [] {
      NodeEntriesHonest(env, c, p, g, d, os[..|os| - 1]);
      var before := NodeEntries(env, c, p, d, os[..|os| - 1]);
      if before.Draft? {
        NodeEntryHonest(env, c, p, g, before, os[|os| - 1]);
      }
    }
  }

  lemma EdgeEntryHonest(env: Env, c: Context, p: Header, g: Graph, d: Draft, o: ObservedEdge)
    requires d.Draft? && HonestSince(g, d)
    ensures HonestSince(g, EdgeEntry(env, c, p, d, o))
  {
    hide ValidateCandidate, SameStatement, PublishedEdge, RestatedByPublication, RetiredEdge, ObservedCandidate,
         ResolveLayer, KeyOf, Enlist, Delist;
  }

  lemma {:induction false} EdgeEntriesHonest(env: Env, c: Context, p: Header, g: Graph, d: Draft, os: seq<ObservedEdge>)
    requires d.Draft? && HonestSince(g, d)
    ensures HonestSince(g, EdgeEntries(env, c, p, d, os))
  {
    hide EdgeEntry, HonestSince;
    if os != [] {
      EdgeEntriesHonest(env, c, p, g, d, os[..|os| - 1]);
      var before := EdgeEntries(env, c, p, d, os[..|os| - 1]);
      if before.Draft? {
        EdgeEntryHonest(env, c, p, g, before, os[|os| - 1]);
      }
    }
  }

  lemma {:induction false} AbsencesHonest(p: Header, g: Graph, d: Draft, names: seq<RelId>)
    requires d.Draft? && HonestSince(g, d)
    ensures HonestSince(g, Absences(p, d, names))
  {
    hide RetiredEdge, Enlist, Delist, KeyOf;
    if names != [] {
      AbsencesHonest(p, g, d, names[..|names| - 1]);
    }
  }

  lemma ReplacementHonest(p: Header, g: Graph, d: Draft)
    requires d.Draft? && HonestSince(g, d)
    ensures HonestSince(g, ReplaceScope(p, d))
  {
    hide LeftOut, NodeLeftOut;
    if !ReplaceScope(p, d).changed {
      assert KeptEdges(p, d) == d.g.edges;
      assert KeptNodes(p, d, d.g.edges) == d.g.nodes;
      assert LeftOutIds(p, d) == {};
      DelistedNone(d.g.lookups, d.g.edges);
    }
  }

  lemma ReconciledHonest(env: Env, c: Context, p: Publication, g: Graph, nodes: seq<ObservedNode>,
                         edges: seq<ObservedEdge>)
    ensures HonestSince(g, Reconciled(env, c, p, g, nodes, edges))
  {
    hide NodeEntries, EdgeEntries, Absences, ReplaceScope, HonestSince;
    FirstIsHonest(g);
    NodeEntriesHonest(env, c, p.head, g, FirstDraft(g), nodes);
    var d0 := NodeEntries(env, c, p.head, FirstDraft(g), nodes);
    if d0.Draft? {
      EdgeEntriesHonest(env, c, p.head, g, d0, edges);
      var d := EdgeEntries(env, c, p.head, d0, edges);
      if d.Draft? {
        AbsencesHonest(p.head, g, d, p.absences);
        var z := Absences(p.head, d, p.absences);
        if z.Draft? {
          ReplacementHonest(p.head, g, z);
        }
      }
    }
  }

  lemma FirstIsHonest(g: Graph)
    ensures HonestSince(g, FirstDraft(g))
  {
  }

  // ---- Publications --------------------------------------------------------------------------------------------

  /** The publication is in order, for a declared scope, by someone who may make it, and builds on the present state or
      on none in particular. */
  ghost predicate MayBePublished(s: State, env: Env, c: Context, p: Publication) {
    && WellFormed(env, p) && p.head.domain in s.graph.domains && MayPublish(s, c, p.head)
    && Fresh(p.expected, s.graph.generation)
  }

  lemma GuardExactly(s: State, env: Env, c: Context, p: Publication)
    ensures PublishGuard(s, env, c, p) == Ok <==> MayBePublished(s, env, c, p)
  {
    hide WellFormed, CheckAuthority, MayWrite, MayReplace, AuthorityOutcome;
    EntityScopeChecked(s, c, p.head.domain, IncrementalWrite);
    EntityScopeChecked(s, c, p.head.domain, AuthoritativeWrite);
  }

  /** What is committed is valid exactly when the draft is consistent. */
  lemma ValidDraftExactly(env: Env, g: Graph)
    requires CanAdvance(g.generation)
    ensures ValidTopology(env, g.(generation := g.generation + 1)) <==> ValidityLaws.Consistent(env, g)
  {
    hide ValidTopology, ValidityLaws.Consistent;
    ValidityLaws.ValidExactlyWhenConsistent(env, g.(generation := g.generation + 1));
    ConsistentAnyGeneration(env, g, g.(generation := g.generation + 1));
  }

  lemma SameCounter(g: Graph, d: Draft)
    requires OnlyTopology(g, d)
    ensures d.Draft? ==> d.g.generation == g.generation
  {
  }

  /** A publication commits exactly when it may be published, was not processed before, every entry is accepted, some
      difference is recorded, the result is consistent, and it becomes durable. It is Idempotent exactly when it was
      processed before, or makes no difference; then the topology is as it was, and it counts as processed. */
  lemma PublishExactly(s: State, env: Env, c: Context, p: Publication, nodes: seq<ObservedNode>,
                       edges: seq<ObservedEdge>, persisted: bool)
    ensures var out := Publish(s, env, c, p, nodes, edges, persisted);
            var may := MayBePublished(s, env, c, p);
            var d := Reconciled(env, c, p, s.graph, nodes, edges);
            && (out.verdict == Committed <==>
                  && may && p.head.id !in s.ledger && d.Draft? && d.changed && CanAdvance(s.graph.generation)
                  && ValidityLaws.Consistent(env, d.g) && persisted)
            && (out.verdict == Idempotent <==> may && (p.head.id in s.ledger || (d.Draft? && !d.changed)))
            && (!out.verdict.Refused? ==> p.head.id in out.state.ledger)
            && (out.verdict == Idempotent ==>
                  && out.state == s.(ledger := out.state.ledger)
                  && (p.head.id !in s.ledger ==> d.g == s.graph))
            && (out.verdict == Committed ==> out.state.graph == d.g.(generation := s.graph.generation + 1))
  {
    hide Reconciled, ValidTopology, ValidityLaws.Consistent, PublishGuard, MayBePublished, Record, OnlyTopology;
    GuardExactly(s, env, c, p);
    ReconciledHonest(env, c, p, s.graph, nodes, edges);
    ReconciledOnlyTopology(env, c, p, s.graph, nodes, edges);
    var d := Reconciled(env, c, p, s.graph, nodes, edges);
    SameCounter(s.graph, d);
    if d.Draft? && CanAdvance(d.g.generation) {
      ValidDraftExactly(env, d.g);
    }
    ProcessedIsRecorded(s.ledger, p.head.id);
  }

  lemma ProcessedIsRecorded(ledger: seq<string>, key: string)
    ensures key in Record(ledger, key)
  {
    if key !in ledger {
      var longer := ledger + [key];
      assert Record(ledger, key)[|Record(ledger, key)| - 1] == longer[|ledger|] == key;
    }
  }

  lemma ConsistentAnyGeneration(env: Env, g: Graph, h: Graph)
    requires h.nodes == g.nodes && h.edges == g.edges
    ensures ValidityLaws.Consistent(env, g) <==> ValidityLaws.Consistent(env, h)
  {
    hide EntityClassOf, FromPermitted, ToPermitted, LayerPermitted, KeysUnique, ValidityLaws.HierarchiesAcyclic,
         ValidityLaws.SlotsHeldOnce, ValidityLaws.SupportsHold;
  }

  /** A new publication that makes no difference makes none because everything it reports is on file already. */
  lemma NoDifferenceIsOnFile(s: State, env: Env, c: Context, p: Publication, nodes: seq<ObservedNode>,
                             edges: seq<ObservedEdge>, persisted: bool, o: ObservedEdge)
    requires Graphs.Structured(s.graph) && SnapshotLaws.KeysFound(p, s.graph) && Rearranges(edges, p.edges)
    requires Publish(s, env, c, p, nodes, edges, persisted).verdict == Idempotent && p.head.id !in s.ledger
    requires o in p.edges
    ensures SnapshotLaws.Asserted(env, p, s.graph.edges, o) ==> OnFileAs(env, p.head, s.graph, o)
    ensures !o.present ==> forall e :: e in s.graph.edges && StandsFor(p.head, s.graph.edges[e], o) ==>
              !Live(s.graph.edges[e])
  {
    hide Publish, Reconciled, Graphs.Structured, SnapshotLaws.KeysFound, OnFileAs, StandsFor, SnapshotLaws.StoredName,
         RepublishLaws.EntryDone, ValidityLaws.Consistent, WellFormed, MayWrite, MayReplace;
    PublishExactly(s, env, c, p, nodes, edges, persisted);
    SameMembers(edges, p.edges);
    if !o.present || SnapshotLaws.Asserted(env, p, s.graph.edges, o) {
      RepublishLaws.EntryStaysDone(env, c, p, s.graph, nodes, edges, o);
      DoneIsOnFile(env, p.head, s.graph, o);
    }
  }

  /** The ledger is what it was, or the newest of that and one more. */
  lemma RecordIsNewest(ledger: seq<string>, key: string)
    ensures var r, longer := Record(ledger, key), ledger + [key];
            if key in ledger then r == ledger
            else
              && |r| == (if |longer| <= LEDGER_CAPACITY then |longer| else LEDGER_CAPACITY)
              && forall i :: 0 <= i < |r| ==> r[i] == longer[|longer| - |r| + i]
  {
  }

  /** Whatever was processed is remembered until as many others have been processed as the ledger holds; nothing is held
      twice, and never more than it holds. */
  lemma RecordRemembers(ledger: seq<string>, key: string)
    ensures var r := Record(ledger, key);
            && key in r && (forall k :: k in r ==> k == key || k in ledger)
            && (forall i :: 0 <= i < |ledger| && |ledger| - i < LEDGER_CAPACITY ==> ledger[i] in r)
            && (|ledger| <= LEDGER_CAPACITY ==> |r| <= LEDGER_CAPACITY)
            && ((forall i, j :: 0 <= i < j < |ledger| ==> ledger[i] != ledger[j]) ==>
                  forall i, j :: 0 <= i < j < |r| ==> r[i] != r[j])
            && (key !in ledger ==> r[|r| - 1] == key)
  {
    hide Record;
    RecordIsNewest(ledger, key);
    var r, longer := Record(ledger, key), ledger + [key];
    if key !in ledger {
      var dropped := |longer| - |r|;
      assert r[|r| - 1] == longer[|ledger|] == key;
      forall i | 0 <= i < |ledger| && |ledger| - i < LEDGER_CAPACITY
        ensures ledger[i] in r
      {
        assert r[i - dropped] == longer[i] == ledger[i];
      }
      forall k | k in r
        ensures k == key || k in ledger
      {
        var i :| 0 <= i < |r| && r[i] == k;
        assert k == longer[dropped + i];
      }
    }
  }

  /** A replay is harmless: what has been processed once is Idempotent from then on, whatever it says this time, for
      whoever may publish it. */
  lemma ReplayIsHarmless(s: State, env: Env, c: Context, p: Publication, nodes: seq<ObservedNode>,
                         edges: seq<ObservedEdge>, persisted: bool, q: Publication, later: seq<ObservedNode>,
                         links: seq<ObservedEdge>, again: bool)
    requires !Publish(s, env, c, p, nodes, edges, persisted).verdict.Refused? && q.head.id == p.head.id
    ensures var t := Publish(s, env, c, p, nodes, edges, persisted).state;
            MayBePublished(t, env, c, q) ==> Publish(t, env, c, q, later, links, again) == Result(t, Idempotent)
  {
    hide Publish, MayBePublished, Reconciled, ValidityLaws.Consistent;
    PublishExactly(s, env, c, p, nodes, edges, persisted);
    var t := Publish(s, env, c, p, nodes, edges, persisted).state;
    GuardExactly(t, env, c, q);
    if MayBePublished(t, env, c, q) {
      ProcessedIsIdempotent(t, env, c, q, later, links, again);
    }
  }

  lemma ProcessedIsIdempotent(s: State, env: Env, c: Context, p: Publication, nodes: seq<ObservedNode>,
                              edges: seq<ObservedEdge>, persisted: bool)
    requires PublishGuard(s, env, c, p) == Ok && p.head.id in s.ledger
    ensures Publish(s, env, c, p, nodes, edges, persisted) == Result(s, Idempotent)
  {
    hide PublishGuard, Reconciled, ValidTopology;
  }
}
