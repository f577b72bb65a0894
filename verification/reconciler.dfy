/** The reconciler as it is written: loops that fold a publication into an indexed candidate graph. */
module Reconcilers {
  import opened Types
  import opened Graphs
  import opened Authority
  import opened Mutations
  import opened Reconcile
  import opened DraftLaws
  import opened GraphIndex
  import opened GraphStates
  import opened Rewrites
  import opened Validators
  import EntryLaws

  class Reconciler {
    const graph: GraphState
    var nodeIds: set<NodeId>
    var entities: set<string>
    var keys: set<EdgeKey>
    var names: set<RelId>
    var changed: bool

    /** The draft the candidate graph and the seen sets stand for. */
    function Now(): Draft
      reads this, graph
    {
      Draft.Draft(graph.Content(), nodeIds, entities, keys, names, changed)
    }

    /** The indexes describe the candidate, whatever their lookups miss, and it is what the entries so far make. */
    ghost predicate Valid(origin: Graph)
      reads this, graph
    {
      graph.Firm() && Tracks(origin, Now())
    }

    constructor (graph: GraphState)
      requires graph.Firm() && Shaped(graph.Content())
      ensures this.graph == graph && Now() == FirstDraft(graph.Content()) && Valid(graph.Content())
    {
      this.graph := graph;
      nodeIds, entities, keys, names, changed := {}, {}, {}, {}, false;
      new;
      FirstDraftTracks(graph.Content());
    }

    // ---- Nodes ---------------------------------------------------------------------------

    method PutNode(env: Env, c: Context, p: Header, o: ObservedNode, id: NodeId, record: EntityRecord,
                   ghost origin: Graph)
      returns (outcome: Outcome)
      requires Valid(origin) && p.domain in origin.domains
      modifies this, graph
      ensures Answers(outcome, PlaceNode(env, c, p, old(Now()), o, id, record), Now())
      ensures outcome == Ok ==> Valid(origin)
    {
      hide Tracks, FullyIndexed, PlainlyIndexed, Plain, Tidy, PublishedNode, RestatedNode, NodeSettled,
           ReissueIncident, Rewritten, Preserves, Refiled, WithNode, WithoutNode;
      ghost var before := Now();
      if id !in graph.nodes {
        var bound := graph.NodeByEntity(o.entity);
        if bound.Some? {
          return DuplicateIdentity;
        }
        if |graph.nodes| >= env.limits.maxNodes {
          return ResourceLimit;
        }
        PlaceNodeTracks(env, c, p, origin, before, o, id, record);
        TracksPlain(origin, PlaceNode(env, c, p, before, o, id, record));
        var n := PublishedNode(c, p, graph.Content(), o, id, record);
        PublishedNodeId(c, p, graph.Content(), o, id, record);
        var ok := graph.InsertNode(n);
        changed := true;
        return Ok;
      }
      var n := graph.nodes[id];
      if n.entity != o.entity {
        return DuplicateIdentity;
      }
      if NodeSettled(n, o, record) {
        return Ok;
      }
      PlaceNodeTracks(env, c, p, origin, before, o, id, record);
      var n' := RestatedNode(graph.Content(), n, o, record);
      RestatedNodePlain(graph.Content(), id, o, record);
      var ok := graph.UpdateNode(n');
      assert Now() == before.(g := graph.Content());
      if n.entityGeneration != record.generation {
        var incident := graph.IncidentTo(id);
        var ids := set e | e in incident && Live(graph.edges[e]);
        assert ids == ReissuedIds(graph.edges, id);
        ReissueRewrites(graph.edges, id, record.generation, ids);
        Rewrite(graph, ids, ReissueTo(id, record.generation));
      }
      changed := true;
      return Ok;
    }

    method AcceptNode(env: Env, c: Context, p: Header, o: ObservedNode, ghost origin: Graph) returns (outcome: Outcome)
      requires Valid(origin) && p.domain in origin.domains
      modifies this, graph
      ensures Answers(outcome, NodeEntry(env, c, p, old(Now()), o), Now())
      ensures outcome == Ok ==> Valid(origin)
    {
      hide Tracks, FullyIndexed, PlainlyIndexed, Plain, Tidy, PlaceNode, Lookup;
      ghost var before := Now();
      var id := ObservedId(env, o);
      if o.domain != "" && o.domain != p.domain {
        return DomainViolation;
      }
      if o.nodeClass == UnknownNodeClass {
        return MalformedRequest;
      }
      if id in nodeIds {
        return DuplicateIdentity;
      }
      nodeIds := nodeIds + {id};
      MentionTracks(origin, before, Now());
      if !o.present {
        return if p.mode == PartialObservation then MalformedRequest else Ok;
      }
      if o.entity in entities {
        return DuplicateIdentity;
      }
      entities := entities + {o.entity};
      MentionTracks(origin, before, Now());
      var found := Lookup(env, o.entity);
      if found.None? {
        return UnknownEntity;
      }
      if found.value.retired {
        return EntityRetired;
      }
      if found.value.superseded {
        return EntitySuperseded;
      }
      if found.value.entityClass != EntityClassOf(o.nodeClass) {
        return IncompatibleEntityClass;
      }
      outcome := PutNode(env, c, p, o, id, found.value, origin);
    }

    method AcceptNodes(env: Env, c: Context, p: Header, os: seq<ObservedNode>,
                       ghost origin: Graph) returns (outcome: Outcome)
      requires Valid(origin) && p.domain in origin.domains
      modifies this, graph
      ensures Answers(outcome, NodeEntries(env, c, p, old(Now()), os), Now())
      ensures outcome == Ok ==> Valid(origin)
    {
      hide Tracks, FullyIndexed, PlainlyIndexed, Plain, Tidy, NodeEntry;
      ghost var first := Now();
      for i := 0 to |os|
        invariant Valid(origin) && Now() == NodeEntries(env, c, p, first, os[..i])
      {
        assert os[..i + 1][..i] == os[..i];
        outcome := AcceptNode(env, c, p, os[i], origin);
        if outcome != Ok {
          NodeRejectionSticks(env, c, p, first, os, i + 1, outcome);
          return;
        }
      }
      assert os[..|os|] == os;
      outcome := Ok;
    }

    // ---- Edges -------------------------------------------------------------------------------

    /** Erase in a snapshot, retire otherwise. */
    method DropEdge(p: Header, id: EdgeId, ghost origin: Graph)
      requires Valid(origin) && id in graph.edges && Live(graph.edges[id]) && KeyOf(graph.edges[id]) in keys
      modifies this, graph
      ensures Valid(origin) && Now() == RemoveEdge(p, old(Now()), id)
    {
      hide Tracks, FullyIndexed, PlainlyIndexed, Plain, Tidy, KeyOf, RetiredEdge, Enlist, Delist, WithEdge, WithoutEdge,
           Found;
      ghost var before := Now();
      RemoveEdgeTracks(p, origin, before, id);
      TracksPlain(origin, RemoveEdge(p, before, id));
      FiledEdge(graph.Content(), id);
      RetiredKeepsId(graph.edges[id]);
      var ok;
      if p.mode == AuthoritativeSnapshot {
        ok := graph.EraseEdge(id);
      } else {
        ok := graph.UpdateEdge(RetiredEdge(graph.edges[id]));
      }
      changed := true;
    }

    method AcceptAbsentEdge(p: Header, key: EdgeKey, ghost origin: Graph) returns (outcome: Outcome)
      requires Valid(origin) && key in keys
      modifies this, graph
      ensures Answers(outcome, AbsentEdge(p, old(Now()), key), Now())
      ensures outcome == Ok ==> Valid(origin)
    {
      hide Tracks, FullyIndexed, PlainlyIndexed, Plain, Tidy, KeyOf, RemoveEdge;
      if p.mode == PartialObservation {
        return MalformedRequest;
      }
      var found := graph.EdgeByKey(key);
      if found.None? || !Live(graph.edges[found.value]) {
        return Ok;
      }
      DropEdge(p, found.value, origin);
      return Ok;
    }

    /** File, restate or leave alone one observed relationship; its key has just been marked as seen. Nobody looks at
        whether the insertion succeeds. */
    method AcceptPresentEdge(env: Env, c: Context, p: Header, k: Candidate, ghost origin: Graph, ghost before: Draft)
      returns (outcome: Outcome)
      requires graph.Firm() && Tracks(origin, before) && k.domain in origin.domains
      requires !k.crossDomain
      requires !Swapped(k.relation, k.from, k.to) && MakeKey(k.relation, k.from, k.to, k.domain) !in before.keys
      requires Now() == before.(keys := before.keys + {MakeKey(k.relation, k.from, k.to, k.domain)})
      modifies this, graph
      ensures Answers(outcome, PresentEdge(env, c, p, old(Now()), k), Now())
      ensures outcome == Ok ==> Valid(origin)
    {
      hide Tracks, FullyIndexed, PlainlyIndexed, Plain, Tidy, KeyOf, MakeKey, ValidateCandidate, SameStatement,
           PublishedEdge, RestatedByPublication, Less, Enlist, Delist, WithEdge, WithoutEdge, Found;
      ghost var noted := Now();
      var key := MakeKey(k.relation, k.from, k.to, k.domain);
      if k.relationship in names {
        return DuplicateIdentity;
      }
      var byKey := graph.EdgeByKey(key);
      if byKey.Some? && byKey.value != k.id {
        return DuplicateEdge;
      }
      if k.id in graph.edges && KeyOf(graph.edges[k.id]) != key {
        return DuplicateIdentity;
      }
      names := names + {k.relationship};
      var valid := Validate(graph, k, byKey.None?);
      if valid != Ok {
        return valid;
      }
      ValidCandidateFacts(graph.Content(), k, byKey.None?);
      if byKey.None? && |graph.edges| >= env.limits.maxEdges {
        return ResourceLimit;
      }
      if byKey.Some? {
        var e := graph.edges[k.id];
        if !Live(e) {
          return EntityRetired;
        }
        if e.evidence > k.evidence && p.mode == AuthoritativeSnapshot {
          return StaleGeneration;
        }
        if e.evidence > k.evidence || SameStatement(e, k) {
          PresentEdgeTracks(env, c, p, origin, before, noted, k);
          return Ok;
        }
      }
      PresentEdgeTracks(env, c, p, origin, before, noted, k);
      TracksPlain(origin, PresentEdge(env, c, p, noted, k));
      EntryLaws.PublishedNames(c, p, graph.Content(), k);
      var ok;
      if byKey.None? {
        ok := graph.InsertEdge(PublishedEdge(c, p, graph.Content(), k));
      } else {
        FiledEdge(graph.Content(), k.id);
        ok := graph.UpdateEdge(RestatedByPublication(c, p, graph.Content(), graph.edges[k.id], k));
      }
      changed := true;
      return Ok;
    }

    method AcceptEdge(env: Env, c: Context, p: Header, o: ObservedEdge, ghost origin: Graph) returns (outcome: Outcome)
      requires Valid(origin) && p.domain in origin.domains
      modifies this, graph
      ensures Answers(outcome, EdgeEntry(env, c, p, old(Now()), o), Now())
      ensures outcome == Ok ==> Valid(origin)
    {
      hide Tracks, FullyIndexed, PlainlyIndexed, Plain, Tidy, PresentEdge, AbsentEdge, MakeKey, ObservedCandidate;
      ghost var before := Now();
      if o.relation == UnknownRelation || o.from == "" || o.to == "" {
        return MalformedRequest;
      }
      if o.domain != "" && o.domain != p.domain {
        return DomainViolation;
      }
      var key := ObservedKey(p, o);
      if key in keys {
        return DuplicateIdentity;
      }
      keys := keys + {key};
      MentionTracks(origin, before, Now());
      if !o.present {
        outcome := AcceptAbsentEdge(p, key, origin);
        return;
      }
      var layer := ResolveLayer(o.relation, o.layer);
      if layer.None? {
        return MalformedRequest;
      }
      var k := ObservedCandidate(env, p, o, layer.value);
      EntryLaws.CandidateNames(env, p, o, layer.value);
      outcome := AcceptPresentEdge(env, c, p, k, origin, before);
    }

    method AcceptEdges(env: Env, c: Context, p: Header, os: seq<ObservedEdge>, ghost origin: Graph)
      returns (outcome: Outcome)
      requires Valid(origin) && p.domain in origin.domains
      modifies this, graph
      ensures Answers(outcome, EdgeEntries(env, c, p, old(Now()), os), Now())
      ensures outcome == Ok ==> Valid(origin)
    {
      hide Tracks, FullyIndexed, PlainlyIndexed, Plain, Tidy, EdgeEntry;
      ghost var first := Now();
      for i := 0 to |os|
        invariant Valid(origin) && Now() == EdgeEntries(env, c, p, first, os[..i])
      {
        assert os[..i + 1][..i] == os[..i];
        outcome := AcceptEdge(env, c, p, os[i], origin);
        if outcome != Ok {
          EdgeRejectionSticks(env, c, p, first, os, i + 1, outcome);
          return;
        }
      }
      assert os[..|os|] == os;
      outcome := Ok;
    }

    // ---- Declared absences ---------------------------------------------------------------------

    /** Drop what the name index finds under the name, whoever else may hold it. */
    method AcceptAbsence(p: Header, name: RelId, ghost origin: Graph)
      requires Valid(origin)
      modifies this, graph
      ensures Valid(origin) && Now() == Absence(p, old(Now()), name)
    {
      hide Tracks, FullyIndexed, PlainlyIndexed, Plain, Tidy, KeyOf, RemoveEdge;
      ghost var before := Now();
      if name == "" {
        return;
      }
      var found := graph.EdgeByRelationship(name);
      if found.None? {
        return;
      }
      var e := graph.edges[found.value];
      if e.domain != p.domain || !Live(e) {
        return;
      }
      keys := keys + {KeyOf(e)};
      MentionTracks(origin, before, Now());
      DropEdge(p, found.value, origin);
    }

    method AcceptAbsences(p: Header, absent: seq<RelId>, ghost origin: Graph)
      requires Valid(origin)
      modifies this, graph
      ensures Valid(origin) && Now() == Absences(p, old(Now()), absent)
    {
      hide Tracks, FullyIndexed, PlainlyIndexed, Plain, Tidy, Absence;
      ghost var first := Now();
      for i := 0 to |absent|
        invariant Valid(origin) && Now() == Absences(p, first, absent[..i])
      {
        assert absent[..i + 1][..i] == absent[..i];
        AcceptAbsence(p, absent[i], origin);
      }
      assert absent[..|absent|] == absent;
    }

    // ---- Snapshot replacement ---------------------------------------------------------------------

    /** Erase each of these edges from the candidate. */
    method EraseEdges(ids: set<EdgeId>)
      requires graph.Firm() && ids <= graph.edges.Keys
      modifies graph
      ensures graph.Firm()
      ensures graph.Content() == old(graph.Content()).(edges := old(graph.edges) - ids,
                                                       lookups := Delisted(old(graph.Content()).lookups,
                                                                           old(graph.edges), ids))
    {
      hide PlainlyIndexed, Plain, FullyIndexed, Tidy, Delist, Delisted, WithoutEdge, Found;
      ghost var before := graph.Content();
      var rest := ids;
      ghost var done: set<EdgeId> := {};
      DelistedNone(before.lookups, before.edges);
      assert before.edges - done == before.edges;
      while rest != {}
        invariant rest !! done && rest + done == ids && graph.Firm()
        invariant graph.Content() == before.(edges := before.edges - done,
                                             lookups := Delisted(before.lookups, before.edges, done))
        decreases |rest|
      {
        var id :| id in rest;
        assert before.edges - done - {id} == before.edges - (done + {id});
        FiledEdge(graph.Content(), id);
        DelistedOneMore(before.lookups, before.edges, done, id);
        var ok := graph.EraseEdge(id);
        rest, done := rest - {id}, done + {id};
      }
      assert done == ids;
    }

    /** Erase the isolated ones among these nodes and retire the others. */
    method RetireNodes(ids: set<NodeId>)
      requires graph.Firm() && ids <= graph.nodes.Keys
      modifies graph
      ensures graph.Firm()
      ensures graph.Content() == old(graph.Content()).(nodes := Dismissed(old(graph.nodes), old(graph.edges), ids))
    {
      hide PlainlyIndexed, Plain, FullyIndexed, Tidy, Dismissed, WithNode, WithoutNode;
      ghost var before := graph.Content();
      DismissedNothing(before.nodes, before.edges);
      var rest := ids;
      while rest != {}
        invariant rest <= ids && graph.Firm()
        invariant graph.Content() == before.(nodes := Dismissed(before.nodes, before.edges, ids - rest))
        decreases |rest|
      {
        var id :| id in rest;
        DismissedStep(before, ids - rest, id);
        assert ids - (rest - {id}) == ids - rest + {id};
        rest := rest - {id};
        var incident := graph.IncidentTo(id);
        assert incident == {} <==> Isolated(before.edges, id);
        var ok;
        if incident != {} {
          ok := graph.UpdateNode(RetiredNode(graph.nodes[id]));
        } else {
          ok := graph.EraseNode(id);
        }
      }
      assert ids - rest == ids;
    }

    /** What the snapshot's scope held and the snapshot did not mention goes away. */
    method Replace(p: Header, ghost origin: Graph)
      requires Valid(origin)
      modifies this, graph
      ensures graph.Firm() && Now() == ReplaceScope(p, old(Now()))
    {
      hide Tracks, PlainlyIndexed, Plain, FullyIndexed, Tidy, LeftOut, NodeLeftOut, Dismissed, KeptNodes, KeptEdges,
           ReplaceScope, Delisted;
      ghost var before := Now();
      TracksFacts(origin, before);
      var goneEdges := set e | e in graph.edges && LeftOut(p, keys, graph.edges[e]);
      EraseEdges(goneEdges);
      KeptAreLeft(p, before, goneEdges);
      var goneNodes := set n | n in graph.nodes && NodeLeftOut(p, nodeIds, graph.nodes[n]);
      KeptIsDismissed(p, before, graph.edges, goneNodes);
      RetireNodes(goneNodes);
      changed := changed || goneEdges != {} || goneNodes != {};
      ReplacedChanged(p, before, goneEdges, goneNodes);
    }

    // ---- The whole publication ----------------------------------------------------------------------

    method Fold(env: Env, c: Context, p: Publication, nodes: seq<ObservedNode>, edges: seq<ObservedEdge>,
                ghost origin: Graph) returns (outcome: Outcome)
      requires Valid(origin) && Now() == FirstDraft(origin) && p.head.domain in origin.domains
      modifies this, graph
      ensures Answers(outcome, Reconciled(env, c, p, origin, nodes, edges), Now())
      ensures outcome == Ok ==> graph.Firm()
    {
      hide Tracks, FullyIndexed, PlainlyIndexed, Plain, Tidy, NodeEntries, EdgeEntries, Absences, ReplaceScope;
      outcome := AcceptNodes(env, c, p.head, nodes, origin);
      if outcome != Ok {
        return;
      }
      outcome := AcceptEdges(env, c, p.head, edges, origin);
      if outcome != Ok {
        return;
      }
      AcceptAbsences(p.head, p.absences, origin);
      if p.head.mode == AuthoritativeSnapshot {
        Replace(p.head, origin);
      }
    }
  }

  /** The method's outcome is the step's: either the next draft, or the same rejection. */
  ghost predicate Answers(outcome: Outcome, d: Draft, now: Draft) {
    if outcome == Ok then d == now else d == Rejected(outcome)
  }

  // ---- What the candidate graph keeps -----------------------------------------------------------

  lemma TracksPlain(g: Graph, d: Draft)
    requires Tracks(g, d)
    ensures d.Draft? && Plain(d.g)
  {
    hide Shaped, Plain, Tracks;
    TracksFacts(g, d);
    ShapedIsPlain(d.g);
  }

  lemma PublishedNodeId(c: Context, p: Header, g: Graph, o: ObservedNode, id: NodeId, record: EntityRecord)
    ensures PublishedNode(c, p, g, o, id, record).id == id
  {
  }

  lemma RestatedNodePlain(g: Graph, id: NodeId, o: ObservedNode, record: EntityRecord)
    requires Plain(g) && id in g.nodes && g.nodes[id].entity == o.entity
    ensures RestatedNode(g, g.nodes[id], o, record).id == id
    ensures Plain(g.(nodes := g.nodes[id := RestatedNode(g, g.nodes[id], o, record)]))
  {
    hide EdgesFiled, SecondariesDeclared;
  }

  lemma ReissueRewrites(edges: Edges, n: NodeId, generation: Counter, ids: set<EdgeId>)
    requires ids == set e | e in edges && Touches(edges[e], n) && Live(edges[e])
    ensures Rewritten(edges, ids, ReissueTo(n, generation)) == ReissueIncident(edges, n, generation)
    ensures Preserves(edges, ids, ReissueTo(n, generation))
  {
  }

  lemma RetiredKeepsId(e: Edge)
    ensures RetiredEdge(e).id == e.id && RetiredEdge(e).relationship == e.relationship
  {
  }

  // ---- A rejection ends the fold --------------------------------------------------------------

  lemma {:induction false} NodeRejectionSticks(env: Env, c: Context, p: Header, d: Draft, os: seq<ObservedNode>,
                                               n: nat, outcome: Outcome)
    requires n <= |os| && NodeEntries(env, c, p, d, os[..n]) == Rejected(outcome)
    ensures NodeEntries(env, c, p, d, os) == Rejected(outcome)
    decreases |os| - n
  {
    hide NodeEntry;
    if n < |os| {
      assert os[..n + 1][..n] == os[..n];
      NodeRejectionSticks(env, c, p, d, os, n + 1, outcome);
    } else {
      assert os[..n] == os;
    }
  }

  lemma {:induction false} EdgeRejectionSticks(env: Env, c: Context, p: Header, d: Draft, os: seq<ObservedEdge>,
                                               n: nat, outcome: Outcome)
    requires n <= |os| && EdgeEntries(env, c, p, d, os[..n]) == Rejected(outcome)
    ensures EdgeEntries(env, c, p, d, os) == Rejected(outcome)
    decreases |os| - n
  {
    hide EdgeEntry;
    if n < |os| {
      assert os[..n + 1][..n] == os[..n];
      EdgeRejectionSticks(env, c, p, d, os, n + 1, outcome);
    } else {
      assert os[..n] == os;
    }
  }

  // ---- Dismissed nodes ---------------------------------------------------------------------------

  /** The isolated ones among these nodes are gone, the others retired. */
  function Dismissed(nodes: Nodes, edges: Edges, ids: set<NodeId>): Nodes {
    map n | n in nodes && !(n in ids && Isolated(edges, n)) :: if n in ids then RetiredNode(nodes[n]) else nodes[n]
  }

  lemma DismissedNothing(nodes: Nodes, edges: Edges)
    ensures forall none: set<NodeId> :: none == {} ==> Dismissed(nodes, edges, none) == nodes
  {
    assert Dismissed(nodes, edges, {}) == nodes;
  }

  lemma DismissedStep(g: Graph, done: set<NodeId>, id: NodeId)
    requires Plain(g) && id in g.nodes && id !in done
    ensures var now := Dismissed(g.nodes, g.edges, done);
            && id in now && now[id] == g.nodes[id] && RetiredNode(now[id]).id == id
            && Dismissed(g.nodes, g.edges, done + {id})
               == (if Isolated(g.edges, id) then now - {id} else now[id := RetiredNode(now[id])])
            && Plain(g.(nodes := Dismissed(g.nodes, g.edges, done + {id})))
  {
    hide EdgesFiled, SecondariesDeclared, Isolated;
    var now := Dismissed(g.nodes, g.edges, done);
    if Isolated(g.edges, id) {
      assert Dismissed(g.nodes, g.edges, done + {id}) == now - {id};
    } else {
      assert Dismissed(g.nodes, g.edges, done + {id}) == now[id := RetiredNode(now[id])];
    }
  }

  lemma KeptIsDismissed(p: Header, d: Draft, edges: Edges, ids: set<NodeId>)
    requires d.Draft? && ids == set n | n in d.g.nodes && NodeLeftOut(p, d.nodeIds, d.g.nodes[n])
    ensures Dismissed(d.g.nodes, edges, ids) == KeptNodes(p, d, edges)
  {
    hide Isolated;
  }

  lemma KeptAreLeft(p: Header, d: Draft, ids: set<EdgeId>)
    requires d.Draft? && ids == set e | e in d.g.edges && LeftOut(p, d.keys, d.g.edges[e])
    ensures d.g.edges - ids == KeptEdges(p, d)
  {
    hide LeftOut;
  }

  lemma ReplacedChanged(p: Header, d: Draft, goneEdges: set<EdgeId>, goneNodes: set<NodeId>)
    requires d.Draft? && goneEdges == set e | e in d.g.edges && LeftOut(p, d.keys, d.g.edges[e])
    requires goneNodes == set n | n in d.g.nodes && NodeLeftOut(p, d.nodeIds, d.g.nodes[n])
    ensures ReplaceScope(p, d).changed == (d.changed || goneEdges != {} || goneNodes != {})
    ensures var edges := KeptEdges(p, d);
            && ReplaceScope(p, d).g
               == d.g.(edges := edges, nodes := KeptNodes(p, d, edges),
                       lookups := Delisted(d.g.lookups, d.g.edges, goneEdges))
            && ReplaceScope(p, d) == d.(g := ReplaceScope(p, d).g, changed := ReplaceScope(p, d).changed)
  {
    hide LeftOut, NodeLeftOut, KeptNodes, KeptEdges, Delisted;
    assert goneEdges == LeftOutIds(p, d);
    assert goneEdges != {} <==> exists e :: e in d.g.edges && LeftOut(p, d.keys, d.g.edges[e]) by {
      if e :| e in d.g.edges && LeftOut(p, d.keys, d.g.edges[e]) {
        assert e in goneEdges;
      }
    }
    assert goneNodes != {} <==> exists n :: n in d.g.nodes && NodeLeftOut(p, d.nodeIds, d.g.nodes[n]) by {
      if n :| n in d.g.nodes && NodeLeftOut(p, d.nodeIds, d.g.nodes[n]) {
        assert n in goneNodes;
      }
    }
  }
}
