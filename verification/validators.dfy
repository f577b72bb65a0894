/** The checks every candidate relationship passes before it is filed. */
module Validators {
  import opened Types
  import opened Graphs
  import opened Paths
  import opened Authority
  import opened Mutations
  import opened Reconcile
  import opened Indexes
  import opened GraphIndex
  import opened GraphStates
  import opened ColourSearch

  /** The checks on a candidate, with the indexes and the depth-first search in place of definitions. */
  method Validate(graph: GraphState, k: Candidate, isNew: bool) returns (o: Outcome)
    requires graph.Firm()
    ensures o == ValidateCandidate(graph.Content(), k, isNew)
  {
    hide Plain, WouldCycle, EndpointsPermitted, LayerPermitted, AttachmentConflict, PlainlyIndexed;
    if k.relation == UnknownRelation || k.id == "" || k.relationship == "" {
      return MalformedRequest;
    }
    if k.from !in graph.nodes || k.to !in graph.nodes {
      return UnknownEntity;
    }
    var from, to := graph.nodes[k.from], graph.nodes[k.to];
    if from.lifecycle == Lifecycle.Retired {
      return EntityRetired;
    }
    if from.lifecycle == Superseded {
      return EntitySuperseded;
    }
    if to.lifecycle == Lifecycle.Retired {
      return EntityRetired;
    }
    if to.lifecycle == Superseded {
      return EntitySuperseded;
    }
    if !EndpointsPermitted(k.relation, from.nodeClass, to.nodeClass) {
      return IncompatibleEntityClass;
    }
    if !LayerPermitted(k.relation, k.layer) {
      return MalformedRequest;
    }
    if k.from == k.to {
      return InvalidEndpoint;
    }
    if k.supportedBy.Some? {
      if k.supportedBy.value !in graph.edges {
        return UnknownEntity;
      }
      if k.supportedBy.value == k.id {
        return CycleRejected;
      }
      if k.layer == Logical && graph.edges[k.supportedBy.value].layer != Physical {
        return RelationshipConflict;
      }
    }
    var taken := SlotTaken(graph, k);
    if taken {
      return RelationshipConflict;
    }
    if isNew {
      var closes := graph.WouldCreateCycle(k.relation, k.from, k.to);
      if closes {
        return CycleRejected;
      }
    }
    return Ok;
  }

  /** Look for a current edge in the way, first among those with the slot, then among those at the node. */
  method SlotTaken(graph: GraphState, k: Candidate) returns (taken: bool)
    requires graph.Firm()
    ensures taken == AttachmentConflict(graph.edges, k)
  {
    taken := false;
    if !k.exclusive || k.attachment.None? {
      return;
    }
    AttachmentBucket(graph.edges, graph.ix, k.attachment.value);
    var sameSlot := if k.attachment.value in graph.ix.byAttachment
        then graph.ix.byAttachment[k.attachment.value] else {};
    var atNode := graph.IncidentTo(k.from);
    var rest := sameSlot + atNode;
    assert forall e :: e in graph.edges && Occupies(graph.edges[e], k) ==> e in rest;
    while rest != {}
      invariant rest <= sameSlot + atNode
      invariant forall e :: e in sameSlot + atNode - rest ==> !Occupies(graph.edges[e], k)
      decreases |rest|
    {
      var e :| e in rest;
      if Occupies(graph.edges[e], k) {
        return true;
      }
      rest := rest - {e};
    }
  }

  /** The bucket of an attachment slot is every edge that names it. */
  lemma AttachmentBucket(edges: Edges, ix: Index, slot: string)
    requires Files(ix.byAttachment, Pairs(edges, AttachmentSet))
    ensures forall e :: e in (if slot in ix.byAttachment then ix.byAttachment[slot] else {}) <==>
              e in edges && edges[e].attachment == Some(slot)
  {
    forall e
      ensures e in (if slot in ix.byAttachment then ix.byAttachment[slot] else {}) <==>
                e in edges && edges[e].attachment == Some(slot)
    {
      assert Has(ix.byAttachment, slot, e) <==> (slot, e) in Pairs(edges, AttachmentSet);
      assert e in edges ==> (edges[e].attachment == Some(slot) <==> slot in AttachmentSet(edges[e]));
    }
  }

  // ---- The whole graph -------------------------------------------------------------------------

  method ValidateNodes(env: Env, nodes: Nodes) returns (ok: bool)
    ensures ok <==> forall n :: n in nodes ==> NodeValid(env, nodes[n])
  {
    hide NodeValid;
    ok := true;
    var rest := nodes.Keys;
    while rest != {}
      invariant rest <= nodes.Keys && (ok <==> forall n :: n in nodes && n !in rest ==> NodeValid(env, nodes[n]))
      decreases |rest|
    {
      var n :| n in rest;
      ok := ok && NodeValid(env, nodes[n]);
      rest := rest - {n};
    }
  }

  /** Each edge by itself, and no key or exclusive slot seen twice. */
  method ValidateEdges(g: Graph) returns (ok: bool)
    ensures ok <==> (forall e :: e in g.edges ==> EdgeValid(g, g.edges[e]))
                    && KeysUnique(g.edges) && SlotsExclusive(g.edges)
  {
    hide EdgeValid, KeyOf, HoldsSlot, Seen;
    ok := true;
    var rest := g.edges.Keys;
    ghost var done: set<EdgeId> := {};
    var keys: set<EdgeKey>, slots: set<Option<string>> := {}, {};
    NothingSeen(g);
    while rest != {}
      invariant rest !! done && rest + done == g.edges.Keys && (ok <==> ValidSoFar(g, done))
      invariant Seen(g, done, keys, slots)
      decreases |rest|
    {
      var id :| id in rest;
      var e := g.edges[id];
      var unseen := KeyOf(e) !in keys && (HoldsSlot(e) ==> e.attachment !in slots);
      OneMoreChecked(g, done, id, keys, slots);
      ok := ok && EdgeValid(g, e) && unseen;
      rest, done := rest - {id}, done + {id};
      keys := keys + {KeyOf(e)};
      slots := slots + if HoldsSlot(e) then {e.attachment} else {};
    }
    assert done == g.edges.Keys;
  }

  /** The keys and slots of the edges looked at so far. */
  ghost predicate Seen(g: Graph, done: set<EdgeId>, keys: set<EdgeKey>, slots: set<Option<string>>)
    requires done <= g.edges.Keys
  {
    && (forall k :: k in keys <==> exists e :: e in done && KeyOf(g.edges[e]) == k)
    && (forall s :: s in slots <==> exists e :: e in done && HoldsSlot(g.edges[e]) && g.edges[e].attachment == s)
  }

  lemma NothingSeen(g: Graph)
    ensures Seen(g, {}, {}, {})
  {
  }

  ghost predicate ValidSoFar(g: Graph, done: set<EdgeId>)
    requires done <= g.edges.Keys
  {
    && (forall e :: e in done ==> EdgeValid(g, g.edges[e]))
    && (forall d, e :: d in done && e in done && KeyOf(g.edges[d]) == KeyOf(g.edges[e]) ==> d == e)
    && (forall d, e | d in done && e in done && HoldsSlot(g.edges[d]) && HoldsSlot(g.edges[e])
          :: g.edges[d].attachment == g.edges[e].attachment ==> d == e)
  }

  lemma OneMoreChecked(g: Graph, done: set<EdgeId>, id: EdgeId, keys: set<EdgeKey>, slots: set<Option<string>>)
    requires done <= g.edges.Keys && id in g.edges && id !in done
    requires Seen(g, done, keys, slots)
    ensures Seen(g, done + {id}, keys + {KeyOf(g.edges[id])},
                 slots + if HoldsSlot(g.edges[id]) then {g.edges[id].attachment} else {})
    ensures ValidSoFar(g, done + {id})
            <==> ValidSoFar(g, done) && EdgeValid(g, g.edges[id]) && KeyOf(g.edges[id]) !in keys
                 && (HoldsSlot(g.edges[id]) ==> g.edges[id].attachment !in slots)
  {
    hide EdgeValid, KeyOf, HoldsSlot;
    var after := done + {id};
    assert forall e :: e in after <==> e in done || e == id;
    if ValidSoFar(g, after) {
      assert forall e :: e in done ==> e in after;
    }
  }

  /** Every relation class that must stay acyclic is searched for a cycle. */
  method ValidateAcyclic(edges: Edges) returns (ok: bool)
    ensures ok <==> forall r :: r != UnknownRelation && MustStayAcyclic(r) ==> Acyclic(LiveArcs(edges, r))
  {
    hide Acyclic, LiveArcs, OnCycle;
    ok := true;
    var rest := {ConnectedTo, AttachedTo, Contains, MemberOf, UplinkTo, DownlinkTo, PeersWith, BackedBy, TunneledOver,
                 LogicallyConnectedTo, HostedBy, PresentsEndpoint, FabricMembership};
    assert forall r: Relation :: r in rest || r == UnknownRelation;
    while rest != {}
      invariant UnknownRelation !in rest
      invariant ok <==> forall r :: r != UnknownRelation && r !in rest && MustStayAcyclic(r) ==>
          Acyclic(LiveArcs(edges, r))
      decreases |rest|
    {
      var r :| r in rest;
      if MustStayAcyclic(r) {
        var found := ReportCycles(edges, r);
        ok := ok && found == [];
      }
      rest := rest - {r};
    }
  }

  /** Whole-graph validation answers exactly whether the topology is valid. */
  method ValidateTopology(env: Env, g: Graph) returns (ok: bool)
    ensures ok <==> ValidTopology(env, g)
  {
    hide NodeValid, EdgeValid, SlotsExclusive, KeysUnique, LiveArcs, Acyclic;
    var nodesOk := ValidateNodes(env, g.nodes);
    var edgesOk := ValidateEdges(g);
    var acyclic := ValidateAcyclic(g.edges);
    if edgesOk {
      UnknownIsAcyclic(g);
    }
    ok := nodesOk && edgesOk && acyclic;
  }

  /** A valid graph has no edges without a relation class, so that class needs no search. */
  lemma UnknownIsAcyclic(g: Graph)
    requires forall e :: e in g.edges ==> EdgeValid(g, g.edges[e])
    ensures Acyclic(LiveArcs(g.edges, UnknownRelation))
  {
    assert LiveArcs(g.edges, UnknownRelation) == {};
    RankedIsAcyclic(LiveArcs(g.edges, UnknownRelation), map[]);
  }
}
