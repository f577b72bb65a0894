/** What the edge entries of a publication make of a draft, whatever the lookups find. */
module EntryLaws {
  import opened Types
  import opened Graphs
  import opened Authority
  import opened Mutations
  import opened Reconcile
  import opened DraftLaws
  import opened FrameLaws
  import MutationLaws
  import Orders

  // ---- What the lookups find ----------------------------------------------------------------

  /** Whatever stands for the relationship is found by its key. */
  ghost predicate KeyListed(g: Graph, key: EdgeKey) {
    forall e :: e in g.edges && KeyOf(g.edges[e]) == key ==> FindKey(g, key) == Some(e)
  }

  /** Whatever goes by the name is found by it. */
  ghost predicate NameListed(g: Graph, name: RelId) {
    forall e :: e in g.edges && g.edges[e].relationship == name ==> FindRelationship(g, name) == Some(e)
  }

  /** Filing edges anew leaves every lookup with what it had, or with one of these edges that holds it. */
  lemma {:induction false} RelistedFinds(l: Lookups, edges: Edges, order: seq<EdgeId>)
    requires EdgesFiled(edges)
    ensures var r := Relisted(l, edges, order);
            && l.keys.Keys <= r.keys.Keys && l.names.Keys <= r.names.Keys
            && (forall k :: k in r.keys ==>
                  || (k in l.keys && r.keys[k] == l.keys[k])
                  || (r.keys[k] in edges && KeyOf(edges[r.keys[k]]) == k))
            && (forall n :: n in r.names ==>
                  || (n in l.names && r.names[n] == l.names[n])
                  || (r.names[n] in edges && edges[r.names[n]].relationship == n))
  {
    hide KeyOf;
    if order != [] {
      RelistedFinds(l, edges, order[..|order| - 1]);
    }
  }

  // ---- The node entries ------------------------------------------------------------------------

  /** Edges that keep shape and name are found as before. */
  lemma ReshapedFinds(g: Graph, edges: Edges)
    requires Reshaped(g.edges, edges) && SameNames(g.edges, edges)
    ensures var h := g.(edges := edges);
            && (forall k :: FindKey(h, k) == FindKey(g, k))
            && (forall n :: FindRelationship(h, n) == FindRelationship(g, n))
            && (forall k :: KeyListed(g, k) ==> KeyListed(h, k)) && (forall n :: NameListed(g, n) ==> NameListed(h, n))
  {
    hide MakeKey, EdgesAge;
    forall e | e in g.edges
      ensures KeyOf(g.edges[e]) == KeyOf(edges[e])
    {
      assert SameShape(g.edges[e], edges[e]);
    }
  }

  lemma AnyNodesFind(g: Graph, h: Graph)
    requires h.edges == g.edges && h.lookups == g.lookups
    ensures forall k :: FindKey(h, k) == FindKey(g, k) && (KeyListed(g, k) ==> KeyListed(h, k))
    ensures forall n :: FindRelationship(h, n) == FindRelationship(g, n) && (NameListed(g, n) ==> NameListed(h, n))
  {
    hide KeyOf;
  }

  /** A node entry changes the life of no edge, and leaves every lookup that was right as it was. */
  lemma NodeEntryFinds(env: Env, c: Context, p: Header, d: Draft, o: ObservedNode)
    requires d.Draft? && EdgesFiled(d.g.edges) && NodeEntry(env, c, p, d, o).Draft?
    ensures var d' := NodeEntry(env, c, p, d, o);
            && Reshaped(d.g.edges, d'.g.edges) && SameNames(d.g.edges, d'.g.edges)
            && (forall e :: e in d.g.edges ==> Live(d.g.edges[e]) == Live(d'.g.edges[e]))
            && (forall k :: KeyListed(d.g, k) ==> KeyListed(d'.g, k))
            && (forall n :: NameListed(d.g, n) ==> NameListed(d'.g, n))
  {
    hide Lookup, NodeSettled, FindEntity, Refiled, ReissueIncident, KeyListed, NameListed, Reshaped, SameNames,
         EdgesFiled, FindKey, FindRelationship;
    var g, d' := d.g, NodeEntry(env, c, p, d, o);
    var id := ObservedId(env, o);
    MutationLaws.Unreshaped(g.edges);
    if d'.g.edges == g.edges && d'.g.lookups == g.lookups {
      AnyNodesFind(g, d'.g);
    } else {
      ReissueFinds(g, d'.g, id, d'.g.nodes[id].entityGeneration);
    }
  }

  lemma ReissueFinds(g: Graph, h: Graph, id: NodeId, generation: Counter)
    requires EdgesFiled(g.edges) && h.edges == ReissueIncident(g.edges, id, generation)
    requires h.lookups == Refiled(g.lookups, g.edges, ReissuedIds(g.edges, id))
    ensures Reshaped(g.edges, h.edges) && SameNames(g.edges, h.edges)
    ensures forall e :: e in g.edges ==> Live(g.edges[e]) == Live(h.edges[e])
    ensures forall k :: KeyListed(g, k) ==> KeyListed(h, k)
    ensures forall n :: NameListed(g, n) ==> NameListed(h, n)
  {
    hide Lookup, Refiled, ReissueIncident, KeyListed, NameListed, Reshaped, SameNames, EdgesFiled, FindKey,
         FindRelationship;
    ReissuedLife(g.edges, id, generation);
    MutationLaws.FenceReshapes(g.edges, id, generation);
    RefiledFinds(g, ReissuedIds(g.edges, id));
    var refiled := g.(lookups := h.lookups);
    ReshapedFinds(refiled, h.edges);
    AnyNodesFind(refiled.(edges := h.edges), h);
  }

  lemma ReissuedLife(edges: Edges, n: NodeId, generation: Counter)
    ensures var after := ReissueIncident(edges, n, generation);
            after.Keys == edges.Keys && forall e :: e in edges ==> Live(edges[e]) == Live(after[e])
  {
  }

  lemma RefiledFinds(g: Graph, ids: set<EdgeId>)
    requires EdgesFiled(g.edges)
    ensures var h := g.(lookups := Refiled(g.lookups, g.edges, ids));
            && (forall k :: KeyListed(g, k) ==> KeyListed(h, k))
            && (forall n :: NameListed(g, n) ==> NameListed(h, n))
  {
    hide KeyOf;
    RelistedFinds(g.lookups, g.edges, Orders.Sorted(ids));
  }

  lemma {:induction false} NodeEntriesFind(env: Env, c: Context, p: Header, d: Draft, os: seq<ObservedNode>)
    requires d.Draft? && EdgesFiled(d.g.edges) && NodeEntries(env, c, p, d, os).Draft?
    ensures var d' := NodeEntries(env, c, p, d, os);
            && EdgesFiled(d'.g.edges) && d'.g.edges.Keys == d.g.edges.Keys
            && (forall e :: e in d.g.edges ==>
                  Kept(d.g.edges, d'.g.edges, e) && Live(d.g.edges[e]) == Live(d'.g.edges[e]))
            && (forall k :: KeyListed(d.g, k) ==> KeyListed(d'.g, k))
            && (forall n :: NameListed(d.g, n) ==> NameListed(d'.g, n))
  {
    hide NodeEntry, KeyListed, NameListed, Live, EdgesAge;
    if os != [] {
      NodeEntriesFind(env, c, p, d, os[..|os| - 1]);
      NodeEntryFinds(env, c, p, NodeEntries(env, c, p, d, os[..|os| - 1]), os[|os| - 1]);
    }
  }

  // ---- What one edge entry does ----------------------------------------------------------------

  /** Outside the given keys the two edge maps agree. */
  ghost predicate AgreeOutside(before: Edges, after: Edges, keys: set<EdgeKey>) {
    && (forall e :: e in before && KeyOf(before[e]) !in keys ==> e in after && after[e] == before[e])
    && (forall e :: e in after && KeyOf(after[e]) !in keys ==> e in before && before[e] == after[e])
  }

  /** Outside the given keys the two key lookups agree. */
  ghost predicate KeysOutside(before: Lookups, after: Lookups, keys: set<EdgeKey>) {
    forall k :: k !in keys ==>
      (k in before.keys <==> k in after.keys) && (k in before.keys ==> after.keys[k] == before.keys[k])
  }

  /** The edge an entry is about: the one its key finds, or else the one it would file. */
  function Target(env: Env, p: Header, g: Graph, o: ObservedEdge): Option<EdgeId> {
    var found := FindKey(g, ObservedKey(p, o));
    if found.Some? then found else if o.present then Some(ObservedEdgeId(env, p, o)) else None
  }

  /** A present entry whose edge would have the identifier of one that is there, unlisted, for the same key. */
  predicate Ignored(env: Env, p: Header, g: Graph, o: ObservedEdge) {
    var id := ObservedEdgeId(env, p, o);
    && o.present && FindKey(g, ObservedKey(p, o)).None?
    && id in g.edges && KeyOf(g.edges[id]) == ObservedKey(p, o)
  }

  /** The entry files a relationship. */
  predicate IsNew(env: Env, p: Header, g: Graph, o: ObservedEdge) {
    o.present && FindKey(g, ObservedKey(p, o)).None? && !Ignored(env, p, g, o)
  }

  /** The relationship is live; after a snapshot entry it is also current. */
  predicate Reports(p: Header, e: Edge) {
    Live(e) && (p.mode == AuthoritativeSnapshot ==> e.lifecycle == Current)
  }

  /** The edge is current and says what the entry says. */
  predicate Carries(e: Edge, o: ObservedEdge) {
    && e.lifecycle == Current && e.evidence == o.evidence && e.metadata == o.metadata
    && e.supportedBy == o.supportedBy && e.attachment == o.attachment
    && ResolveLayer(o.relation, o.layer) == Some(e.layer)
  }

  /** What a report makes of an edge that is there: it says what the entry says, and from now on whence the entry has it
      unless nothing had to change; if it rests on newer evidence, which only a snapshot would not put up with, it is
      left alone. */
  predicate Answers(p: Header, before: Edge, after: Edge, o: ObservedEdge) {
    if before.evidence <= o.evidence then
      Carries(after, o) && (after == before || after.provenance.sourceRelationship == SourceOf(before, o))
    else p.mode != AuthoritativeSnapshot && after == before
  }

  function SourceOf(before: Edge, o: ObservedEdge): string {
    if o.sourceRelationship == "" then before.provenance.sourceRelationship else o.sourceRelationship
  }

  /** What a present entry leaves of the edge it is about. */
  predicate Stands(env: Env, p: Header, g: Graph, after: Edges, o: ObservedEdge)
    requires Target(env, p, g, o).Some?
  {
    var x := Target(env, p, g, o).value;
    && x in after && KeyOf(after[x]) == ObservedKey(p, o)
    && (if IsNew(env, p, g, o) then
          && after[x].relationship == ObservedName(env, p, o) && Reports(p, after[x]) && Carries(after[x], o)
          && after[x].provenance.sourceRelationship == o.sourceRelationship
        else
          && x in g.edges && Kept(g.edges, after, x)
          && (if Ignored(env, p, g, o) then after[x] == g.edges[x]
              else Reports(p, after[x]) && Answers(p, g.edges[x], after[x], o)))
  }

  /** Of the edges with this key, all but the target are as they were. */
  ghost predicate SameButFor(before: Edges, after: Edges, key: EdgeKey, target: Option<EdgeId>) {
    forall e :: Some(e) != target ==>
      && (e in before && KeyOf(before[e]) == key <==> e in after && KeyOf(after[e]) == key)
      && (e in before && KeyOf(before[e]) == key ==> after[e] == before[e])
  }

  /** The edge has been retired, and nothing else has happened to it but a step of its own counter. */
  predicate PutAway(before: Edge, after: Edge) {
    && after.lifecycle == Lifecycle.Retired
    && (CanAdvance(before.generation) ==> after.generation == before.generation + 1)
    && (!CanAdvance(before.generation) ==> after.generation == before.generation)
    && before == after.(lifecycle := before.lifecycle, generation := before.generation)
  }

  /** What an entry that reports an absence leaves of the edge it finds: it is retired unless it is dead, and a snapshot
      erases it. */
  predicate StruckOut(p: Header, g: Graph, after: Edges, key: EdgeKey, x: EdgeId)
    requires x in g.edges
  {
    if p.mode == AuthoritativeSnapshot && Live(g.edges[x]) then !(x in after && KeyOf(after[x]) == key)
    else
      && x in after && Kept(g.edges, after, x) && !Live(after[x])
      && (if Live(g.edges[x]) then PutAway(g.edges[x], after[x]) else after[x] == g.edges[x])
  }

  /** What an entry has come to: the edge it is about stands, or is gone or dead, and no other edge of its key
      differs. */
  ghost predicate Settled(env: Env, p: Header, g: Graph, after: Edges, o: ObservedEdge) {
    var key, target := ObservedKey(p, o), Target(env, p, g, o);
    && SameButFor(g.edges, after, key, target)
    && (if o.present then Stands(env, p, g, after, o)
        else target.Some? ==> StruckOut(p, g, after, key, target.value))
  }

  lemma PublishedNames(c: Context, p: Header, g: Graph, k: Candidate)
    requires k.from in g.nodes && k.to in g.nodes
    ensures var e := PublishedEdge(c, p, g, k);
            && KeyOf(e) == MakeKey(k.relation, k.from, k.to, k.domain) && e.relationship == k.relationship
            && e.id == k.id && e.lifecycle == Current
    ensures forall e: Edge :: var e' := RestatedByPublication(c, p, g, e, k);
              SameShape(e, e') && KeyOf(e') == KeyOf(e) && e'.relationship == e.relationship && e'.lifecycle == Current
  {
    hide MakeKey;
  }

  /** The candidate of an entry says what the entry says. */
  predicate SaysEntry(k: Candidate, o: ObservedEdge) {
    && k.evidence == o.evidence && k.metadata == o.metadata && k.supportedBy == o.supportedBy
    && k.attachment == o.attachment && ResolveLayer(o.relation, o.layer) == Some(k.layer)
    && k.sourceRelationship == o.sourceRelationship
  }

  lemma PublishedCarry(c: Context, p: Header, g: Graph, k: Candidate, o: ObservedEdge)
    requires SaysEntry(k, o) && k.from in g.nodes && k.to in g.nodes
    ensures k.evidence == o.evidence && Carries(PublishedEdge(c, p, g, k), o)
    ensures PublishedEdge(c, p, g, k).provenance.sourceRelationship == o.sourceRelationship
    ensures forall e: Edge :: var e' := RestatedByPublication(c, p, g, e, k);
                              Carries(e', o) && e'.provenance.sourceRelationship == SourceOf(e, o)
    ensures forall e: Edge :: SameStatement(e, k) <==> Carries(e, o)
  {
  }

  /** The candidate of an entry has the key, the name and the identifier of the entry. */
  lemma CandidateNames(env: Env, p: Header, o: ObservedEdge, layer: Layer)
    ensures var k := ObservedCandidate(env, p, o, layer);
            && MakeKey(k.relation, k.from, k.to, k.domain) == ObservedKey(p, o)
            && k.relationship == ObservedName(env, p, o) && k.id == ObservedEdgeId(env, p, o)
            && k.domain == p.domain && !k.crossDomain && !Swapped(k.relation, k.from, k.to)
    ensures ResolveLayer(o.relation, o.layer) == Some(layer) ==> SaysEntry(ObservedCandidate(env, p, o, layer), o)
  {
    hide Less, ResolveLayer;
  }

  /** Putting or dropping one edge of a key concerns that key alone. */
  lemma OneEdgeAgrees(before: Edges, after: Edges, key: EdgeKey, x: EdgeId)
    requires x in before ==> KeyOf(before[x]) == key
    requires after == before || after == before - {x} || (x in after && KeyOf(after[x]) == key
                                                          && after == before[x := after[x]])
    ensures AgreeOutside(before, after, {key}) && SameButFor(before, after, key, Some(x))
  {
    hide KeyOf;
  }

  lemma OneKeyOutside(before: Lookups, e: Edge)
    ensures KeysOutside(before, Enlist(before, e), {KeyOf(e)}) && KeysOutside(before, Delist(before, e), {KeyOf(e)})
    ensures forall l, d :: KeyOf(l) == KeyOf(d) == KeyOf(e) ==> KeysOutside(before, Relist(before, l, d), {KeyOf(e)})
  {
    hide KeyOf;
  }

  lemma PresentEdgeSettles(env: Env, c: Context, p: Header, d: Draft, o: ObservedEdge, k: Candidate)
    requires d.Draft? && o.present && PresentEdge(env, c, p, d, k).Draft?
    requires MakeKey(k.relation, k.from, k.to, k.domain) == ObservedKey(p, o)
    requires k.relationship == ObservedName(env, p, o) && k.id == ObservedEdgeId(env, p, o) && SaysEntry(k, o)
    ensures var d' := PresentEdge(env, c, p, d, k);
            && AgreeOutside(d.g.edges, d'.g.edges, {ObservedKey(p, o)})
            && KeysOutside(d.g.lookups, d'.g.lookups, {ObservedKey(p, o)})
            && Settled(env, p, d.g, d'.g.edges, o)
            && d'.keys == d.keys && d'.nodeIds == d.nodeIds
  {
    hide ValidateCandidate, MakeKey, PublishedEdge, RestatedByPublication, AgreeOutside, SameButFor,
         KeysOutside, Enlist, Relist, ObservedEdgeId, ObservedName, KeyOf, Carries, SaysEntry;
    var g, d' := d.g, PresentEdge(env, c, p, d, k);
    ValidCandidateFacts(g, k, FindKey(g, MakeKey(k.relation, k.from, k.to, k.domain)).None?);
    PublishedNames(c, p, g, k);
    PublishedCarry(c, p, g, k, o);
    OneEdgeAgrees(g.edges, d'.g.edges, ObservedKey(p, o), k.id);
    AgreeSelf(g);
    KeysWiden(g.lookups, g.lookups, ObservedKey(p, o));
    if k.id in d'.g.edges {
      OneKeyOutside(g.lookups, d'.g.edges[k.id]);
    }
    assert Target(env, p, g, o) == Some(k.id);
    assert Stands(env, p, g, d'.g.edges, o);
  }

  lemma KeysWiden(before: Lookups, after: Lookups, key: EdgeKey)
    requires KeysOutside(before, after, {})
    ensures KeysOutside(before, after, {key})
  {
  }

  lemma AbsentEdgeSettles(env: Env, p: Header, d: Draft, o: ObservedEdge)
    requires d.Draft? && !o.present && AbsentEdge(p, d, ObservedKey(p, o)).Draft?
    ensures var d' := AbsentEdge(p, d, ObservedKey(p, o));
            && AgreeOutside(d.g.edges, d'.g.edges, {ObservedKey(p, o)})
            && KeysOutside(d.g.lookups, d'.g.lookups, {ObservedKey(p, o)})
            && Settled(env, p, d.g, d'.g.edges, o)
            && d'.keys == d.keys && d'.nodeIds == d.nodeIds
  {
    hide MakeKey, AgreeOutside, SameButFor, KeysOutside, Enlist, Delist, Relist, ObservedKey;
    var g, d', key := d.g, AbsentEdge(p, d, ObservedKey(p, o)), ObservedKey(p, o);
    var found := FindKey(g, key);
    AgreeSelf(g);
    KeysWiden(g.lookups, g.lookups, key);
    if found.None? {
      NothingAgrees(g.edges, key);
      assert Settled(env, p, g, d'.g.edges, o);
    } else {
      assert KeyOf(RetiredEdge(g.edges[found.value])) == key;
      OneEdgeAgrees(g.edges, d'.g.edges, key, found.value);
      OneKeyOutside(g.lookups, g.edges[found.value]);
      assert Target(env, p, g, o) == found;
      assert SameButFor(g.edges, d'.g.edges, key, found);
      assert StruckOut(p, g, d'.g.edges, key, found.value);
      assert Settled(env, p, g, d'.g.edges, o);
    }
  }

  lemma NothingAgrees(edges: Edges, key: EdgeKey)
    ensures AgreeOutside(edges, edges, {key}) && SameButFor(edges, edges, key, None)
  {
    hide KeyOf;
  }

  lemma EdgeEntrySettles(env: Env, c: Context, p: Header, d: Draft, o: ObservedEdge)
    requires d.Draft? && EdgeEntry(env, c, p, d, o).Draft?
    ensures var d' := EdgeEntry(env, c, p, d, o);
            && AgreeOutside(d.g.edges, d'.g.edges, {ObservedKey(p, o)})
            && KeysOutside(d.g.lookups, d'.g.lookups, {ObservedKey(p, o)})
            && Settled(env, p, d.g, d'.g.edges, o)
            && d'.keys == d.keys + {ObservedKey(p, o)} && ObservedKey(p, o) !in d.keys && d'.nodeIds == d.nodeIds
  {
    hide AgreeOutside, KeysOutside, Settled, PresentEdge, AbsentEdge, ObservedCandidate, MakeKey, SaysEntry;
    var noted := d.(keys := d.keys + {ObservedKey(p, o)});
    if o.present {
      var layer := ResolveLayer(o.relation, o.layer).value;
      CandidateNames(env, p, o, layer);
      PresentEdgeSettles(env, c, p, noted, o, ObservedCandidate(env, p, o, layer));
    } else {
      AbsentEdgeSettles(env, p, noted, o);
    }
  }

  // ---- What all edge entries do ------------------------------------------------------------------

  lemma AgreeChain(a: Edges, b: Edges, c: Edges, keys: set<EdgeKey>, more: set<EdgeKey>)
    requires AgreeOutside(a, b, keys) && AgreeOutside(b, c, more)
    ensures AgreeOutside(a, c, keys + more)
  {
    hide KeyOf;
  }

  lemma KeysChain(a: Lookups, b: Lookups, c: Lookups, keys: set<EdgeKey>, more: set<EdgeKey>)
    requires KeysOutside(a, b, keys) && KeysOutside(b, c, more)
    ensures KeysOutside(a, c, keys + more)
  {
  }

  /** What is settled stays settled while other keys are processed. */
  lemma StaysSettled(env: Env, p: Header, g: Graph, before: Edges, after: Edges, o: ObservedEdge, key: EdgeKey)
    requires Settled(env, p, g, before, o) && AgreeOutside(before, after, {key}) && key != ObservedKey(p, o)
    ensures Settled(env, p, g, after, o)
  {
    hide MakeKey, FindKey;
    assert forall e :: e in after && KeyOf(after[e]) == ObservedKey(p, o) ==> e in before && after[e] == before[e];
    assert forall e :: e in before && KeyOf(before[e]) == ObservedKey(p, o) ==> e in after && after[e] == before[e];
  }

  /** While a key is not processed, its lookup and its edges are as at first. */
  lemma FoundAsAtFirst(first: Graph, before: Graph, keys: set<EdgeKey>, key: EdgeKey)
    requires AgreeOutside(first.edges, before.edges, keys) && KeysOutside(first.lookups, before.lookups, keys)
    requires key !in keys
    ensures FindKey(before, key) == FindKey(first, key)
    ensures forall e :: (e in before.edges && KeyOf(before.edges[e]) == key)
                        <==> (e in first.edges && KeyOf(first.edges[e]) == key)
    ensures forall e :: e in before.edges && KeyOf(before.edges[e]) == key ==> before.edges[e] == first.edges[e]
  {
    hide KeyOf;
  }

  lemma SettledFromFirst(env: Env, p: Header, first: Graph, before: Graph, after: Edges, keys: set<EdgeKey>,
                         o: ObservedEdge)
    requires Settled(env, p, before, after, o) && ObservedKey(p, o) !in keys
    requires AgreeOutside(first.edges, before.edges, keys) && KeysOutside(first.lookups, before.lookups, keys)
    ensures Settled(env, p, first, after, o)
  {
    hide AgreeOutside, KeysOutside, MakeKey, FindKey;
    FoundAsAtFirst(first, before, keys, ObservedKey(p, o));
    assert Target(env, p, first, o) == Target(env, p, before, o);
  }

  lemma AgreeSelf(g: Graph)
    ensures AgreeOutside(g.edges, g.edges, {}) && KeysOutside(g.lookups, g.lookups, {})
  {
    hide KeyOf;
  }

  /** After all entries every one of them is settled, and nothing else has changed. */
  lemma {:induction false} EdgeEntriesSettle(env: Env, c: Context, p: Header, d: Draft, os: seq<ObservedEdge>)
    requires d.Draft? && d.keys == {} && EdgeEntries(env, c, p, d, os).Draft?
    ensures var d' := EdgeEntries(env, c, p, d, os);
            && AgreeOutside(d.g.edges, d'.g.edges, ObservedKeys(p, os))
            && KeysOutside(d.g.lookups, d'.g.lookups, ObservedKeys(p, os))
            && d'.keys == ObservedKeys(p, os) && d'.nodeIds == d.nodeIds
            && (forall i :: 0 <= i < |os| ==> Settled(env, p, d.g, d'.g.edges, os[i]))
            && (forall i, j :: 0 <= i < j < |os| ==> ObservedKey(p, os[i]) != ObservedKey(p, os[j]))
  {
    hide EdgeEntry, AgreeOutside, KeysOutside, Settled, ObservedKey;
    if os == [] {
      assert ObservedKeys(p, os) == {};
      AgreeSelf(d.g);
    } else {
      var init, o := os[..|os| - 1], os[|os| - 1];
      var before := EdgeEntries(env, c, p, d, init);
      EdgeEntriesSettle(env, c, p, d, init);
      EdgeEntrySettles(env, c, p, before, o);
      var after := EdgeEntry(env, c, p, before, o);
      LastEntry(os);
      assert ObservedKeys(p, os) == ObservedKeys(p, init) + {ObservedKey(p, o)};
      AgreeChain(d.g.edges, before.g.edges, after.g.edges, ObservedKeys(p, init), {ObservedKey(p, o)});
      KeysChain(d.g.lookups, before.g.lookups, after.g.lookups, ObservedKeys(p, init), {ObservedKey(p, o)});
      forall i | 0 <= i < |os|
        ensures Settled(env, p, d.g, after.g.edges, os[i])
        ensures i < |init| ==> ObservedKey(p, os[i]) != ObservedKey(p, o)
      {
        if i < |init| {
          assert os[i] == init[i] && ObservedKey(p, os[i]) in ObservedKeys(p, init);
          StaysSettled(env, p, d.g, before.g.edges, after.g.edges, os[i], ObservedKey(p, o));
        } else {
          SettledFromFirst(env, p, d.g, before.g, after.g.edges, ObservedKeys(p, init), o);
        }
      }
    }
  }
}
