/** Writing the whole state, reading it back, and what a restarted coordinator makes of it. */
module Recovery {
  import opened Types
  import opened Graphs
  import opened Authority
  import opened AuthorityLaws
  import opened Mutations
  import opened MutationLaws
  import opened Reconcile
  import opened Codec
  import opened Records
  import opened Image
  import opened ImageRecords
  import opened NamingLaws
  import opened Runs
  import opened LookupLaws
  import opened GraphStates
  import opened Rewrites

  const STATE_TAG: Bytes := "FABRIC-TOPOLOGY-STATE"
  const FORMAT_VERSION: nat := 1

  datatype StoreLimits = StoreLimits(limits: Limits, maxRecords: nat)

  /** The state as an image holds it: everything in some order. */
  datatype Stored = Stored(
    generation: Counter, ordinal: Counter, epoch: Counter, nodes: seq<Node>, edges: seq<Edge>,
    domains: seq<DomainDefinition>, rules: seq<CrossDomainRule>, boots: seq<BootId>)

  function Min(a: nat, b: nat): nat {
    if a <= b then a else b
  }

  // ---- Encoding -----------------------------------------------------------------------------

  const HEADER_SHAPES: seq<Shape> := [TextShape(64, false), NumberShape(4, U32), WORD, WORD, WORD]

  function HeaderFields(s: Stored): seq<Field> {
    [Text(STATE_TAG), Number(4, FORMAT_VERSION), Word(s.generation), Word(s.ordinal), Word(s.epoch)]
  }

  function PutState(s: Stored): Bytes {
    PutAll(HeaderFields(s)) + (PutCounted(8, PutNode, s.nodes) + (PutCounted(8, PutEdge, s.edges)
      + (PutCounted(8, PutDomain, s.domains) + (PutCounted(8, PutRule, s.rules) + PutCounted(8, PutBoot, s.boots)))))
  }

  // ---- Decoding -----------------------------------------------------------------------------

  function NodeDecoder(limits: Limits): Decoder<Node> { s => TakeNode(limits, s) }

  function EdgeDecoder(limits: Limits): Decoder<Edge> { s => TakeEdge(limits, s) }

  function DomainDecoder(limits: Limits): Decoder<DomainDefinition> { s => TakeDomain(limits, s) }

  /** What the loader insists on while it inserts: identities present and used once, no dangling endpoint or rule. */
  ghost predicate Insertable(s: Stored) {
    && (forall i :: 0 <= i < |s.nodes| ==> s.nodes[i].id != "" && s.nodes[i].entity != "")
    && (forall i, j :: 0 <= i < j < |s.nodes| ==> s.nodes[i].id != s.nodes[j].id)
    && (forall i :: 0 <= i < |s.edges| ==> s.edges[i].id != "" && s.edges[i].relationship != "")
    && (forall i, j :: 0 <= i < j < |s.edges| ==>
          s.edges[i].id != s.edges[j].id && s.edges[i].relationship != s.edges[j].relationship)
    && (forall i :: 0 <= i < |s.edges| ==> s.edges[i].from in NodesFrom(s.nodes) && s.edges[i].to in NodesFrom(s.nodes))
    && (forall i :: 0 <= i < |s.domains| ==> s.domains[i].id != "")
    && (forall i, j :: 0 <= i < j < |s.domains| ==> s.domains[i].id != s.domains[j].id)
    && (forall i :: 0 <= i < |s.rules| ==>
        s.rules[i].from in DomainsFrom(s.domains) && s.rules[i].to in DomainsFrom(s.domains))
  }

  function NodesFrom(nodes: seq<Node>): Nodes {
    if nodes == [] then map[] else NodesFrom(nodes[..|nodes| - 1])[nodes[|nodes| - 1].id := nodes[|nodes| - 1]]
  }

  function EdgesFrom(edges: seq<Edge>): Edges {
    if edges == [] then map[] else EdgesFrom(edges[..|edges| - 1])[edges[|edges| - 1].id := edges[|edges| - 1]]
  }

  function DomainsFrom(domains: seq<DomainDefinition>): map<DomainId, DomainDefinition> {
    if domains == [] then map[]
        else DomainsFrom(domains[..|domains| - 1])[domains[|domains| - 1].id := domains[|domains| - 1]]
  }

  function TakeLists(l: StoreLimits, s: Bytes)
    : Reading<(seq<Node>, seq<Edge>, seq<DomainDefinition>, seq<CrossDomainRule>, seq<BootId>)>
  {
    var nodes := TakeCounted(8, NodeDecoder(l.limits), Min(l.limits.maxNodes, l.maxRecords), s);
    if nodes.None? then None
    else
      var edges := TakeCounted(8, EdgeDecoder(l.limits), Min(l.limits.maxEdges, l.maxRecords), nodes.value.1);
      if edges.None? then None
      else
        var domains := TakeCounted(8, DomainDecoder(l.limits), l.maxRecords, edges.value.1);
        if domains.None? then None
        else
          var rules := TakeCounted(8, TakeRule, l.maxRecords, domains.value.1);
          if rules.None? then None
          else
            var boots := TakeCounted(8, TakeBoot, l.maxRecords, rules.value.1);
            if boots.None? then None
            else Some(((nodes.value.0, edges.value.0, domains.value.0, rules.value.0, boots.value.0), boots.value.1))
  }

  ghost function TakeState(l: StoreLimits, s: Bytes): Option<Stored> {
    var header := TakeAll(HEADER_SHAPES, s);
    if header.None? then None
    else
      TakenConforms(HEADER_SHAPES, s);
      var fs := header.value.0;
      assert forall i :: 0 <= i < 5 ==> Acceptable(HEADER_SHAPES[i], fs[i]);
      if fs[0].text != STATE_TAG || fs[1].value != FORMAT_VERSION then None
      else
        var lists := TakeLists(l, header.value.1);
        if lists.None? || lists.value.1 != [] then None
        else
          var (nodes, edges, domains, rules, boots) := lists.value.0;
          var stored := Stored(FromWord(fs[2]), FromWord(fs[3]), FromWord(fs[4]), nodes, edges, domains, rules, boots);
          if Insertable(stored) then Some(stored) else None
  }

  // ---- Round trip -------------------------------------------------------------------------------

  /** A state whose every record fits and whose counts are within the limits. */
  predicate Storable(s: Stored, l: StoreLimits) {
    && Encodable(l.limits) && l.maxRecords < U64
    && |s.nodes| <= Min(l.limits.maxNodes, l.maxRecords) && |s.edges| <= Min(l.limits.maxEdges, l.maxRecords)
    && |s.domains| <= l.maxRecords && |s.rules| <= l.maxRecords && |s.boots| <= l.maxRecords
    && (forall i :: 0 <= i < |s.nodes| ==> StorableNode(s.nodes[i], l.limits))
    && (forall i :: 0 <= i < |s.edges| ==> StorableEdge(s.edges[i], l.limits))
    && (forall i :: 0 <= i < |s.domains| ==> StorableDomain(s.domains[i], l.limits))
    && (forall i :: 0 <= i < |s.rules| ==> StorableRule(s.rules[i]))
    && (forall i :: 0 <= i < |s.boots| ==> Identifier(s.boots[i]))
  }

  lemma NodesInvert(s: Stored, l: StoreLimits)
    requires Storable(s, l)
    ensures forall i :: 0 <= i < |s.nodes| ==> Inverts(PutNode, NodeDecoder(l.limits), s.nodes[i])
  {
    hide PutNode, TakeNode, StorableNode, StorableEdge, StorableDomain, StorableRule, Identifier;
    forall i, rest: Bytes | 0 <= i < |s.nodes|
      ensures NodeDecoder(l.limits)(PutNode(s.nodes[i]) + rest) == Some((s.nodes[i], rest))
    {
      NodeRoundTrip(s.nodes[i], l.limits, rest);
    }
  }

  lemma EdgesInvert(s: Stored, l: StoreLimits)
    requires Storable(s, l)
    ensures forall i :: 0 <= i < |s.edges| ==> Inverts(PutEdge, EdgeDecoder(l.limits), s.edges[i])
  {
    hide PutEdge, TakeEdge, StorableNode, StorableEdge, StorableDomain, StorableRule, Identifier;
    forall i, rest: Bytes | 0 <= i < |s.edges|
      ensures EdgeDecoder(l.limits)(PutEdge(s.edges[i]) + rest) == Some((s.edges[i], rest))
    {
      EdgeRoundTrip(s.edges[i], l.limits, rest);
    }
  }

  lemma SmallRecordsInvert(s: Stored, l: StoreLimits)
    requires Storable(s, l)
    ensures forall i :: 0 <= i < |s.domains| ==> Inverts(PutDomain, DomainDecoder(l.limits), s.domains[i])
    ensures forall i :: 0 <= i < |s.rules| ==> Inverts(PutRule, TakeRule, s.rules[i])
    ensures forall i :: 0 <= i < |s.boots| ==> Inverts(PutBoot, TakeBoot, s.boots[i])
  {
    hide PutDomain, TakeDomain, PutRule, TakeRule, PutBoot, TakeBoot, StorableNode, StorableEdge, StorableDomain,
         StorableRule,
         Identifier;
    forall i, rest: Bytes | 0 <= i < |s.domains|
      ensures DomainDecoder(l.limits)(PutDomain(s.domains[i]) + rest) == Some((s.domains[i], rest))
    {
      DomainRoundTrip(s.domains[i], l.limits, rest);
    }
    forall i, rest: Bytes | 0 <= i < |s.rules|
      ensures TakeRule(PutRule(s.rules[i]) + rest) == Some((s.rules[i], rest))
    {
      RuleRoundTrip(s.rules[i], rest);
    }
    forall i, rest: Bytes | 0 <= i < |s.boots|
      ensures TakeBoot(PutBoot(s.boots[i]) + rest) == Some((s.boots[i], rest))
    {
      BootRoundTrip(s.boots[i], rest);
    }
  }

  lemma ListsRoundTrip(s: Stored, l: StoreLimits)
    requires Storable(s, l)
    ensures var lists := PutCounted(8, PutNode, s.nodes) + (PutCounted(8, PutEdge, s.edges)
              + (PutCounted(8, PutDomain, s.domains)
                 + (PutCounted(8, PutRule, s.rules) + PutCounted(8, PutBoot, s.boots))));
            TakeLists(l, lists) == Some(((s.nodes, s.edges, s.domains, s.rules, s.boots), []))
  {
    hide PutCounted, TakeCounted, Inverts, StorableNode, StorableEdge, StorableDomain, StorableRule, Identifier, Pow256;
    Widths();
    NodesInvert(s, l);
    EdgesInvert(s, l);
    SmallRecordsInvert(s, l);
    var boots := PutCounted(8, PutBoot, s.boots);
    var rules := PutCounted(8, PutRule, s.rules) + boots;
    var domains := PutCounted(8, PutDomain, s.domains) + rules;
    var edges := PutCounted(8, PutEdge, s.edges) + domains;
    assert boots + [] == boots;
    TakeCountedPut(8, PutBoot, TakeBoot, l.maxRecords, s.boots, []);
    TakeCountedPut(8, PutRule, TakeRule, l.maxRecords, s.rules, boots);
    TakeCountedPut(8, PutDomain, DomainDecoder(l.limits), l.maxRecords, s.domains, rules);
    TakeCountedPut(8, PutEdge, EdgeDecoder(l.limits), Min(l.limits.maxEdges, l.maxRecords), s.edges, domains);
    TakeCountedPut(8, PutNode, NodeDecoder(l.limits), Min(l.limits.maxNodes, l.maxRecords), s.nodes, edges);
  }

  lemma HeaderFits(s: Stored)
    ensures AllFit(HEADER_SHAPES, HeaderFields(s))
  {
    hide Pow256;
    Widths();
  }

  /** Decoding an encoded image returns it exactly, when its identities may be inserted, and is refused otherwise. */
  lemma ImageRoundTrip(s: Stored, l: StoreLimits)
    requires Storable(s, l)
    ensures TakeState(l, PutState(s)) == if Insertable(s) then Some(s) else None
  {
    hide PutCounted, TakeLists, PutAll, TakeAll, Insertable, Storable, AllFit;
    HeaderFits(s);
    var lists := PutCounted(8, PutNode, s.nodes) + (PutCounted(8, PutEdge, s.edges)
      + (PutCounted(8, PutDomain, s.domains) + (PutCounted(8, PutRule, s.rules) + PutCounted(8, PutBoot, s.boots))));
    TakeAllPut(HEADER_SHAPES, HeaderFields(s), lists);
    ListsRoundTrip(s, l);
  }

  // ---- The graph behind an image -------------------------------------------------------------------

  /** The image lists this state: every record of it once, in any order. */
  ghost predicate Lists(s: Stored, g: Graph, epoch: Counter, fenced: set<BootId>) {
    && s.generation == g.generation && s.ordinal == g.ordinal && s.epoch == epoch
    && (forall i :: 0 <= i < |s.nodes| ==> s.nodes[i].id in g.nodes && g.nodes[s.nodes[i].id] == s.nodes[i])
    && (forall i, j :: 0 <= i < j < |s.nodes| ==> s.nodes[i].id != s.nodes[j].id)
    && (forall n :: n in g.nodes ==> g.nodes[n] in s.nodes)
    && (forall i :: 0 <= i < |s.edges| ==> s.edges[i].id in g.edges && g.edges[s.edges[i].id] == s.edges[i])
    && (forall i, j :: 0 <= i < j < |s.edges| ==> s.edges[i].id != s.edges[j].id)
    && (forall e :: e in g.edges ==> g.edges[e] in s.edges)
    && (forall i :: 0 <= i < |s.domains| ==> s.domains[i].id in g.domains && g.domains[s.domains[i].id] == s.domains[i])
    && (forall i, j :: 0 <= i < j < |s.domains| ==> s.domains[i].id != s.domains[j].id)
    && (forall d :: d in g.domains ==> g.domains[d] in s.domains)
    && multiset(s.rules) == multiset(g.rules)
    && (forall b :: b in s.boots <==> b in fenced)
  }

  /** The loader files the edges as it reads them. */
  function LookupsFrom(edges: seq<Edge>): Lookups {
    if edges == [] then NO_LOOKUPS else Enlist(LookupsFrom(edges[..|edges| - 1]), edges[|edges| - 1])
  }

  function GraphOf(s: Stored): Graph {
    Graph(NodesFrom(s.nodes), EdgesFrom(s.edges), LookupsFrom(s.edges), s.generation, s.ordinal, DomainsFrom(s.domains),
          s.rules)
  }

  lemma {:induction false} NodesFromList(nodes: seq<Node>)
    ensures forall id :: id in NodesFrom(nodes) ==> NodesFrom(nodes)[id] in nodes && NodesFrom(nodes)[id].id == id
    ensures forall n :: n in nodes ==> n.id in NodesFrom(nodes)
  {
    if nodes != [] {
      NodesFromList(nodes[..|nodes| - 1]);
    }
  }

  lemma {:induction false} EdgesFromList(edges: seq<Edge>)
    ensures forall id :: id in EdgesFrom(edges) ==> EdgesFrom(edges)[id] in edges && EdgesFrom(edges)[id].id == id
    ensures forall e :: e in edges ==> e.id in EdgesFrom(edges)
  {
    if edges != [] {
      EdgesFromList(edges[..|edges| - 1]);
    }
  }

  lemma {:induction false} DomainsFromList(domains: seq<DomainDefinition>)
    ensures forall id :: id in DomainsFrom(domains) ==>
        DomainsFrom(domains)[id] in domains && DomainsFrom(domains)[id].id == id
    ensures forall d :: d in domains ==> d.id in DomainsFrom(domains)
  {
    if domains != [] {
      DomainsFromList(domains[..|domains| - 1]);
    }
  }

  /** The graph behind a listing is the graph that was listed, up to the order of its rules and what is found. */
  lemma ListedGraph(s: Stored, g: Graph, epoch: Counter, fenced: set<BootId>)
    requires NodesFiled(g.nodes) && EdgesFiled(g.edges) && Named(g) && Lists(s, g, epoch, fenced)
    ensures GraphOf(s) == g.(rules := s.rules, lookups := LookupsFrom(s.edges))
  {
    hide NodesFrom, EdgesFrom, DomainsFrom, LookupsFrom;
    NodesFromList(s.nodes);
    EdgesFromList(s.edges);
    DomainsFromList(s.domains);
    assert NodesFrom(s.nodes) == g.nodes;
    assert EdgesFrom(s.edges) == g.edges;
    assert DomainsFrom(s.domains) == g.domains;
  }

  /** Among edges of different keys and names, each is found however they are listed. */
  lemma {:induction false} EachIsFiled(edges: seq<Edge>, i: nat)
    requires i < |edges|
    requires forall j :: i < j < |edges| ==>
               KeyOf(edges[j]) != KeyOf(edges[i]) && edges[j].relationship != edges[i].relationship
    ensures Listed(LookupsFrom(edges), edges[i])
  {
    hide KeyOf;
    var n := |edges| - 1;
    if i < n {
      EachIsFiled(edges[..n], i);
    }
  }

  /** What is loaded is found by its key and its name exactly when neither is used twice, whatever was found before. */
  lemma LoadedIsComplete(s: Stored, g: Graph, epoch: Counter, fenced: set<BootId>)
    requires NodesFiled(g.nodes) && EdgesFiled(g.edges) && Named(g) && Lists(s, g, epoch, fenced)
    ensures Complete(GraphOf(s)) <==> KeysUnique(g.edges) && RelationshipsUnique(g.edges)
  {
    hide KeyOf, Named, LookupsFrom, GraphOf, Listed, Complete, KeysUnique, RelationshipsUnique;
    ListedGraph(s, g, epoch, fenced);
    CompleteIsListed(GraphOf(s));
    if Complete(GraphOf(s)) {
      CompleteIsUnique(GraphOf(s));
    } else if KeysUnique(g.edges) && RelationshipsUnique(g.edges) {
      forall e | e in g.edges
        ensures Listed(LookupsFrom(s.edges), g.edges[e])
      {
        var i :| 0 <= i < |s.edges| && s.edges[i] == g.edges[e];
        LaterDiffer(s, g, epoch, fenced, i);
        EachIsFiled(s.edges, i);
      }
    }
  }

  lemma LaterDiffer(s: Stored, g: Graph, epoch: Counter, fenced: set<BootId>, i: nat)
    requires KeysUnique(g.edges) && RelationshipsUnique(g.edges) && Lists(s, g, epoch, fenced) && i < |s.edges|
    ensures forall j :: i < j < |s.edges| ==>
              KeyOf(s.edges[j]) != KeyOf(s.edges[i]) && s.edges[j].relationship != s.edges[i].relationship
  {
    hide KeyOf;
    forall j | i < j < |s.edges|
      ensures KeyOf(s.edges[j]) != KeyOf(s.edges[i]) && s.edges[j].relationship != s.edges[i].relationship
    {
      assert s.edges[i].id != s.edges[j].id;
      assert g.edges[s.edges[i].id] == s.edges[i] && g.edges[s.edges[j].id] == s.edges[j];
    }
  }

  ghost predicate HasKey(edges: seq<Edge>, id: EdgeId, k: EdgeKey) {
    exists e :: e in edges && e.id == id && KeyOf(e) == k
  }

  ghost predicate HasName(edges: seq<Edge>, id: EdgeId, n: RelId) {
    exists e :: e in edges && e.id == id && e.relationship == n
  }

  /** What the loader has filed points to edges that have the key or the name. */
  lemma {:induction false} FiledAim(edges: seq<Edge>)
    ensures forall k :: k in LookupsFrom(edges).keys ==> HasKey(edges, LookupsFrom(edges).keys[k], k)
    ensures forall n :: n in LookupsFrom(edges).names ==> HasName(edges, LookupsFrom(edges).names[n], n)
  {
    hide KeyOf;
    if edges != [] {
      var init, last := edges[..|edges| - 1], edges[|edges| - 1];
      FiledAim(init);
      StillHad(init, last, LookupsFrom(init));
      assert edges == init + [last];
    }
  }

  lemma StillHad(edges: seq<Edge>, last: Edge, l: Lookups)
    requires forall k :: k in l.keys ==> HasKey(edges, l.keys[k], k)
    requires forall n :: n in l.names ==> HasName(edges, l.names[n], n)
    ensures forall k :: k in Enlist(l, last).keys ==> HasKey(edges + [last], Enlist(l, last).keys[k], k)
    ensures forall n :: n in Enlist(l, last).names ==> HasName(edges + [last], Enlist(l, last).names[n], n)
  {
    hide KeyOf;
    forall k | k in Enlist(l, last).keys
      ensures HasKey(edges + [last], Enlist(l, last).keys[k], k)
    {
      var e :| (e in edges || e == last) && e.id == Enlist(l, last).keys[k] && KeyOf(e) == k;
      assert e in edges + [last];
    }
    forall n | n in Enlist(l, last).names
      ensures HasName(edges + [last], Enlist(l, last).names[n], n)
    {
      var e :| (e in edges || e == last) && e.id == Enlist(l, last).names[n] && e.relationship == n;
      assert e in edges + [last];
    }
  }

  lemma LoadedIsAimed(s: Stored, g: Graph, epoch: Counter, fenced: set<BootId>)
    requires NodesFiled(g.nodes) && EdgesFiled(g.edges) && Named(g) && Lists(s, g, epoch, fenced)
    ensures Aimed(GraphOf(s))
  {
    hide KeyOf, Named, LookupsFrom, NodesFrom, EdgesFrom, DomainsFrom;
    ListedGraph(s, g, epoch, fenced);
    FiledAim(s.edges);
  }

  /** Lookups that find everything, and nothing else, are the only ones. */
  lemma OnlyLookupsThatFind(g: Graph, h: Graph)
    requires g.edges == h.edges && Aimed(g) && Aimed(h) && Complete(g) && Complete(h)
    ensures g.lookups == h.lookups
  {
    hide KeyOf;
    forall k
      ensures k in g.lookups.keys <==> k in h.lookups.keys
      ensures k in g.lookups.keys ==> h.lookups.keys[k] == g.lookups.keys[k]
    {
      assert k in g.lookups.keys ==> FindKey(h, KeyOf(h.edges[g.lookups.keys[k]])) == Some(g.lookups.keys[k]);
      assert k in h.lookups.keys ==> FindKey(g, KeyOf(g.edges[h.lookups.keys[k]])) == Some(h.lookups.keys[k]);
    }
    forall n
      ensures n in g.lookups.names <==> n in h.lookups.names
      ensures n in g.lookups.names ==> h.lookups.names[n] == g.lookups.names[n]
    {
      assert n in g.lookups.names ==>
          FindRelationship(h, h.edges[g.lookups.names[n]].relationship) == Some(g.lookups.names[n]);
      assert n in h.lookups.names ==>
          FindRelationship(g, g.edges[h.lookups.names[n]].relationship) == Some(h.lookups.names[n]);
    }
    assert g.lookups.keys == h.lookups.keys && g.lookups.names == h.lookups.names;
  }

  /** A listing is what the loader accepts exactly when no relationship name is used twice. */
  lemma ListedIsInsertable(s: Stored, g: Graph, epoch: Counter, fenced: set<BootId>)
    requires Shaped(g) && Named(g) && Lists(s, g, epoch, fenced)
    ensures Insertable(s) <==> RelationshipsUnique(g.edges)
  {
    hide NodesFrom, EdgesFrom, DomainsFrom, AcyclicWhereRequired, EntitiesUnique, EdgesNormalized, NodeScopesDeclared,
         EdgeScopesDeclared, RelationshipsUnique;
    ListedGraph(s, g, epoch, fenced);
    ListedNames(s, g, epoch, fenced);
    forall i | 0 <= i < |s.rules|
      ensures s.rules[i].from in g.domains && s.rules[i].to in g.domains
    {
      assert s.rules[i] in multiset(s.rules);
      assert s.rules[i] in g.rules;
    }
  }

  lemma ListedNames(s: Stored, g: Graph, epoch: Counter, fenced: set<BootId>)
    requires EdgesFiled(g.edges) && Lists(s, g, epoch, fenced)
    ensures (forall i, j :: 0 <= i < j < |s.edges| ==> s.edges[i].relationship != s.edges[j].relationship)
            <==> RelationshipsUnique(g.edges)
  {
    if forall i, j :: 0 <= i < j < |s.edges| ==> s.edges[i].relationship != s.edges[j].relationship {
      forall d, e | d in g.edges && e in g.edges && g.edges[d].relationship == g.edges[e].relationship
        ensures d == e
      {
        var i :| 0 <= i < |s.edges| && s.edges[i] == g.edges[d];
        var j :| 0 <= j < |s.edges| && s.edges[j] == g.edges[e];
        assert i == j;
      }
    }
  }

  /** What loading gives back: everything but what the lookups found; that is found anew, all of it unless a
      relationship is stored twice, and so comes back where all of it was found. */
  ghost predicate GivesBack(loaded: Stored, g: Graph, epoch: Counter, fenced: set<BootId>) {
    var h := GraphOf(loaded);
    && h == g.(rules := loaded.rules, lookups := h.lookups) && multiset(loaded.rules) == multiset(g.rules)
    && loaded.epoch == epoch && (set b | b in loaded.boots) == fenced
    && (Complete(h) <==> KeysUnique(g.edges))
    && (Aimed(g) && Complete(g) ==> h.lookups == g.lookups)
  }

  /** Saving a state within the limits and loading it again gives the same state back, exactly
      when no relationship name is used twice; the loader refuses every other image. */
  lemma SaveThenLoad(g: Graph, epoch: Counter, fenced: set<BootId>, s: Stored, l: StoreLimits)
    requires Shaped(g) && Named(g) && Lists(s, g, epoch, fenced) && Storable(s, l)
    ensures var loaded := TakeState(l, PutState(s));
            && (loaded.Some? <==> RelationshipsUnique(g.edges))
            && (loaded.Some? ==> GivesBack(loaded.value, g, epoch, fenced))
  {
    hide Storable, Insertable, PutState, TakeState, Shaped, Named, GraphOf, RelationshipsUnique, KeysUnique, Complete,
         Aimed;
    ListedIsInsertable(s, g, epoch, fenced);
    ImageRoundTrip(s, l);
    ShapedIsFiled(g);
    ListedGraph(s, g, epoch, fenced);
    LoadedIsComplete(s, g, epoch, fenced);
    LoadedIsAimed(s, g, epoch, fenced);
    if RelationshipsUnique(g.edges) && Complete(g) && Aimed(g) {
      CompleteIsUnique(g);
      OnlyLookupsThatFind(GraphOf(s), g);
    }
  }

  lemma ShapedIsFiled(g: Graph)
    requires Shaped(g)
    ensures NodesFiled(g.nodes) && EdgesFiled(g.edges)
  {
    hide AcyclicWhereRequired, EntitiesUnique;
  }

  /** Every state a process can reach from the empty one, as long as node entries have identifiers,
      can be saved and loaded exactly when no relationship name is used twice in it. */
  lemma ReachableSavesAndLoads(states: seq<State>, ops: seq<Op>, i: nat, s: Stored, l: StoreLimits)
    requires Run(states, ops) && i < |states| && states[0] == Fresh(states[0].epoch)
    requires forall k :: 0 <= k < i ==> EntriesNamed(ops[k])
    requires Lists(s, states[i].graph, states[i].epoch, states[i].fenced) && Storable(s, l)
    ensures var loaded := TakeState(l, PutState(s));
            && (loaded.Some? <==> RelationshipsUnique(states[i].graph.edges))
            && (loaded.Some? ==> GivesBack(loaded.value, states[i].graph, states[i].epoch, states[i].fenced))
  {
    hide Storable, PutState, TakeState, Shaped, Named, GivesBack, RelationshipsUnique, Step, Lists, EntriesNamed,
         Healthy;
    FreshIsHealthy(states[0].epoch);
    HealthyIsCoherent(states[0]);
    RunsStayCoherent(states, ops, i);
    FreshIsNamed(states[0].epoch);
    RunsStayNamed(states, ops, i);
    SaveThenLoad(states[i].graph, states[i].epoch, states[i].fenced, s, l);
  }

  lemma FreshIsNamed(epoch: Counter)
    ensures Named(Fresh(epoch).graph)
  {
  }

  // ---- Recovery --------------------------------------------------------------------------------------

  /** A restarted coordinator cannot claim that anything a publisher told it is still so. */
  function RecoveredEdge(e: Edge): Edge {
    if e.provenance.publisher == "" || !Live(e) || e.lifecycle == RevalidationRequired then e else Demoted(e)
  }

  function RecoveredEdges(edges: Edges): Edges {
    map e | e in edges :: RecoveredEdge(edges[e])
  }

  /** The edges that recovery demotes, and so files anew. */
  function RecoveredIds(edges: Edges): set<EdgeId> {
    set e | e in edges && edges[e].provenance.publisher != "" && Live(edges[e])
            && edges[e].lifecycle != RevalidationRequired
  }

  predicate Vouched(env: Env, n: Node) {
    env.directory.None? || !RegistryMoved(env, n)
  }

  /** A node the registry no longer vouches for in this very incarnation. */
  function RecoveredNode(env: Env, n: Node): Node {
    if Vouched(env, n) then n else n.(lifecycle := RevalidationRequired, generation := Bump(n.generation))
  }

  function RecoveredNodes(env: Env, nodes: Nodes): Nodes {
    map n | n in nodes :: RecoveredNode(env, nodes[n])
  }

  function NextEpoch(stored: Counter, initial: Counter): Counter {
    if Bump(stored) < initial then initial else Bump(stored)
  }

  function Recovered(env: Env, s: Stored, initial: Counter): State {
    var g := GraphOf(s);
    State(g.(nodes := RecoveredNodes(env, g.nodes), edges := RecoveredEdges(g.edges),
             lookups := Refiled(g.lookups, g.edges, RecoveredIds(g.edges))),
          NextEpoch(s.epoch, initial), map[],
          set b | b in s.boots && ValidIdentifier(b, MAX_IDENTIFIER), [])
  }

  lemma RecoveredEdgesReshaped(edges: Edges)
    ensures Reshaped(edges, RecoveredEdges(edges)) && SameNames(edges, RecoveredEdges(edges))
    ensures forall e :: e in edges && edges[e].provenance.publisher != "" ==>
        RecoveredEdges(edges)[e].lifecycle != Current
  {
    forall e | e in edges
      ensures SameShape(edges[e], RecoveredEdge(edges[e]))
      ensures Ages(edges[e].lifecycle, RecoveredEdge(edges[e]).lifecycle)
      ensures edges[e].relationship == RecoveredEdge(edges[e]).relationship
      ensures edges[e].provenance.publisher != "" ==> RecoveredEdge(edges[e]).lifecycle != Current
    {
    }
  }

  lemma RecoveredKeepsOrder(env: Env, g: Graph)
    requires Shaped(g)
    ensures KeepsOrder(g, g.(nodes := RecoveredNodes(env, g.nodes), edges := RecoveredEdges(g.edges)))
  {
    hide AcyclicWhereRequired, EndpointsExist, EdgesNormalized, EdgeScopesDeclared, EdgesFiled, RecoveredEdges,
         Reshaped,
         SameNames, RegistryMoved, KeepsUnique;
    RecoveredEdgesReshaped(g.edges);
    ReshapedKeepsUnique(g.edges, RecoveredEdges(g.edges));
    ReshapedStaysShaped(g, RecoveredNodes(env, g.nodes), RecoveredEdges(g.edges), g.generation);
  }

  /** A live edge that rests on a publisher's word has lapsed, unless it has to be revalidated already; every other edge
      is back as it was. */
  ghost predicate ComesBack(before: Edge, after: Edge) {
    if before.provenance.publisher != "" && before.lifecycle !in {Lifecycle.Retired, Superseded, RevalidationRequired}
    then Lapsed(before, after)
    else after == before
  }

  /** A node is back as it was while the registry has its entity in service in this very incarnation; otherwise it has
      to be revalidated, and nothing else about it has changed. */
  ghost predicate NodeComesBack(env: Env, before: Node, after: Node) {
    var vouched := env.directory.None?
                   || (&& before.entity in env.directory.value
                       && var record := env.directory.value[before.entity];
                          !record.retired && !record.superseded && record.generation == before.entityGeneration);
    if vouched then after == before
    else
      && after.lifecycle == RevalidationRequired
      && after.generation == (if CanAdvance(before.generation) then before.generation + 1 else before.generation)
      && before == after.(lifecycle := before.lifecycle, generation := before.generation)
  }

  lemma RecoveredComeBack(env: Env, nodes: Nodes, edges: Edges)
    ensures forall n :: n in nodes ==> NodeComesBack(env, nodes[n], RecoveredNodes(env, nodes)[n])
    ensures forall e :: e in edges ==> ComesBack(edges[e], RecoveredEdges(edges)[e])
  {
  }

  /** What recovery keeps and what it takes away: generation, structure and fenced boots stay, edges come back but for
      the currentness of what rests on a publisher's word, authority goes, the epoch moves past the stored one unless it
      cannot, and everything is found again, whatever was lost, unless a key or a name is held twice. */
  ghost predicate RecoversFrom(t: State, g: Graph, epoch: Counter, fenced: set<BootId>) {
    && Coherent(t) && KeepsUnique(g.edges, t.graph.edges) && Reshaped(g.edges, t.graph.edges)
    && (Complete(t.graph) <==> KeysUnique(g.edges) && RelationshipsUnique(g.edges))
    && t.graph.generation == g.generation && t.graph.ordinal == g.ordinal && t.graph.domains == g.domains
    && t.graph.nodes.Keys == g.nodes.Keys
    && (forall n :: n in g.nodes ==>
          t.graph.nodes[n] == g.nodes[n].(lifecycle := t.graph.nodes[n].lifecycle,
              generation := t.graph.nodes[n].generation))
    && (forall e :: e in t.graph.edges && t.graph.edges[e].provenance.publisher != "" ==>
        t.graph.edges[e].lifecycle != Current)
    && t.graph.edges.Keys == g.edges.Keys && (forall e :: e in g.edges ==> ComesBack(g.edges[e], t.graph.edges[e]))
    && multiset(t.graph.rules) == multiset(g.rules) && t.publishers == map[] && t.fenced == fenced && t.ledger == []
    && (t.epoch > epoch || (t.epoch == epoch && !CanAdvance(epoch)))
  }

  lemma RecoveryIsConservative(env: Env, g: Graph, epoch: Counter, fenced: set<BootId>, s: Stored, initial: Counter)
    requires Shaped(g) && Named(g) && Lists(s, g, epoch, fenced)
    requires forall b :: b in fenced ==> ValidIdentifier(b, MAX_IDENTIFIER)
    ensures RecoversFrom(Recovered(env, s, initial), g, epoch, fenced)
    ensures forall n :: n in g.nodes ==> NodeComesBack(env, g.nodes[n], Recovered(env, s, initial).graph.nodes[n])
    ensures Recovered(env, s, initial).epoch == if Bump(epoch) < initial then initial else Bump(epoch)
  {
    hide Shaped, Named, ValidIdentifier, GraphOf, RecoveredEdges, RegistryMoved, Reshaped, KeysUnique,
         RelationshipsUnique, Refiled, RecoveredIds, Complete, ComesBack, NodeComesBack;
    RecoveredComeBack(env, g.nodes, g.edges);
    ShapedIsFiled(g);
    ListedGraph(s, g, epoch, fenced);
    ShapedAnyLookups(g);
    var h := GraphOf(s);
    OtherFieldsKeepOrder(g.(lookups := h.lookups), 0, s.rules);
    RecoveredKeepsOrder(env, h);
    ShapedAnyLookups(h.(nodes := RecoveredNodes(env, h.nodes), edges := RecoveredEdges(h.edges)));
    RecoveredEdgesReshaped(g.edges);
    RecoveredKeepsProvenance(g.edges);
    LoadedIsComplete(s, g, epoch, fenced);
    RecoveredIsComplete(env, h, Recovered(env, s, initial).graph);
  }

  /** Recovery loses nothing that is found, and finds nothing new. */
  lemma RecoveredIsComplete(env: Env, h: Graph, t: Graph)
    requires EdgesFiled(h.edges) && t.edges == RecoveredEdges(h.edges)
    requires t.lookups == Refiled(h.lookups, h.edges, RecoveredIds(h.edges))
    requires Complete(h) <==> KeysUnique(h.edges) && RelationshipsUnique(h.edges)
    ensures Complete(t) <==> Complete(h)
  {
    hide RecoveredEdges, Reshaped, KeysUnique, RelationshipsUnique, Refiled, RecoveredIds, Complete, SameNames, Listed;
    RecoveredEdgesReshaped(h.edges);
    AlikeUnique(h.edges, t.edges);
    if Complete(t) {
      CompleteIsUnique(t);
    } else if Complete(h) {
      CompleteIsListed(h);
      RefiledAll(h.lookups, h.edges, RecoveredIds(h.edges));
      AlikeListed(t.lookups, h.edges, t.edges);
      CompleteIsListed(t);
    }
  }

  lemma AlikeUnique(before: Edges, after: Edges)
    requires Reshaped(before, after) && SameNames(before, after)
    ensures KeysUnique(after) ==> KeysUnique(before)
    ensures RelationshipsUnique(after) ==> RelationshipsUnique(before)
  {
    hide MakeKey, EdgesAge;
    forall e | e in before
      ensures KeyOf(before[e]) == KeyOf(after[e])
    {
      assert SameShape(before[e], after[e]);
    }
  }

  lemma RecoveredKeepsProvenance(edges: Edges)
    ensures forall e :: e in RecoveredEdges(edges) ==>
              e in edges && RecoveredEdges(edges)[e].provenance == edges[e].provenance
  {
  }

  /** Loading: decode, validate the whole graph, then recover. */
  ghost function Load(env: Env, l: StoreLimits, bytes: Bytes, initial: Counter): Option<State> {
    var s := TakeState(l, bytes);
    if s.None? || !ValidTopology(env, GraphOf(s.value)) then None else Some(Recovered(env, s.value, initial))
  }

  /** A restart from a saved image either refuses it, because a name is used twice or the registry has moved on,
      or recovers conservatively, and then every edge is found again by its key and its name. */
  lemma RestartIsConservative(env: Env, g: Graph, epoch: Counter, fenced: set<BootId>, s: Stored, l: StoreLimits,
                              initial: Counter)
    requires Shaped(g) && Named(g) && Lists(s, g, epoch, fenced) && Storable(s, l)
    requires forall b :: b in fenced ==> ValidIdentifier(b, MAX_IDENTIFIER)
    ensures var loaded := Load(env, l, PutState(s), initial);
            && (loaded.Some? <==> RelationshipsUnique(g.edges) && ValidTopology(env, g))
            && (loaded.Some? ==>
                  && RecoversFrom(loaded.value, g, epoch, fenced) && Complete(loaded.value.graph)
                  && forall n :: n in g.nodes ==> NodeComesBack(env, g.nodes[n], loaded.value.graph.nodes[n]))
  {
    hide Shaped, Named, ValidIdentifier, GraphOf, Recovered, Storable, TakeState, PutState, ValidTopology, Coherent,
         Insertable, Lists, RelationshipsUnique, Complete, KeysUnique, KeepsUnique, Reshaped, ComesBack, NodeComesBack;
    ListedIsInsertable(s, g, epoch, fenced);
    ImageRoundTrip(s, l);
    ShapedIsFiled(g);
    ListedGraph(s, g, epoch, fenced);
    RecoveryIsConservative(env, g, epoch, fenced, s, initial);
    ValidityIsTopological(env, g, GraphOf(s));
  }

  /** Validation looks at nodes and edges only, and among the edges at whether a relationship is stored twice. */
  lemma ValidityIsTopological(env: Env, g: Graph, h: Graph)
    requires h.nodes == g.nodes && h.edges == g.edges
    ensures ValidTopology(env, g) <==> ValidTopology(env, h)
    ensures ValidTopology(env, g) ==> KeysUnique(g.edges)
  {
    hide NodeValid, EndpointsPermitted, LayerPermitted, ScopeValid, KeysUnique, SlotsExclusive, AcyclicWhereRequired;
    forall e | e in g.edges
      ensures EdgeValid(g, g.edges[e]) <==> EdgeValid(h, g.edges[e])
    {
    }
  }

  lemma RecoveryAges(t: State, g: Graph, epoch: Counter, fenced: set<BootId>, e: EdgeId)
    requires RecoversFrom(t, g, epoch, fenced) && e in g.edges && e in t.graph.edges
    ensures Coherent(t) && Ages(g.edges[e].lifecycle, t.graph.edges[e].lifecycle)
  {
    hide Coherent, Complete, KeysUnique, RelationshipsUnique, KeepsUnique, ComesBack;
  }

  /** While an edge stays in the graph, lifecycles only age, through a
      run, a restart from its last state, and another run. */
  lemma LifecyclesAgeAcrossRestart(before: seq<State>, ops: seq<Op>, after: seq<State>, more: seq<Op>,
                                   fenced: set<BootId>, e: EdgeId)
    requires Run(before, ops) && Coherent(before[0]) && Run(after, more)
    requires RecoversFrom(after[0], before[|ops|].graph, before[|ops|].epoch, fenced)
    requires forall i :: 0 <= i < |before| ==> e in before[i].graph.edges
    requires forall i :: 0 <= i < |after| ==> e in after[i].graph.edges
    ensures Ages(before[0].graph.edges[e].lifecycle, after[|more|].graph.edges[e].lifecycle)
  {
    hide Step, Coherent, RecoversFrom;
    RecoveryAges(after[0], before[|ops|].graph, before[|ops|].epoch, fenced, e);
    LifecyclesOnlyAge(before, ops, 0, |ops|, e);
    LifecyclesOnlyAge(after, more, 0, |more|, e);
  }

  // ---- Recovery in place --------------------------------------------------------------------------------

  function PartlyVouched(env: Env, nodes: Nodes, rest: set<NodeId>): Nodes {
    map n | n in nodes :: if n in rest then nodes[n] else RecoveredNode(env, nodes[n])
  }

  lemma PartlyVouchedPlain(env: Env, g: Graph, rest: set<NodeId>)
    requires Plain(g)
    ensures Plain(g.(nodes := PartlyVouched(env, g.nodes, rest)))
  {
    hide EdgesFiled, SecondariesDeclared, RegistryMoved;
  }

  /** Demote every relationship that rests on a publisher's word, re-indexing each. */
  method RecoverEdges(g: GraphState)
    requires g.Firm()
    modifies g
    ensures g.Firm()
    ensures g.Content() == old(g.Content()).(edges := RecoveredEdges(old(g.edges)),
                                             lookups := Refiled(old(g.Content()).lookups, old(g.edges),
                                                                RecoveredIds(old(g.edges))))
  {
    hide Plain, PlainlyIndexed, RecoveredEdges, Preserves, Rewritten, Refiled;
    var ids := RecoveredIds(g.edges);
    RecoveryRewrites(g.edges, ids);
    Rewrite(g, ids, Demoted);
  }

  lemma RecoveryRewrites(edges: Edges, ids: set<EdgeId>)
    requires ids == RecoveredIds(edges)
    ensures Rewritten(edges, ids, Demoted) == RecoveredEdges(edges) && Preserves(edges, ids, Demoted)
  {
  }

  /** Demote every node the registry no longer vouches for. */
  method RecoverNodes(g: GraphState, env: Env)
    requires g.Firm()
    modifies g
    ensures g.Firm() && g.Content() == old(g.Content()).(nodes := RecoveredNodes(env, old(g.nodes)))
  {
    hide Tidy, Plain, FullyIndexed, PlainlyIndexed, RegistryMoved, GraphIndex.WithNode, GraphIndex.WithoutNode,
         GraphIndex.Found;
    ghost var before := g.Content();
    var rest := g.nodes.Keys;
    assert PartlyVouched(env, g.nodes, rest) == g.nodes;
    while rest != {}
      invariant g.Firm() && rest <= before.nodes.Keys
      invariant g.Content() == before.(nodes := PartlyVouched(env, before.nodes, rest))
      decreases |rest|
    {
      var id :| id in rest;
      var stored := g.nodes[id];
      PartlyVouchedPlain(env, before, rest - {id});
      assert g.nodes[id := RecoveredNode(env, stored)] == PartlyVouched(env, before.nodes, rest - {id});
      rest := rest - {id};
      if !Vouched(env, stored) {
        var ok := g.MutateNode(id, (n: Node) => n.(lifecycle := RevalidationRequired,
            generation := Bump(n.generation)));
      } else {
        assert g.nodes[id := stored] == g.nodes;
      }
    }
    assert PartlyVouched(env, before.nodes, {}) == RecoveredNodes(env, before.nodes);
  }
}
