/** The undo log over the stored graph: single changes are noted as they are made, and rolled back newest first. */
module StateTxns {
  import opened Types
  import opened Graphs
  import opened Indexes
  import opened GraphIndex
  import opened GraphStates

  datatype Entry =
    | NodeInserted(nodeId: NodeId)
    | NodeErased(node: Node)
    | NodeUpdated(node: Node)
    | EdgeInserted(edgeId: EdgeId)
    | EdgeErased(edge: Edge)
    | EdgeUpdated(edge: Edge)
    | GenerationChanged(generation: Counter)

  /** What undoing one entry makes of a graph; erased things come
      back, inserted ones go, and nothing else is created. */
  function UndoOne(g: Graph, entry: Entry): Graph {
    match entry
    case NodeInserted(id) => g.(nodes := g.nodes - {id})
    case NodeErased(n) => if n.id in g.nodes then g else g.(nodes := g.nodes[n.id := n])
    case NodeUpdated(n) => if n.id in g.nodes then g.(nodes := g.nodes[n.id := n]) else g
    case EdgeInserted(id) => WithoutStored(g, id)
    case EdgeErased(e) => if e.id in g.edges then g else WithStored(g, e)
    case EdgeUpdated(e) => if e.id in g.edges then WithStored(g, e) else g
    case GenerationChanged(generation) => g.(generation := generation)
  }

  /** The graph with this edge stored, instead of what went by its identifier, and filed. */
  function WithStored(g: Graph, e: Edge): Graph {
    g.(edges := g.edges[e.id := e],
       lookups := if e.id in g.edges then Relist(g.lookups, g.edges[e.id], e) else Enlist(g.lookups, e))
  }

  function WithoutStored(g: Graph, id: EdgeId): Graph {
    if id in g.edges then g.(edges := g.edges - {id}, lookups := Delist(g.lookups, g.edges[id])) else g
  }

  /** What undoing one entry makes of the indexes. */
  function UndoneIndex(g: Graph, ix: Index, entry: Entry): Index {
    var declared := g.domains.Keys;
    match entry
    case NodeInserted(id) => if id in g.nodes then WithoutNode(ix, declared, g.nodes[id]) else ix
    case NodeErased(n) => if n.id in g.nodes then ix else WithNode(ix, n)
    case NodeUpdated(n) => if n.id in g.nodes then WithNode(WithoutNode(ix, declared, g.nodes[n.id]), n) else ix
    case EdgeInserted(id) => if id in g.edges then WithoutEdge(ix, declared, g.edges[id]) else ix
    case EdgeErased(e) => if e.id in g.edges then ix else WithEdge(ix, e)
    case EdgeUpdated(e) => if e.id in g.edges then WithEdge(WithoutEdge(ix, declared, g.edges[e.id]), e) else ix
    case GenerationChanged(_) => ix
  }

  /** The graph after undoing the whole log, newest first. */
  function Unwound(g: Graph, entries: seq<Entry>): Graph
    decreases |entries|
  {
    if entries == [] then g else Unwound(UndoOne(g, entries[|entries| - 1]), entries[..|entries| - 1])
  }

  /** The indexes after undoing the whole log, newest first. */
  function UnwoundIndex(g: Graph, ix: Index, entries: seq<Entry>): Index
    decreases |entries|
  {
    if entries == [] then ix
    else
      var last := entries[|entries| - 1];
      UnwoundIndex(UndoOne(g, last), UndoneIndex(g, ix, last), entries[..|entries| - 1])
  }

  /** Alike, whatever the lookups find. */
  predicate SameButLookups(g: Graph, h: Graph) {
    g == h.(lookups := g.lookups)
  }

  /** Undoing the log newest first leads from one graph back to another, whatever the lookups find, through graphs that
      the indexes can describe. */
  ghost predicate LeadsBack(g: Graph, entries: seq<Entry>, start: Graph)
    decreases |entries|
  {
    if entries == [] then SameButLookups(g, start)
    else
      var h := UndoOne(g, entries[|entries| - 1]);
      Plain(h) && LeadsBack(h, entries[..|entries| - 1], start)
  }

  /** The indexes describe the graph, but for what the key and the name lookup may miss. */
  ghost predicate Described(ix: Index, g: Graph) {
    Plain(g) && PlainlyIndexed(ix, g) && g.lookups == Found(ix)
  }

  lemma UndoneIsIndexed(g: Graph, ix: Index, entry: Entry)
    requires Described(ix, g) && Plain(UndoOne(g, entry))
    ensures Described(UndoneIndex(g, ix, entry), UndoOne(g, entry))
  {
    hide Plain, PlainlyIndexed, WithNode, WithoutNode, WithEdge, WithoutEdge, Tidy, FullyIndexed, Enlist, Delist, Found;
    match entry
    case NodeInserted(id) =>
      assert id !in g.nodes ==> g.nodes - {id} == g.nodes;
      if id in g.nodes {
        ErasedNodeIndexed(g, ix, id);
        NodesKeepLookups(ix, g.domains.Keys, g.nodes[id], g.nodes[id]);
      }
    case NodeErased(n) =>
      if n.id !in g.nodes {
        InsertedNodeIndexed(g, ix, n);
        NodesKeepLookups(ix, g.domains.Keys, n, n);
      }
    case NodeUpdated(n) =>
      if n.id in g.nodes {
        ReplacedNodeIndexed(g, ix, n);
        NodesKeepLookups(ix, g.domains.Keys, g.nodes[n.id], n);
      }
    case EdgeInserted(id) =>
      if id in g.edges {
        ErasedEdgeIndexed(g, ix, id);
        FiledLookups(ix, g.domains.Keys, g.edges[id]);
      }
    case EdgeErased(e) =>
      if e.id !in g.edges {
        InsertedEdgeIndexed(g, ix, e);
        FiledLookups(ix, g.domains.Keys, e);
      }
    case EdgeUpdated(e) =>
      if e.id in g.edges {
        ReplacedEdgeIndexed(g, ix, e);
        FiledLookups(ix, g.domains.Keys, g.edges[e.id]);
        FiledLookups(WithoutEdge(ix, g.domains.Keys, g.edges[e.id]), g.domains.Keys, e);
      }
    case GenerationChanged(_) =>
      AnyGeneration(ix, g, entry.generation);
  }

  lemma NodesKeepLookups(ix: Index, declared: set<DomainId>, m: Node, n: Node)
    ensures Found(WithNode(ix, n)) == Found(ix) && Found(WithoutNode(ix, declared, m)) == Found(ix)
    ensures Found(WithNode(WithoutNode(ix, declared, m), n)) == Found(ix)
  {
    hide JoinNode, LeaveNode, Unpoint;
  }

  lemma AnyGeneration(ix: Index, g: Graph, generation: Counter)
    ensures PlainlyIndexed(ix, g) ==> PlainlyIndexed(ix, g.(generation := generation))
  {
    hide Bucketed, NodesIndexed, LookupsAim;
  }

  /** A log that leads back restores the graph it leads back to, and the indexes describe what comes out. */
  lemma {:induction false} UnwoundRestores(g: Graph, ix: Index, entries: seq<Entry>, start: Graph)
    requires Described(ix, g) && LeadsBack(g, entries, start)
    ensures SameButLookups(Unwound(g, entries), start)
    ensures Described(UnwoundIndex(g, ix, entries), Unwound(g, entries))
    decreases |entries|
  {
    hide Plain, UndoOne, UndoneIndex, Described;
    if entries != [] {
      var last := entries[|entries| - 1];
      UndoneIsIndexed(g, ix, last);
      UnwoundRestores(UndoOne(g, last), UndoneIndex(g, ix, last), entries[..|entries| - 1], start);
    }
  }

  // ---- Changes and their notes --------------------------------------------------------------

  /** One change to the graph, as a caller may make it. */
  datatype Change =
    | InsertNode(node: Node)
    | EraseNode(nodeId: NodeId)
    | UpdateNode(node: Node)
    | InsertEdge(edge: Edge)
    | EraseEdge(edgeId: EdgeId)
    | UpdateEdge(edge: Edge)
    | SetGeneration(generation: Counter)

  function Apply(g: Graph, c: Change): Graph {
    match c
    case InsertNode(n) => if n.id in g.nodes then g else g.(nodes := g.nodes[n.id := n])
    case EraseNode(id) => g.(nodes := g.nodes - {id})
    case UpdateNode(n) => if n.id in g.nodes then g.(nodes := g.nodes[n.id := n]) else g
    case InsertEdge(e) => if e.id in g.edges then g else WithStored(g, e)
    case EraseEdge(id) => WithoutStored(g, id)
    case UpdateEdge(e) => if e.id in g.edges then WithStored(g, e) else g
    case SetGeneration(generation) => g.(generation := generation)
  }

  /** The note is about the stored value as it was, and an insertion is noted only for a free identifier. */
  ghost predicate Notes(g: Graph, c: Change, entry: Entry) {
    match c
    case InsertNode(n) => entry == NodeInserted(n.id) && n.id !in g.nodes
    case EraseNode(id) => id in g.nodes && entry == NodeErased(g.nodes[id])
    case UpdateNode(n) => n.id in g.nodes && entry == NodeUpdated(g.nodes[n.id])
    case InsertEdge(e) => entry == EdgeInserted(e.id) && e.id !in g.edges
    case EraseEdge(id) => id in g.edges && entry == EdgeErased(g.edges[id])
    case UpdateEdge(e) => e.id in g.edges && entry == EdgeUpdated(g.edges[e.id])
    case SetGeneration(_) => entry == GenerationChanged(g.generation)
  }

  /** The change takes no lookup over that its undoing could not give back: what it removes or replaces is found, and
      what it newly files under is free. */
  predicate TakesNothing(g: Graph, c: Change) {
    match c
    case InsertEdge(e) => KeyOf(e) !in g.lookups.keys && e.relationship !in g.lookups.names
    case EraseEdge(id) => id in g.edges ==> Listed(g.lookups, g.edges[id])
    case UpdateEdge(e) =>
      e.id in g.edges ==>
        && Listed(g.lookups, g.edges[e.id])
        && (KeyOf(e) != KeyOf(g.edges[e.id]) ==> KeyOf(e) !in g.lookups.keys)
        && (e.relationship != g.edges[e.id].relationship ==> e.relationship !in g.lookups.names)
    case _ => true
  }

  /** Withdrawing and filing anew gives back what was found before, exactly when nothing is taken over. */
  lemma LookupsGivenBack(l: Lookups, d: Edge, e: Edge)
    ensures Delist(Enlist(l, e), e) == l <==> KeyOf(e) !in l.keys && e.relationship !in l.names
    ensures Enlist(Delist(l, e), e) == l <==> Listed(l, e)
    ensures d.id == e.id ==>
              (Relist(Relist(l, d, e), e, d) == l <==>
               && Listed(l, d)
               && (KeyOf(e) != KeyOf(d) ==> KeyOf(e) !in l.keys)
               && (e.relationship != d.relationship ==> e.relationship !in l.names))
  {
    hide KeyOf;
    LookupGivenBack(l.keys, KeyOf(d), KeyOf(e), d.id);
    LookupGivenBack(l.names, d.relationship, e.relationship, d.id);
    LookupGivenBack(l.keys, KeyOf(e), KeyOf(e), e.id);
    LookupGivenBack(l.names, e.relationship, e.relationship, e.id);
  }

  lemma LookupGivenBack<K>(lookup: map<K, EdgeId>, j: K, k: K, v: EdgeId)
    ensures Unpoint(lookup[k := v], k, v) == lookup <==> k !in lookup
    ensures Unpoint(lookup, k, v)[k := v] == lookup <==> k in lookup && lookup[k] == v
    ensures Unpoint(Unpoint(lookup, j, v)[k := v], k, v)[j := v] == lookup
            <==> j in lookup && lookup[j] == v && (k != j ==> k !in lookup)
  {
    var there := Unpoint(Unpoint(lookup, j, v)[k := v], k, v)[j := v];
    if j in lookup && lookup[j] == v && (k != j ==> k !in lookup) {
      assert there == lookup;
    } else if k != j && k in lookup && j in lookup && lookup[j] == v {
      assert k !in there;
    }
    if k !in lookup {
      assert Unpoint(lookup[k := v], k, v) == lookup;
    }
    if k in lookup && lookup[k] == v {
      assert Unpoint(lookup, k, v)[k := v] == lookup;
    } else {
      assert k in Unpoint(lookup, k, v)[k := v];
    }
  }

  /** A change with its note can be undone; what the lookups find comes back exactly when nothing was taken over. */
  lemma NoteUndoes(g: Graph, c: Change, entry: Entry)
    requires Notes(g, c, entry) && NodesFiled(g.nodes) && EdgesFiled(g.edges)
    ensures SameButLookups(UndoOne(Apply(g, c), entry), g)
    ensures UndoOne(Apply(g, c), entry) == g <==> TakesNothing(g, c)
  {
    hide KeyOf, Enlist, Delist, Listed;
    match c
    case InsertNode(n) => assert g.nodes[n.id := n] - {n.id} == g.nodes;
    case EraseNode(id) => assert (g.nodes - {id})[id := g.nodes[id]] == g.nodes;
    case UpdateNode(n) => assert g.nodes[n.id := n][n.id := g.nodes[n.id]] == g.nodes;
    case InsertEdge(e) =>
      LookupsGivenBack(g.lookups, e, e);
      assert g.edges[e.id := e] - {e.id} == g.edges;
    case EraseEdge(id) =>
      LookupsGivenBack(g.lookups, g.edges[id], g.edges[id]);
      assert (g.edges - {id})[id := g.edges[id]] == g.edges;
    case UpdateEdge(e) =>
      LookupsGivenBack(g.lookups, g.edges[e.id], e);
      assert g.edges[e.id := e][e.id := g.edges[e.id]] == g.edges;
    case SetGeneration(_) =>
  }

  /** An insertion noted for an identifier that was taken is the one
      note that does not undo: it erases what was there. */
  lemma NoteOfTakenIdErases(g: Graph, e: Edge)
    ensures SameButLookups(UndoOne(Apply(g, InsertEdge(e)), EdgeInserted(e.id)), g) <==> e.id !in g.edges
  {
    hide KeyOf, Enlist, Delist;
    if e.id in g.edges {
      assert e.id !in g.edges - {e.id};
    } else {
      assert g.edges[e.id := e] - {e.id} == g.edges;
    }
  }

  /** Undoing a node update is exact only when the noted value is the one that was stored. */
  lemma NoteOfOtherValueIsInexact(g: Graph, n: Node, noted: Node)
    requires n.id in g.nodes && noted.id == n.id
    ensures UndoOne(Apply(g, UpdateNode(n)), NodeUpdated(noted)) == g <==> noted == g.nodes[n.id]
  {
    var back := g.nodes[n.id := n][n.id := noted];
    if noted == g.nodes[n.id] {
      assert back == g.nodes;
    } else {
      assert back[n.id] == noted;
    }
  }

  /** Undoing does to the topology what it does whatever the lookups find. */
  lemma UndoneAnyLookups(g: Graph, h: Graph, entry: Entry)
    requires SameButLookups(g, h)
    ensures SameButLookups(UndoOne(g, entry), UndoOne(h, entry))
  {
    hide Enlist, Delist;
  }

  lemma PlainAnyLookups(g: Graph, h: Graph)
    requires SameButLookups(g, h)
    ensures Plain(g) <==> Plain(h)
  {
    hide EntitiesUnique, NodesFiled, EdgesFiled, SecondariesDeclared;
  }

  lemma {:induction false} LeadsBackAnyLookups(g: Graph, h: Graph, entries: seq<Entry>, start: Graph)
    requires SameButLookups(g, h) && LeadsBack(h, entries, start)
    ensures LeadsBack(g, entries, start)
    decreases |entries|
  {
    hide UndoOne, Plain;
    if entries != [] {
      var last := entries[|entries| - 1];
      UndoneAnyLookups(g, h, last);
      PlainAnyLookups(UndoOne(g, last), UndoOne(h, last));
      LeadsBackAnyLookups(UndoOne(g, last), UndoOne(h, last), entries[..|entries| - 1], start);
    }
  }

  lemma OneMoreLeadsBack(g: Graph, entries: seq<Entry>, start: Graph, c: Change, entry: Entry)
    requires Plain(g) && Notes(g, c, entry) && LeadsBack(g, entries, start)
    ensures LeadsBack(Apply(g, c), entries + [entry], start)
    ensures TakesNothing(g, c) ==> Unwound(Apply(g, c), entries + [entry]) == Unwound(g, entries)
  {
    hide EntitiesUnique, SecondariesDeclared, NodesFiled, EdgesFiled, UndoOne, Apply, Notes, TakesNothing;
    NoteUndoes(g, c, entry);
    assert (entries + [entry])[..|entries|] == entries;
    var back := UndoOne(Apply(g, c), entry);
    PlainAnyLookups(back, g);
    LeadsBackAnyLookups(back, g, entries, start);
  }

  /** Any number of changes, each applied to what the previous ones left and noted as it is made; clean says that none
      of them takes a lookup over. */
  ghost predicate Changes(start: Graph, g: Graph, changes: seq<Change>, entries: seq<Entry>, clean: bool)
    decreases |changes|
  {
    if changes == [] then g == start && entries == []
    else
      exists h: Graph ::
        && Plain(h) && entries != [] && g == Apply(h, changes[|changes| - 1])
        && Notes(h, changes[|changes| - 1], entries[|entries| - 1])
        && (clean ==> TakesNothing(h, changes[|changes| - 1]))
        && Changes(start, h, changes[..|changes| - 1], entries[..|entries| - 1], clean)
  }

  /** However many changes and however often they touch the same entry, the log leads back to where they began; if none
      takes a lookup over, it restores what the lookups found as well. */
  lemma {:induction false} ChangesLeadBack(start: Graph, g: Graph, changes: seq<Change>, entries: seq<Entry>,
                                           clean: bool)
    requires Changes(start, g, changes, entries, clean)
    ensures LeadsBack(g, entries, start)
    ensures clean ==> Unwound(g, entries) == start
    decreases |changes|
  {
    hide Plain, Apply, Notes, TakesNothing;
    if changes != [] {
      var last := |entries| - 1;
      var h: Graph :|
        && Plain(h) && entries != [] && g == Apply(h, changes[|changes| - 1])
        && Notes(h, changes[|changes| - 1], entries[last])
        && (clean ==> TakesNothing(h, changes[|changes| - 1]))
        && Changes(start, h, changes[..|changes| - 1], entries[..last], clean);
      ChangesLeadBack(start, h, changes[..|changes| - 1], entries[..last], clean);
      OneMoreLeadsBack(h, entries[..last], start, changes[|changes| - 1], entries[last]);
      assert entries[..last] + [entries[last]] == entries;
    }
  }

  class StateTxn {
    const state: GraphState
    var entries: seq<Entry>
    var active: bool

    constructor (state: GraphState)
      ensures this.state == state && entries == [] && active
    {
      this.state := state;
      entries := [];
      active := true;
    }

    method Note(entry: Entry)
      modifies `entries
      ensures entries == old(entries) + [entry]
    {
      entries := entries + [entry];
    }

    method Commit()
      modifies `active
      ensures !active
    {
      active := false;
    }

    /** Undo everything noted, newest first. */
    method Rollback()
      modifies state, this
      ensures !active
      ensures old(active) ==>
                && state.Content() == Unwound(old(state.Content()), old(entries))
                && state.ix == UnwoundIndex(old(state.Content()), old(state.ix), old(entries))
                && entries == []
      ensures !old(active) ==>
                state.Content() == old(state.Content()) && state.ix == old(state.ix) && entries == old(entries)
    {
      hide UndoOne, UndoneIndex;
      if !active {
        return;
      }
      var i := |entries|;
      assert entries[..i] == entries;
      while i > 0
        invariant 0 <= i <= |entries| && active && entries == old(entries)
        invariant Unwound(state.Content(), entries[..i]) == Unwound(old(state.Content()), old(entries))
        invariant UnwoundIndex(state.Content(), state.ix, entries[..i])
                  == UnwoundIndex(old(state.Content()), old(state.ix), old(entries))
      {
        i := i - 1;
        assert entries[..i + 1][..i] == entries[..i];
        Undo(entries[i]);
      }
      entries, active := [], false;
    }

    method Undo(entry: Entry)
      modifies state
      ensures state.Content() == UndoOne(old(state.Content()), entry)
      ensures state.ix == UndoneIndex(old(state.Content()), old(state.ix), entry)
    {
      hide FullyIndexed, PlainlyIndexed, Plain, Tidy, WithNode, WithoutNode, WithEdge, WithoutEdge, Enlist, Delist;
      var ok;
      match entry {
        case NodeInserted(id) => ok := state.EraseNode(id);
        case NodeErased(n) => ok := state.InsertNode(n);
        case NodeUpdated(n) => ok := state.UpdateNode(n);
        case EdgeInserted(id) => ok := state.EraseEdge(id);
        case EdgeErased(e) => ok := state.InsertEdge(e);
        case EdgeUpdated(e) => ok := state.UpdateEdge(e);
        case GenerationChanged(generation) => state.generation := generation;
      }
    }
  }
}
