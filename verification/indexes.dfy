/** The derived indexes: what a rebuild makes of a graph, and how one entry is filed or withdrawn. */
module Indexes {
  import opened Types

  // ---- Buckets ------------------------------------------------------------------------

  type Buckets<!K, !V> = map<K, set<V>>

  predicate Has<K(==), V(==)>(index: Buckets<K, V>, k: K, v: V) {
    k in index && v in index[k]
  }

  /** The index holds exactly these pairs, and no bucket is empty. */
  ghost predicate Files<K(!new), V(!new)>(index: Buckets<K, V>, pairs: set<(K, V)>) {
    && (forall k :: k in index ==> index[k] != {})
    && (forall k, v :: Has(index, k, v) <==> (k, v) in pairs)
  }

  /** The pairs determine the index. */
  lemma FilesUnique<K(!new), V(!new)>(a: Buckets<K, V>, b: Buckets<K, V>, pairs: set<(K, V)>)
    requires Files(a, pairs) && Files(b, pairs)
    ensures a == b
  {
    forall k
      ensures k in a <==> k in b
      ensures k in a && k in b ==> a[k] == b[k]
    {
      if k in a {
        var v :| v in a[k];
        assert Has(a, k, v) && Has(b, k, v);
      }
      if k in b {
        var v :| v in b[k];
        assert Has(b, k, v) && Has(a, k, v);
      }
      if k in a && k in b {
        forall v
          ensures v in a[k] <==> v in b[k]
        {
          assert Has(a, k, v) <==> Has(b, k, v);
        }
      }
    }
  }

  function Into<K, V>(index: Buckets<K, V>, k: K, v: V): Buckets<K, V> {
    index[k := (if k in index then index[k] else {}) + {v}]
  }

  function OutOf<K, V>(index: Buckets<K, V>, k: K, v: V): Buckets<K, V> {
    if k !in index then index
    else if index[k] - {v} == {} then index - {k}
    else index[k := index[k] - {v}]
  }

  lemma IntoFiles<K(!new), V(!new)>(index: Buckets<K, V>, pairs: set<(K, V)>, k: K, v: V)
    requires Files(index, pairs)
    ensures Files(Into(index, k, v), pairs + {(k, v)})
  {
    var after := Into(index, k, v);
    forall j, w
      ensures Has(after, j, w) <==> (j, w) in pairs + {(k, v)}
    {
      assert Has(after, j, w) <==> Has(index, j, w) || (j == k && w == v);
    }
  }

  lemma OutOfFiles<K(!new), V(!new)>(index: Buckets<K, V>, pairs: set<(K, V)>, k: K, v: V)
    requires Files(index, pairs)
    ensures Files(OutOf(index, k, v), pairs - {(k, v)})
  {
    var after := OutOf(index, k, v);
    forall j, w
      ensures Has(after, j, w) <==> (j, w) in pairs - {(k, v)}
    {
      assert j == k && Has(index, k, w) && w != v ==> w in index[k] - {v};
      assert Has(after, j, w) <==> Has(index, j, w) && !(j == k && w == v);
    }
  }

  // ---- Lookups --------------------------------------------------------------------------

  ghost predicate Points<K(!new), V(!new)>(lookup: map<K, V>, pairs: set<(K, V)>) {
    forall k, v :: k in lookup && lookup[k] == v <==> (k, v) in pairs
  }

  lemma PointsUnique<K(!new), V(!new)>(a: map<K, V>, b: map<K, V>, pairs: set<(K, V)>)
    requires Points(a, pairs) && Points(b, pairs)
    ensures a == b
  {
    forall k
      ensures k in a <==> k in b
      ensures k in a && k in b ==> a[k] == b[k]
    {
      assert k in a ==> (k, a[k]) in pairs;
      assert k in b ==> (k, b[k]) in pairs;
    }
  }

  /** Withdraw an entry unless the key has meanwhile been taken over. */
  function Unpoint<K(==), V(==)>(lookup: map<K, V>, k: K, v: V): map<K, V> {
    if k in lookup && lookup[k] == v then lookup - {k} else lookup
  }

  lemma PointFiles<K(!new), V(!new)>(lookup: map<K, V>, pairs: set<(K, V)>, k: K, v: V)
    requires Points(lookup, pairs) && forall w :: (k, w) in pairs ==> w == v
    ensures Points(lookup[k := v], pairs + {(k, v)})
  {
    forall j, w
      ensures j in lookup[k := v] && lookup[k := v][j] == w <==> (j, w) in pairs + {(k, v)}
    {
      assert (j in lookup && lookup[j] == w) <==> (j, w) in pairs;
    }
  }

  lemma UnpointFiles<K(!new), V(!new)>(lookup: map<K, V>, pairs: set<(K, V)>, k: K, v: V)
    requires Points(lookup, pairs)
    ensures Points(Unpoint(lookup, k, v), pairs - {(k, v)})
  {
    forall j, w
      ensures j in Unpoint(lookup, k, v) && Unpoint(lookup, k, v)[j] == w <==> (j, w) in pairs - {(k, v)}
    {
      assert (j in lookup && lookup[j] == w) <==> (j, w) in pairs;
    }
  }

  /** Every key that something has points to something that has it: a rebuild, up to the choice among several. */
  ghost predicate Leads<K(!new), V(!new)>(lookup: map<K, V>, pairs: set<(K, V)>) {
    && (forall k :: k in lookup ==> (k, lookup[k]) in pairs)
    && (forall k, v :: (k, v) in pairs ==> k in lookup)
  }

  /** No key is had by two. */
  ghost predicate OneEach<K(!new), V(!new)>(pairs: set<(K, V)>) {
    forall k, v, w :: (k, v) in pairs && (k, w) in pairs ==> v == w
  }

  lemma LeadsIsPoints<K(!new), V(!new)>(lookup: map<K, V>, pairs: set<(K, V)>)
    requires OneEach(pairs)
    ensures Leads(lookup, pairs) <==> Points(lookup, pairs)
  {
    if Points(lookup, pairs) {
      assert forall k :: k in lookup ==> (k, lookup[k]) in pairs;
    }
    if Leads(lookup, pairs) {
      forall k, v
        ensures k in lookup && lookup[k] == v <==> (k, v) in pairs
      {
        assert (k, v) in pairs ==> k in lookup && (k, lookup[k]) in pairs;
      }
    }
  }

  lemma PointLeads<K(!new), V(!new)>(lookup: map<K, V>, pairs: set<(K, V)>, k: K, v: V)
    requires Leads(lookup, pairs)
    ensures Leads(lookup[k := v], pairs + {(k, v)})
  {
  }

  // ---- Scopes -----------------------------------------------------------------------------

  datatype Members = Members(nodes: set<NodeId>, edges: set<EdgeId>)

  type Rosters = map<DomainId, Members>

  function Roster(rosters: Rosters, d: DomainId): Members {
    if d in rosters then rosters[d] else Members({}, {})
  }

  /** A declared scope always has a roster; any other only while it has members. */
  ghost predicate Enrolled(rosters: Rosters, declared: set<DomainId>, nodes: set<(DomainId, NodeId)>,
                           edges: set<(DomainId, EdgeId)>) {
    && (forall d :: d in rosters <==> d in declared || Roster(rosters, d) != Members({}, {}))
    && (forall d, n :: n in Roster(rosters, d).nodes <==> (d, n) in nodes)
    && (forall d, e :: e in Roster(rosters, d).edges <==> (d, e) in edges)
  }

  lemma EnrolledUnique(a: Rosters, b: Rosters, declared: set<DomainId>, nodes: set<(DomainId, NodeId)>,
                       edges: set<(DomainId, EdgeId)>)
    requires Enrolled(a, declared, nodes, edges) && Enrolled(b, declared, nodes, edges)
    ensures a == b
  {
    forall d
      ensures Roster(a, d) == Roster(b, d)
    {
      forall n
        ensures n in Roster(a, d).nodes <==> n in Roster(b, d).nodes
      {
      }
      forall e
        ensures e in Roster(a, d).edges <==> e in Roster(b, d).edges
      {
      }
      assert Roster(a, d).nodes == Roster(b, d).nodes && Roster(a, d).edges == Roster(b, d).edges;
    }
    forall d
      ensures d in a <==> d in b
      ensures d in a && d in b ==> a[d] == b[d]
    {
      assert Roster(a, d) == Roster(b, d);
    }
  }

  function JoinNode(rosters: Rosters, d: DomainId, n: NodeId): Rosters {
    rosters[d := Roster(rosters, d).(nodes := Roster(rosters, d).nodes + {n})]
  }

  function JoinEdge(rosters: Rosters, d: DomainId, e: EdgeId): Rosters {
    rosters[d := Roster(rosters, d).(edges := Roster(rosters, d).edges + {e})]
  }

  /** Put back a roster that lost a member, or drop it when nothing keeps it. */
  function Settle(rosters: Rosters, declared: set<DomainId>, d: DomainId, m: Members): Rosters {
    if m == Members({}, {}) && d !in declared then rosters - {d} else rosters[d := m]
  }

  function LeaveNode(rosters: Rosters, declared: set<DomainId>, d: DomainId, n: NodeId): Rosters {
    if d !in rosters then rosters else Settle(rosters, declared, d, rosters[d].(nodes := rosters[d].nodes - {n}))
  }

  function LeaveEdge(rosters: Rosters, declared: set<DomainId>, d: DomainId, e: EdgeId): Rosters {
    if d !in rosters then rosters else Settle(rosters, declared, d, rosters[d].(edges := rosters[d].edges - {e}))
  }

  /** Leaving a secondary scope never drops its roster. */
  function LeaveSecondary(rosters: Rosters, d: DomainId, e: EdgeId): Rosters {
    if d !in rosters then rosters else rosters[d := rosters[d].(edges := rosters[d].edges - {e})]
  }

  lemma JoinNodeEnrolls(rosters: Rosters, declared: set<DomainId>, nodes: set<(DomainId, NodeId)>,
                        edges: set<(DomainId, EdgeId)>, d: DomainId, n: NodeId)
    requires Enrolled(rosters, declared, nodes, edges)
    ensures Enrolled(JoinNode(rosters, d, n), declared, nodes + {(d, n)}, edges)
  {
    var after := JoinNode(rosters, d, n);
    forall c
      ensures Roster(after, c).edges == Roster(rosters, c).edges
      ensures Roster(after, c).nodes == if c == d then Roster(rosters, c).nodes + {n} else Roster(rosters, c).nodes
    {
    }
    assert n in Roster(after, d).nodes;
  }

  lemma JoinEdgeEnrolls(rosters: Rosters, declared: set<DomainId>, nodes: set<(DomainId, NodeId)>,
                        edges: set<(DomainId, EdgeId)>, d: DomainId, e: EdgeId)
    requires Enrolled(rosters, declared, nodes, edges)
    ensures Enrolled(JoinEdge(rosters, d, e), declared, nodes, edges + {(d, e)})
  {
    var after := JoinEdge(rosters, d, e);
    forall c
      ensures Roster(after, c).nodes == Roster(rosters, c).nodes
      ensures Roster(after, c).edges == if c == d then Roster(rosters, c).edges + {e} else Roster(rosters, c).edges
    {
    }
    assert e in Roster(after, d).edges;
  }

  lemma LeaveNodeEnrolls(rosters: Rosters, declared: set<DomainId>, nodes: set<(DomainId, NodeId)>,
                         edges: set<(DomainId, EdgeId)>, d: DomainId, n: NodeId)
    requires Enrolled(rosters, declared, nodes, edges)
    ensures Enrolled(LeaveNode(rosters, declared, d, n), declared, nodes - {(d, n)}, edges)
  {
    var after := LeaveNode(rosters, declared, d, n);
    forall c
      ensures Roster(after, c).edges == Roster(rosters, c).edges
      ensures Roster(after, c).nodes == if c == d then Roster(rosters, c).nodes - {n} else Roster(rosters, c).nodes
    {
    }
  }

  lemma LeaveEdgeEnrolls(rosters: Rosters, declared: set<DomainId>, nodes: set<(DomainId, NodeId)>,
                         edges: set<(DomainId, EdgeId)>, d: DomainId, e: EdgeId)
    requires Enrolled(rosters, declared, nodes, edges)
    ensures Enrolled(LeaveEdge(rosters, declared, d, e), declared, nodes, edges - {(d, e)})
  {
    var after := LeaveEdge(rosters, declared, d, e);
    forall c
      ensures Roster(after, c).nodes == Roster(rosters, c).nodes
      ensures Roster(after, c).edges == if c == d then Roster(rosters, c).edges - {e} else Roster(rosters, c).edges
    {
    }
  }

  /** Leaving a secondary scope keeps the rosters right exactly when something else keeps that roster. */
  lemma LeaveSecondaryEnrolls(rosters: Rosters, declared: set<DomainId>, nodes: set<(DomainId, NodeId)>,
                              edges: set<(DomainId, EdgeId)>, d: DomainId, e: EdgeId)
    requires Enrolled(rosters, declared, nodes, edges)
    ensures Enrolled(LeaveSecondary(rosters, d, e), declared, nodes, edges - {(d, e)})
            <==> !Strands(declared, nodes, edges, d, e)
  {
    var after := LeaveSecondary(rosters, d, e);
    forall c
      ensures Roster(after, c).nodes == Roster(rosters, c).nodes
      ensures Roster(after, c).edges == if c == d then Roster(rosters, c).edges - {e} else Roster(rosters, c).edges
    {
    }
    assert after.Keys == rosters.Keys;
    if Strands(declared, nodes, edges, d, e) {
      assert Roster(after, d).nodes == {} && Roster(after, d).edges == {};
    } else if d in rosters && d !in declared {
      assert Roster(after, d) != Members({}, {});
    }
  }

  /** The edge is the last member of an undeclared scope. */
  ghost predicate Strands(declared: set<DomainId>, nodes: set<(DomainId, NodeId)>, edges: set<(DomainId, EdgeId)>,
                          d: DomainId, e: EdgeId) {
    (d, e) in edges && d !in declared && (forall n :: (d, n) !in nodes) && (forall f :: (d, f) in edges ==> f == e)
  }
}
