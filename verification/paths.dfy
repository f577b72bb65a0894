/** Reachability and acyclicity over a finite set of directed arcs. */
module Paths {
  type Arcs<V(==)> = set<(V, V)>

  /** A walk of exactly n arcs leads from a to b. */
  ghost predicate Walk<V(!new)>(arcs: Arcs<V>, a: V, b: V, n: nat)
    decreases n
  {
    if n == 0 then a == b else exists c :: (a, c) in arcs && Walk(arcs, c, b, n - 1)
  }

  ghost predicate Reaches<V(!new)>(arcs: Arcs<V>, a: V, b: V) {
    exists n: nat :: Walk(arcs, a, b, n)
  }

  ghost predicate Acyclic<V(!new)>(arcs: Arcs<V>) {
    forall v, n: nat :: Walk(arcs, v, v, n) ==> n == 0
  }

  lemma {:induction false} WalkAppend<V(!new)>(arcs: Arcs<V>, a: V, b: V, n: nat, c: V, m: nat)
    requires Walk(arcs, a, b, n) && Walk(arcs, b, c, m)
    ensures Walk(arcs, a, c, n + m)
    decreases n
  {
    if n > 0 {
      var d :| (a, d) in arcs && Walk(arcs, d, b, n - 1);
      WalkAppend(arcs, d, b, n - 1, c, m);
      assert (n - 1) + m == n + m - 1;
    }
  }

  lemma WalkOne<V(!new)>(arcs: Arcs<V>, a: V, b: V)
    requires (a, b) in arcs
    ensures Walk(arcs, a, b, 1)
  {
    assert Walk(arcs, b, b, 0);
  }

  lemma ReachesSelf<V(!new)>(arcs: Arcs<V>, a: V)
    ensures Reaches(arcs, a, a)
  {
    assert Walk(arcs, a, a, 0);
  }

  lemma ReachesTrans<V(!new)>(arcs: Arcs<V>, a: V, b: V, c: V)
    requires Reaches(arcs, a, b) && Reaches(arcs, b, c)
    ensures Reaches(arcs, a, c)
  {
    var n: nat :| Walk(arcs, a, b, n);
    var m: nat :| Walk(arcs, b, c, m);
    WalkAppend(arcs, a, b, n, c, m);
  }

  lemma ReachesStep<V(!new)>(arcs: Arcs<V>, a: V, b: V, c: V)
    requires Reaches(arcs, a, b) && (b, c) in arcs
    ensures Reaches(arcs, a, c)
  {
    WalkOne(arcs, b, c);
    ReachesTrans(arcs, a, b, c);
  }

  lemma {:induction false} WalkMono<V(!new)>(arcs: Arcs<V>, more: Arcs<V>, a: V, b: V, n: nat)
    requires arcs <= more && Walk(arcs, a, b, n)
    ensures Walk(more, a, b, n)
    decreases n
  {
    if n > 0 {
      var c :| (a, c) in arcs && Walk(arcs, c, b, n - 1);
      WalkMono(arcs, more, c, b, n - 1);
    }
  }

  lemma FewerArcsStayAcyclic<V(!new)>(arcs: Arcs<V>, more: Arcs<V>)
    requires arcs <= more && Acyclic(more)
    ensures Acyclic(arcs)
  {
    forall v, n: nat | Walk(arcs, v, v, n)
      ensures n == 0
    {
      WalkMono(arcs, more, v, v, n);
    }
  }

  /** A walk that uses a new arc (u, v) splits at its first and last use of it. */
  lemma {:induction false} WalkSplit<V(!new)>(arcs: Arcs<V>, u: V, v: V, a: V, b: V, n: nat)
    requires Walk(arcs + {(u, v)}, a, b, n)
    ensures Walk(arcs, a, b, n) || (Reaches(arcs, a, u) && Reaches(arcs, v, b))
    decreases n
  {
    if n > 0 {
      var more := arcs + {(u, v)};
      var c :| (a, c) in more && Walk(more, c, b, n - 1);
      WalkSplit(arcs, u, v, c, b, n - 1);
      if (a, c) in arcs {
        if !Walk(arcs, c, b, n - 1) {
          ReachesSelf(arcs, a);
          ReachesStep(arcs, a, a, c);
          ReachesTrans(arcs, a, c, u);
        }
      } else {
        ReachesSelf(arcs, a);
      }
    }
  }

  /** Adding an arc from u to v keeps a graph acyclic exactly when v does not already reach u. */
  lemma AddArcAcyclic<V(!new)>(arcs: Arcs<V>, u: V, v: V)
    requires Acyclic(arcs)
    ensures Acyclic(arcs + {(u, v)}) <==> !Reaches(arcs, v, u)
  {
    var more := arcs + {(u, v)};
    if Reaches(arcs, v, u) {
      var n: nat :| Walk(arcs, v, u, n);
      WalkMono(arcs, more, v, u, n);
      WalkOne(more, u, v);
      WalkAppend(more, u, v, 1, u, n);
      assert Walk(more, u, u, n + 1);
    } else {
      forall x, n: nat | Walk(more, x, x, n)
        ensures n == 0
      {
        WalkSplit(arcs, u, v, x, x, n);
        if !Walk(arcs, x, x, n) {
          ReachesTrans(arcs, v, x, u);
        }
      }
    }
  }

  /** A set that holds a and is closed under arcs holds everything a reaches. */
  lemma {:induction false} ClosedHoldsWalk<V(!new)>(arcs: Arcs<V>, closed: set<V>, a: V, b: V, n: nat)
    requires a in closed && Walk(arcs, a, b, n)
    requires forall x, y :: x in closed && (x, y) in arcs ==> y in closed
    ensures b in closed
    decreases n
  {
    if n > 0 {
      var c :| (a, c) in arcs && Walk(arcs, c, b, n - 1);
      ClosedHoldsWalk(arcs, closed, c, b, n - 1);
    }
  }

  /** A rank that falls along every arc rules out cycles. */
  lemma {:induction false} RankFallsAlongWalk<V(!new)>(arcs: Arcs<V>, rank: map<V, nat>, a: V, b: V, n: nat)
    requires forall x, y :: (x, y) in arcs ==> x in rank && y in rank && rank[y] < rank[x]
    requires Walk(arcs, a, b, n) && n > 0
    ensures a in rank && b in rank && rank[b] < rank[a]
    decreases n
  {
    var c :| (a, c) in arcs && Walk(arcs, c, b, n - 1);
    if n > 1 {
      RankFallsAlongWalk(arcs, rank, c, b, n - 1);
    }
  }

  lemma RankedIsAcyclic<V(!new)>(arcs: Arcs<V>, rank: map<V, nat>)
    requires forall x, y :: (x, y) in arcs ==> x in rank && y in rank && rank[y] < rank[x]
    ensures Acyclic(arcs)
  {
    forall v, n: nat | Walk(arcs, v, v, n)
      ensures n == 0
    {
      if n > 0 {
        RankFallsAlongWalk(arcs, rank, v, v, n);
      }
    }
  }
}
