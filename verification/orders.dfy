/** Sets of identifiers in the order the runtime visits them. */
module Orders {
  import opened Types

  ghost predicate Lists<T(!new)>(order: seq<T>, items: set<T>) {
    && (forall x :: x in order <==> x in items)
    && (forall i, j :: 0 <= i < j < |order| ==> order[i] != order[j])
  }

  predicate IsLeast(x: string, items: set<string>) {
    x in items && forall y :: y in items ==> y == x || Less(x, y)
  }

  lemma HasLeast(items: set<string>)
    requires items != {}
    ensures exists x :: IsLeast(x, items)
    decreases |items|
  {
    var x :| x in items;
    if items == {x} {
      assert IsLeast(x, items);
    } else {
      var rest := items - {x};
      assert |rest| < |items|;
      assert rest == {} ==> items == {x};
      HasLeast(rest);
      var m :| IsLeast(m, rest);
      LessTotal(x, m);
      if Less(x, m) {
        forall y | y in items && y != x
          ensures Less(x, y)
        {
          if y != m {
            LessTransitive(x, m, y);
          }
        }
        assert IsLeast(x, items);
      } else {
        assert IsLeast(m, items);
      }
    }
  }

  lemma OneLeast(x: string, y: string, items: set<string>)
    requires IsLeast(x, items) && IsLeast(y, items)
    ensures x == y
  {
    LessTotal(x, y);
  }

  function Least(items: set<string>): (x: string)
    requires items != {}
    ensures IsLeast(x, items)
  {
    HasLeast(items);
    assert forall x, y :: IsLeast(x, items) && IsLeast(y, items) ==> x == y by {
      forall x, y | IsLeast(x, items) && IsLeast(y, items)
        ensures x == y
      {
        OneLeast(x, y, items);
      }
    }
    var x :| x in items && IsLeast(x, items);
    x
  }

  /** The identifiers in ascending order. */
  function Sorted(items: set<string>): (order: seq<string>)
    ensures Lists(order, items)
    ensures forall i, j :: 0 <= i < j < |order| ==> Less(order[i], order[j])
    decreases |items|
  {
    if items == {} then []
    else
      var x := Least(items);
      assert |items - {x}| < |items|;
      var rest := Sorted(items - {x});
      assert forall i :: 0 <= i < |rest| ==> rest[i] in items - {x};
      [x] + rest
  }

  function Reversed<T>(xs: seq<T>): (ys: seq<T>)
    ensures |ys| == |xs| && forall i :: 0 <= i < |xs| ==> ys[i] == xs[|xs| - 1 - i]
  {
    if xs == [] then [] else [xs[|xs| - 1]] + Reversed(xs[..|xs| - 1])
  }
}
