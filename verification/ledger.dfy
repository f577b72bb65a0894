/** The bounded memory of processed publications that makes a replay harmless. */
module Ledgers {
  import opened Authority

  class AttemptLedger {
    var keys: set<string>
    var order: seq<string>

    /** The set and the queue hold the same keys, each once, never more than the capacity. */
    ghost predicate Valid()
      reads this
    {
      && |order| <= LEDGER_CAPACITY
      && (forall k :: k in keys <==> k in order)
      && (forall i, j :: 0 <= i < j < |order| ==> order[i] != order[j])
    }

    constructor ()
      ensures Valid() && order == []
    {
      keys, order := {}, [];
    }

    function Seen(key: string): (seen: bool)
      requires Valid()
      reads this
      ensures seen <==> key in order
    {
      key in keys
    }

    method RecordAttempt(key: string)
      requires Valid()
      modifies this
      ensures Valid() && order == Record(old(order), key)
    {
      if key in keys {
        return;
      }
      keys := keys + {key};
      order := order + [key];
      ghost var all := order;
      while |order| > LEDGER_CAPACITY
        invariant |order| <= LEDGER_CAPACITY + 1 && (|order| == |all| || |order| == LEDGER_CAPACITY)
        invariant |order| <= |all| && order == all[|all| - |order|..]
        invariant forall k :: k in keys <==> k in order
        invariant forall i, j :: 0 <= i < j < |order| ==> order[i] != order[j]
      {
        var oldest := order[0];
        assert forall k :: k in order[1..] <==> k in order && k != oldest;
        keys := keys - {oldest};
        order := order[1..];
      }
    }
  }
}
