/** The browser's order list and the `setOrders` updater its WebSocket
    handler applies to every message (fe/src/App.tsx). */
module OrderList {
  import opened Types

  /** `k` is the first position of `s` holding an order with this id. */
  predicate FirstWith(s: seq<Order>, id: OrderId, k: int) {
    0 <= k < |s| && s[k].id == id && forall j | 0 <= j < k :: s[j].id != id
  }

  predicate HasId(s: seq<Order>, id: OrderId) {
    exists k | 0 <= k < |s| :: s[k].id == id
  }

  /** `findIndex(o => o.id === id)`: the first matching position, or -1. */
  function FindIndex(s: seq<Order>, id: OrderId): (k: int)
    ensures k == -1 || FirstWith(s, id, k)
    ensures k == -1 <==> !HasId(s, id)
    decreases |s|
  {
    if s == [] then -1
    else if s[0].id == id then 0
    else
      var k := FindIndex(s[1..], id);
      assert forall j | 0 < j < |s| :: s[j] == s[1..][j - 1];
      assert HasId(s[1..], id) ==> HasId(s, id);
      if k == -1 then -1 else k + 1
  }

  /** The updater: overwrite the first order with the update's id in a copy
      of the list, or put the update in front when no order has that id. */
  function Upsert(prev: seq<Order>, update: Order): (r: seq<Order>)
    ensures forall k | FirstWith(prev, update.id, k) ::
      |r| == |prev| && r[k] == update && forall j | 0 <= j < |prev| && j != k :: r[j] == prev[j]
    ensures !HasId(prev, update.id) ==> r == [update] + prev
  {
    var k := FindIndex(prev, update.id);
    if k >= 0 then prev[k := update] else [update] + prev
  }

  /** `onmessage`: only an "order-update" message touches the list. */
  function OnMessage(prev: seq<Order>, message: Message): (r: seq<Order>)
    ensures message.kind != OrderUpdateKind ==> r == prev
    ensures message.kind == OrderUpdateKind ==> r == Upsert(prev, message.data)
  {
    if message.kind == OrderUpdateKind then Upsert(prev, message.data) else prev
  }

  /** The ids a list shows. */
  function Ids(s: seq<Order>): set<OrderId> {
    set o | o in s :: o.id
  }

  // ---------------------------------------------------------------------------
  // Lemmas

  /** The update is always in the result, and an order leaves the list only
      by being overwritten with the update. */
  lemma UpsertContents(prev: seq<Order>, update: Order)
    ensures update in Upsert(prev, update)
    ensures forall o | o in prev && o.id != update.id :: o in Upsert(prev, update)
    ensures forall o | o in Upsert(prev, update) :: o in prev || o == update
    ensures |Upsert(prev, update)| == if HasId(prev, update.id) then |prev| else |prev| + 1
  {
    var r := Upsert(prev, update);
    var k := FindIndex(prev, update.id);
    if k >= 0 {
      forall o | o in prev && o.id != update.id
        ensures o in r
      {
        var j :| 0 <= j < |prev| && prev[j] == o;
        assert r[j] == o;
      }
      forall o | o in r
        ensures o in prev || o == update
      {
        var j :| 0 <= j < |r| && r[j] == o;
        if j != k {
          assert prev[j] == o;
        }
      }
    }
  }

  /** The list shows the ids it showed before and the update's. */
  lemma UpsertIds(prev: seq<Order>, update: Order)
    ensures Ids(Upsert(prev, update)) == Ids(prev) + {update.id}
  {
    var r := Upsert(prev, update);
    UpsertContents(prev, update);
    forall id | id in Ids(prev) + {update.id}
      ensures id in Ids(r)
    {
      if id != update.id {
        var o :| o in prev && o.id == id;
        assert o in r;
      } else {
        assert update in r;
      }
    }
  }

  /** Applying the same update twice gives the list applying it once gives. */
  lemma UpsertIdempotent(prev: seq<Order>, update: Order)
    ensures Upsert(Upsert(prev, update), update) == Upsert(prev, update)
  {
    var r := Upsert(prev, update);
    var k := FindIndex(prev, update.id);
    if k >= 0 {
      assert FirstWith(r, update.id, k);
      assert r[k := update] == r;
    } else {
      assert FirstWith(r, update.id, 0);
      assert r[0 := update] == r;
    }
  }

  /** If no two orders share an id before the update, none do after it. */
  lemma UpsertKeepsDistinct(prev: seq<Order>, update: Order)
    requires DistinctIds(prev)
    ensures DistinctIds(Upsert(prev, update))
  {
    var r := Upsert(prev, update);
    if !HasId(prev, update.id) {
      forall i, j | 0 <= i < j < |r|
        ensures r[i].id != r[j].id
      {
        if i == 0 {
          assert r[j] == prev[j - 1];
        } else {
          assert r[i] == prev[i - 1] && r[j] == prev[j - 1];
        }
      }
    }
  }

  /** Once an update is applied, the first order with its id is the update. */
  lemma UpsertFound(prev: seq<Order>, update: Order)
    ensures FindIndex(Upsert(prev, update), update.id) >= 0
    ensures Upsert(prev, update)[FindIndex(Upsert(prev, update), update.id)] == update
  {
    var k := FindIndex(prev, update.id);
    if k >= 0 {
      assert FirstWith(Upsert(prev, update), update.id, k);
    } else {
      assert FirstWith(Upsert(prev, update), update.id, 0);
    }
  }
}
