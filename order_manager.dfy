/** The order manager (be/src/orderManager.ts): creating an order and
    listing the stored orders. */
module OrderManager {
  import opened Types
  import opened OrderQueue
  import Store
  import Registry

  /** The row `prisma.order.create` inserts for a new order. */
  function NewOrder(id: OrderId, tokenPair: string, amount: real, createdAt: nat): (o: Order)
    ensures o.id == id && o.tokenPair == tokenPair && o.amount == amount && o.createdAt == createdAt
    ensures o.status == Pending && o.logs == LogArray([]) && o.bestQuote == EmptyObject && o.txHash == None
  {
    Order(id, tokenPair, amount, Pending, createdAt, None, EmptyObject, LogArray([]))
  }

  /** The name of the job every order gets. */
  const ProcessOrder: string := "process-order"

  /** Newest first: `orderBy: {createdAt: 'desc'}`. */
  predicate NewestFirst(s: seq<Order>) {
    forall i, j | 0 <= i < j < |s| :: s[i].createdAt >= s[j].createdAt
  }

  /** Put an order into a newest-first list, ahead of the orders as old as it. */
  function Insert(s: seq<Order>, o: Order): (r: seq<Order>)
    requires NewestFirst(s)
    ensures NewestFirst(r)
    ensures |r| == |s| + 1
    ensures forall x :: x in r <==> x in s || x == o
    decreases |s|
  {
    if s == [] || o.createdAt >= s[0].createdAt then
      assert forall j | 0 < j <= |s| :: ([o] + s)[j] == s[j - 1];
      [o] + s
    else
      var rest := Insert(s[1..], o);
      assert s == [s[0]] + s[1..];
      assert forall x | x in s[1..] :: x.createdAt <= s[0].createdAt;
      var r := [s[0]] + rest;
      assert forall j | 0 < j < |r| :: r[j] == rest[j - 1] && r[j] in rest;
      r
  }

  class OrderManager {
    const db: Store.OrderStore
    const registry: Registry.Registry
    const queue: JobQueue

    constructor (db: Store.OrderStore, registry: Registry.Registry, queue: JobQueue)
      ensures this.db == db && this.registry == registry && this.queue == queue
    {
      this.db := db;
      this.registry := registry;
      this.queue := queue;
    }

    /** createOrder: insert a pending row, broadcast it once to the browsers
        whose connections are open, enqueue one job for it under the order's
        id, and return the row. The id and the creation time are the ones the
        store generates. */
    method CreateOrder(tokenPair: string, amount: real, id: OrderId, createdAt: nat, open: set<Registry.Conn>)
      returns (order: Order)
      requires tokenPair != "" && amount != 0.0
      requires id !in db.orders
      requires db.Valid()
      modifies db, registry`sent, queue
      ensures order == NewOrder(id, tokenPair, amount, createdAt)
      ensures db.orders == old(db.orders)[id := order] && db.Valid()
      ensures registry.sent == old(registry.sent)
        + Registry.Sends(Registry.GroupOf(registry.clients, id), open, order)
        + Registry.Sends(registry.globalClients, open, order)
      ensures queue.jobs == old(queue.jobs) + [QueuedJob(ProcessOrder, JobData(id, tokenPair, amount), id, DefaultAttempts)]
    {
      order := NewOrder(id, tokenPair, amount, createdAt);
      db.orders := db.orders[id := order];
      registry.Broadcast(order, open);
      var jobData := JobData(order.id, tokenPair, amount);
      queue.Add(ProcessOrder, jobData, order.id);
    }

    /** getAllOrders: every stored row, once each, newest first. */
    method GetAllOrders() returns (r: seq<Order>)
      requires db.Valid()
      ensures NewestFirst(r)
      ensures |r| == |db.orders|
      ensures DistinctIds(r)
      ensures forall i | 0 <= i < |r| :: r[i].id in db.orders && db.orders[r[i].id] == r[i]
      ensures forall id | id in db.orders :: db.orders[id] in r
    {
      r := [];
      var left := db.orders.Keys;
      while left != {}
        invariant left <= db.orders.Keys
        invariant Listed(db.orders, left, r)
        decreases left
      {
        var id :| id in left;
        ListOne(db.orders, left, r, id);
        r, left := Insert(r, db.orders[id]), left - {id};
      }
      ListedAll(db.orders, r);
    }
  }

  /** `r` lists, newest first and once each, the rows whose ids are not in `left`. */
  ghost predicate Listed(rows: map<OrderId, Order>, left: set<OrderId>, r: seq<Order>) {
    && (forall id | id in rows :: rows[id].id == id)
    && NewestFirst(r)
    && DistinctIds(r)
    && |r| == |rows.Keys - left|
    && (forall o | o in r :: o.id in rows && o.id !in left && rows[o.id] == o)
    && (forall id | id in rows && id !in left :: rows[id] in r)
  }

  /** Listing one more row. */
  lemma ListOne(rows: map<OrderId, Order>, left: set<OrderId>, r: seq<Order>, id: OrderId)
    requires Listed(rows, left, r) && id in left && left <= rows.Keys
    ensures Listed(rows, left - {id}, Insert(r, rows[id]))
  {
    InsertKeepsDistinct(r, rows[id]);
    assert rows.Keys - (left - {id}) == (rows.Keys - left) + {id};
  }

  /** Once no row is left, the listing has every row. */
  lemma ListedAll(rows: map<OrderId, Order>, r: seq<Order>)
    requires Listed(rows, {}, r)
    ensures |r| == |rows|
    ensures forall i | 0 <= i < |r| :: r[i].id in rows && rows[r[i].id] == r[i]
  {
    assert rows.Keys - {} == rows.Keys;
    forall i | 0 <= i < |r|
      ensures r[i].id in rows && rows[r[i].id] == r[i]
    {
      assert r[i] in r;
    }
  }

  /** Inserting an order whose id the list does not show keeps the ids distinct. */
  lemma {:induction false} InsertKeepsDistinct(s: seq<Order>, o: Order)
    requires NewestFirst(s)
    requires DistinctIds(s) && forall x | x in s :: x.id != o.id
    ensures DistinctIds(Insert(s, o))
    decreases |s|
  {
    if s != [] && o.createdAt < s[0].createdAt {
      var rest := Insert(s[1..], o);
      assert s == [s[0]] + s[1..];
      InsertKeepsDistinct(s[1..], o);
      var r := [s[0]] + rest;
      assert forall j | 0 < j < |r| :: r[j] == rest[j - 1] && r[j] in rest;
      assert forall x | x in s[1..] :: x.id != s[0].id;
    } else {
      assert forall j | 0 < j <= |s| :: ([o] + s)[j] == s[j - 1];
    }
  }
}
