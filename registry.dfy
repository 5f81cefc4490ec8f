/** The subscription registry of the server (be/src/websocket/manager.ts).

    Connections are subscribed to one order's group or only to the global
    set; each registration leaves a close handler on the connection. A
    JavaScript `Set` iterates in insertion order and holds no duplicates, so
    groups are duplicate-free sequences here. */
module Registry {
  import opened Types

  /** A browser connection, compared by identity. */
  type Conn = nat

  /** One `ws.send` of the broadcast. */
  datatype Delivery = Delivery(conn: Conn, message: Message)

  /** The close handler one registration installs: it remembers the
      connection and the order id it was registered with. */
  datatype Listener = Listener(conn: Conn, orderId: Option<string>)

  predicate NoDup(s: seq<Conn>) {
    forall i, j | 0 <= i < j < |s| :: s[i] != s[j]
  }

  /** `if (orderId)`: an id that is present and not empty. */
  predicate Truthy(orderId: Option<string>) {
    orderId.Some? && orderId.value != ""
  }

  /** `Set.add`: a new member goes last, a member already present stays where it is. */
  function Added(s: seq<Conn>, c: Conn): (r: seq<Conn>)
    ensures forall x :: x in r <==> x in s || x == c
    ensures NoDup(s) ==> NoDup(r)
    ensures s <= r && |r| <= |s| + 1
  {
    if c in s then s else s + [c]
  }

  /** `Set.delete`: the member is gone and the others keep their order. */
  function Removed(s: seq<Conn>, c: Conn): (r: seq<Conn>)
    ensures forall x :: x in r <==> x in s && x != c
    ensures NoDup(s) ==> NoDup(r)
    ensures c !in s ==> r == s
    ensures |r| <= |s|
    decreases |s|
  {
    if s == [] then []
    else
      var init := Removed(s[..|s| - 1], c);
      var last := s[|s| - 1];
      assert forall x :: x in s <==> x in s[..|s| - 1] || x == last by {
        assert s == s[..|s| - 1] + [last];
      }
      assert NoDup(s) ==> NoDup(s[..|s| - 1]) && last !in s[..|s| - 1];
      if last == c then init else init + [last]
  }

  /** `Set.delete` keeps the other members in their order: deleting the
      member at position `k` leaves the members before it and after it. */
  lemma {:induction false} RemovedKeepsOrder(s: seq<Conn>, c: Conn, k: nat)
    requires NoDup(s) && k < |s| && s[k] == c
    ensures Removed(s, c) == s[..k] + s[k + 1..]
    decreases |s|
  {
    var prefix, last := s[..|s| - 1], s[|s| - 1];
    assert s == prefix + [last];
    assert NoDup(prefix) && last !in prefix;
    if k == |s| - 1 {
      assert c !in prefix;
      assert s[..k] + s[k + 1..] == prefix;
    } else {
      assert prefix[k] == c;
      RemovedKeepsOrder(prefix, c, k);
      assert s[..k] == prefix[..k];
      assert s[k + 1..] == prefix[k + 1..] + [last];
    }
  }

  /** `clients.get(id)`, an absent group read as empty. */
  function GroupOf(clients: map<string, seq<Conn>>, id: string): seq<Conn> {
    if id in clients then clients[id] else []
  }

  /** One close handler's effect on the groups: take the connection out of
      the group of `id`, and drop the group if that emptied it. */
  function DetachFrom(clients: map<string, seq<Conn>>, id: string, c: Conn): map<string, seq<Conn>> {
    if id !in clients then clients
    else if Removed(clients[id], c) == [] then clients - {id}
    else clients[id := Removed(clients[id], c)]
  }

  /** The groups once the connection is out of every group it was in, and
      the groups it emptied are gone; no other group changes. */
  function Detached(clients: map<string, seq<Conn>>, c: Conn): (r: map<string, seq<Conn>>)
    ensures forall id :: id in r <==> id in clients && Removed(clients[id], c) != []
    ensures forall id | id in r :: r[id] == Removed(clients[id], c) && c !in r[id]
    ensures forall id | id in clients && c !in clients[id] :: id in r <==> clients[id] != []
  {
    map id | id in clients && Removed(clients[id], c) != [] :: Removed(clients[id], c)
  }

  /** The groups after the close handlers of `c` registered with the ids in
      `ids` have run. */
  function DetachedFrom(clients: map<string, seq<Conn>>, c: Conn, ids: set<string>): map<string, seq<Conn>> {
    map id | id in clients && !(id in ids && Removed(clients[id], c) == []) ::
      if id in ids then Removed(clients[id], c) else clients[id]
  }

  /** The order ids that the close handlers of `c` among `ls` detach from. */
  function IdsOf(ls: seq<Listener>, c: Conn): set<string>
    decreases |ls|
  {
    if ls == [] then {}
    else
      var l := ls[|ls| - 1];
      IdsOf(ls[..|ls| - 1], c) + if l.conn == c && Truthy(l.orderId) then {l.orderId.value} else {}
  }

  /** The listeners that stay once `c` has closed. */
  function Without(ls: seq<Listener>, c: Conn): (r: seq<Listener>)
    ensures forall l :: l in r <==> l in ls && l.conn != c
    decreases |ls|
  {
    if ls == [] then []
    else
      var init := Without(ls[..|ls| - 1], c);
      var last := ls[|ls| - 1];
      assert forall l :: l in ls <==> l in ls[..|ls| - 1] || l == last by {
        assert ls == ls[..|ls| - 1] + [last];
      }
      if last.conn == c then init else init + [last]
  }

  function HasListener(ls: seq<Listener>, c: Conn): bool {
    exists l | l in ls :: l.conn == c
  }

  /** The sends one forEach over `s` makes: one per member that is open, in order. */
  function Sends(s: seq<Conn>, open: set<Conn>, order: Order): (r: seq<Delivery>)
    ensures |r| <= |s|
    ensures forall d | d in r :: d.conn in s && d.conn in open && d.message == Message(OrderUpdateKind, order)
    decreases |s|
  {
    if s == [] then []
    else
      Sends(s[..|s| - 1], open, order)
      + if s[|s| - 1] in open then [Delivery(s[|s| - 1], Message(OrderUpdateKind, order))] else []
  }

  /** How many of the deliveries went to `c`. */
  function Received(ds: seq<Delivery>, c: Conn): nat
    decreases |ds|
  {
    if ds == [] then 0
    else Received(ds[..|ds| - 1], c) + if ds[|ds| - 1].conn == c then 1 else 0
  }

  /** No group is empty or filed under an empty id, no set holds a
      connection twice, and every member has the close handler that takes it
      out again. */
  ghost predicate WellFormed(clients: map<string, seq<Conn>>, globalClients: seq<Conn>, listeners: seq<Listener>) {
    && (forall id | id in clients :: id != "" && clients[id] != [] && NoDup(clients[id]))
    && NoDup(globalClients)
    && (forall id, c | id in clients && c in clients[id] :: Listener(c, Some(id)) in listeners)
    && (forall c | c in globalClients :: HasListener(listeners, c))
  }

  class Registry {
    /** `clients`: the per-order groups. */
    var clients: map<string, seq<Conn>>
    /** `globalClients`: every registered connection. */
    var globalClients: seq<Conn>
    /** The close handlers installed so far, in registration order. */
    var listeners: seq<Listener>
    /** Every message sent, in order. */
    var sent: seq<Delivery>

    ghost predicate Valid()
      reads this
    {
      WellFormed(clients, globalClients, listeners)
    }

    constructor ()
      ensures clients == map[] && globalClients == [] && listeners == [] && sent == []
      ensures Valid()
    {
      clients := map[];
      globalClients := [];
      listeners := [];
      sent := [];
    }

    /** registerClient: a truthy id subscribes the connection to that
        order's group, created if absent; every connection joins the global
        set; the close handler is installed. */
    method Register(orderId: Option<string>, ws: Conn)
      requires Valid()
      modifies this`clients, this`globalClients, this`listeners
      ensures Valid()
      ensures clients == if Truthy(orderId) then old(clients)[orderId.value := Added(GroupOf(old(clients), orderId.value), ws)]
                         else old(clients)
      ensures globalClients == Added(old(globalClients), ws)
      ensures listeners == old(listeners) + [Listener(ws, orderId)]
    {
      if Truthy(orderId) {
        var id := orderId.value;
        if id !in clients {
          clients := clients[id := []];
        }
        clients := clients[id := Added(clients[id], ws)];
      }
      globalClients := Added(globalClients, ws);
      listeners := listeners + [Listener(ws, orderId)];
      RegisterWellFormed(old(clients), old(globalClients), old(listeners), orderId, ws);
    }

    /** The close handler of one registration. */
    method RunCloseHandler(l: Listener)
      modifies this`clients, this`globalClients
      ensures clients == if Truthy(l.orderId) then DetachFrom(old(clients), l.orderId.value, l.conn) else old(clients)
      ensures globalClients == Removed(old(globalClients), l.conn)
    {
      if Truthy(l.orderId) {
        var id := l.orderId.value;
        if id in clients {
          clients := clients[id := Removed(clients[id], l.conn)];
          if |clients[id]| == 0 {
            clients := clients - {id};
          }
        }
      }
      globalClients := Removed(globalClients, l.conn);
    }

    /** The connection closes: each close handler installed on it runs once,
        in registration order, and none of them stays installed. */
    method Close(ws: Conn)
      requires Valid()
      modifies this`clients, this`globalClients, this`listeners
      ensures Valid()
      ensures clients == Detached(old(clients), ws)
      ensures globalClients == Removed(old(globalClients), ws)
      ensures listeners == Without(old(listeners), ws)
    {
      ghost var c0, g0 := clients, globalClients;
      RunHandlers(listeners, ws);
      CloseResult(c0, g0, listeners, ws, clients, globalClients);
      listeners := Without(listeners, ws);
    }

    /** The socket's close event: the handlers installed on it run once each,
        in registration order. */
    method RunHandlers(handlers: seq<Listener>, ws: Conn)
      modifies this`clients, this`globalClients
      ensures ClosedUpTo(old(clients), old(globalClients), handlers, |handlers|, ws, clients, globalClients)
    {
      for i := 0 to |handlers|
        invariant ClosedUpTo(old(clients), old(globalClients), handlers, i, ws, clients, globalClients)
      {
        ghost var before, beforeGlobal := clients, globalClients;
        var l := handlers[i];
        if l.conn == ws {
          RunCloseHandler(l);
        }
        CloseStep(old(clients), old(globalClients), handlers, i, ws, before, beforeGlobal, clients, globalClients);
      }
    }

    /** broadcastOrderUpdate: one send to each open member of the order's
        group, then one to each open member of the global set. */
    method Broadcast(order: Order, open: set<Conn>)
      modifies this`sent
      ensures sent == old(sent) + Sends(GroupOf(clients, order.id), open, order) + Sends(globalClients, open, order)
    {
      SendEach(GroupOf(clients, order.id), open, order);
      SendEach(globalClients, open, order);
    }

    /** One `forEach` over a set of connections, sending to the open ones. */
    method SendEach(members: seq<Conn>, open: set<Conn>, order: Order)
      modifies this`sent
      ensures sent == old(sent) + Sends(members, open, order)
    {
      var i := 0;
      while i < |members|
        invariant 0 <= i <= |members|
        invariant sent == old(sent) + Sends(members[..i], open, order)
      {
        if members[i] in open {
          sent := sent + [Delivery(members[i], Message(OrderUpdateKind, order))];
        }
        assert members[..i + 1][..i] == members[..i];
        i := i + 1;
      }
      assert members[..i] == members;
    }
  }

  // ---------------------------------------------------------------------------
  // Lemmas

  /** Running one more close handler of `c`, registered with `id`. */
  lemma DetachStep(clients: map<string, seq<Conn>>, c: Conn, ids: set<string>, id: string)
    ensures DetachFrom(DetachedFrom(clients, c, ids), id, c) == DetachedFrom(clients, c, ids + {id})
  {
    var before := DetachedFrom(clients, c, ids);
    var after := DetachFrom(before, id, c);
    var want := DetachedFrom(clients, c, ids + {id});
    if id in ids && id in before {
      RemovedTwice(clients[id], c);
    }
    forall x | x != id
      ensures (x in after <==> x in want) && (x in after ==> after[x] == want[x])
    {
      assert x in after <==> x in before;
    }
    assert (id in after <==> id in want) && (id in after ==> after[id] == want[id]);
    assert after.Keys == want.Keys;
  }

  /** The groups and the global set after the first `i` close handlers of
      `handlers` ran. */
  ghost predicate ClosedUpTo(c0: map<string, seq<Conn>>, g0: seq<Conn>, handlers: seq<Listener>, i: nat, ws: Conn,
                             clients: map<string, seq<Conn>>, globalClients: seq<Conn>) {
    && i <= |handlers|
    && clients == DetachedFrom(c0, ws, IdsOf(handlers[..i], ws))
    && globalClients == if HasListener(handlers[..i], ws) then Removed(g0, ws) else g0
  }

  /** Once every close handler has run, the connection has left every group
      and the global set, and the registry is well formed again. */
  lemma CloseResult(c0: map<string, seq<Conn>>, g0: seq<Conn>, ls: seq<Listener>, ws: Conn,
                    clients: map<string, seq<Conn>>, globalClients: seq<Conn>)
    requires WellFormed(c0, g0, ls)
    requires ClosedUpTo(c0, g0, ls, |ls|, ws, clients, globalClients)
    ensures clients == Detached(c0, ws)
    ensures globalClients == Removed(g0, ws)
    ensures WellFormed(clients, globalClients, Without(ls, ws))
  {
    assert ls[..|ls|] == ls;
    HandlersCover(c0, ws, ls);
    DetachedCovers(c0, ws, IdsOf(ls, ws));
    if !HasListener(ls, ws) {
      assert ws !in g0;
    }
    CloseWellFormed(c0, g0, ls, ws);
  }

  /** One turn of the loop over the close handlers: the state after handler
      `i` ran, if it is one of `ws`'s, is the state after the first `i + 1`. */
  lemma CloseStep(c0: map<string, seq<Conn>>, g0: seq<Conn>, handlers: seq<Listener>, i: nat, ws: Conn,
                  clients: map<string, seq<Conn>>, globalClients: seq<Conn>,
                  clients': map<string, seq<Conn>>, globalClients': seq<Conn>)
    requires i < |handlers|
    requires ClosedUpTo(c0, g0, handlers, i, ws, clients, globalClients)
    requires var l := handlers[i];
      if l.conn == ws then
        && clients' == (if Truthy(l.orderId) then DetachFrom(clients, l.orderId.value, ws) else clients)
        && globalClients' == Removed(globalClients, ws)
      else clients' == clients && globalClients' == globalClients
    ensures ClosedUpTo(c0, g0, handlers, i + 1, ws, clients', globalClients')
  {
    var l := handlers[i];
    assert handlers[..i + 1] == handlers[..i] + [l];
    IdsOfStep(handlers[..i], l, ws);
    if l.conn == ws {
      RemovedTwice(g0, ws);
      if Truthy(l.orderId) {
        DetachStep(c0, ws, IdsOf(handlers[..i], ws), l.orderId.value);
      } else {
        assert IdsOf(handlers[..i + 1], ws) == IdsOf(handlers[..i], ws);
      }
    }
  }

  lemma IdsOfStep(ls: seq<Listener>, l: Listener, c: Conn)
    ensures IdsOf(ls + [l], c) == IdsOf(ls, c) + (if l.conn == c && Truthy(l.orderId) then {l.orderId.value} else {})
    ensures HasListener(ls + [l], c) == (HasListener(ls, c) || l.conn == c)
  {
    var ls' := ls + [l];
    assert ls'[..|ls|] == ls;
    assert forall x :: x in ls' <==> x in ls || x == l;
  }

  /** The id of every close handler of `c` that has a truthy id is detached from. */
  lemma {:induction false} IdsOfHas(ls: seq<Listener>, c: Conn, k: nat)
    requires k < |ls| && ls[k].conn == c && Truthy(ls[k].orderId)
    ensures ls[k].orderId.value in IdsOf(ls, c)
    decreases |ls|
  {
    if k < |ls| - 1 {
      IdsOfHas(ls[..|ls| - 1], c, k);
    }
  }

  /** Once every close handler of `c` has run, the connection has left every
      group it was in. */
  lemma DetachedCovers(clients: map<string, seq<Conn>>, c: Conn, ids: set<string>)
    requires forall id | id in clients :: clients[id] != []
    requires forall id | id in clients && c in clients[id] :: id in ids
    ensures DetachedFrom(clients, c, ids) == Detached(clients, c)
  {
    var l := DetachedFrom(clients, c, ids);
    var r := Detached(clients, c);
    forall id | id in clients
      ensures (id in l <==> id in r) && (id in l ==> l[id] == r[id])
    {
      if c !in clients[id] {
        assert Removed(clients[id], c) == clients[id];
      }
    }
    assert l.Keys == r.Keys;
  }

  /** Every group the connection is in was joined through a close handler
      of the connection registered with that group's id. */
  lemma HandlersCover(clients: map<string, seq<Conn>>, c: Conn, ls: seq<Listener>)
    requires forall id | id in clients :: id != ""
    requires forall id, x | id in clients && x in clients[id] :: Listener(x, Some(id)) in ls
    ensures forall id | id in clients && c in clients[id] :: id in IdsOf(ls, c)
  {
    forall id | id in clients && c in clients[id]
      ensures id in IdsOf(ls, c)
    {
      var k :| 0 <= k < |ls| && ls[k] == Listener(c, Some(id));
      IdsOfHas(ls, c, k);
    }
  }

  /** Registering keeps the registry well formed. */
  lemma RegisterWellFormed(clients: map<string, seq<Conn>>, globalClients: seq<Conn>, listeners: seq<Listener>,
                           orderId: Option<string>, ws: Conn)
    requires WellFormed(clients, globalClients, listeners)
    ensures WellFormed(
      if Truthy(orderId) then clients[orderId.value := Added(GroupOf(clients, orderId.value), ws)] else clients,
      Added(globalClients, ws),
      listeners + [Listener(ws, orderId)])
  {
    var ls := listeners + [Listener(ws, orderId)];
    assert forall l | l in listeners :: l in ls;
    assert Listener(ws, orderId) in ls;
    forall c | c in Added(globalClients, ws)
      ensures HasListener(ls, c)
    {
      if c == ws {
        assert Listener(ws, orderId) in ls;
      } else {
        var l :| l in listeners && l.conn == c;
        assert l in ls;
      }
    }
  }

  /** Closing a connection keeps the registry well formed. */
  lemma CloseWellFormed(clients: map<string, seq<Conn>>, globalClients: seq<Conn>, listeners: seq<Listener>, ws: Conn)
    requires WellFormed(clients, globalClients, listeners)
    ensures WellFormed(Detached(clients, ws), Removed(globalClients, ws), Without(listeners, ws))
  {
    var ls := Without(listeners, ws);
    forall c | c in Removed(globalClients, ws)
      ensures HasListener(ls, c)
    {
      var l :| l in listeners && l.conn == c;
      assert l in ls;
    }
  }

  /** Deleting twice is deleting once. */
  lemma RemovedTwice(s: seq<Conn>, c: Conn)
    ensures Removed(Removed(s, c), c) == Removed(s, c)
  {
  }

  /** Adding twice is adding once, so registering a connection again does not
      duplicate it. */
  lemma AddedTwice(s: seq<Conn>, c: Conn)
    ensures Added(Added(s, c), c) == Added(s, c)
  {
  }

  /** A duplicate-free set sends to an open member exactly once and to any
      other connection never. */
  lemma {:induction false} SendsOnce(s: seq<Conn>, open: set<Conn>, order: Order, c: Conn)
    requires NoDup(s)
    ensures Received(Sends(s, open, order), c) == if c in s && c in open then 1 else 0
    decreases |s|
  {
    if s != [] {
      var init, last := s[..|s| - 1], s[|s| - 1];
      assert s == init + [last];
      assert NoDup(init) && last !in init;
      assert c in s <==> c in init || c == last;
      SendsOnce(init, open, order, c);
      var tail := if last in open then [Delivery(last, Message(OrderUpdateKind, order))] else [];
      assert Sends(s, open, order) == Sends(init, open, order) + tail;
      assert Received(tail, c) == if last in open && last == c then 1 else 0 by {
        if tail != [] {
          assert tail[..0] == [];
        }
      }
      ReceivedAppend(Sends(init, open, order), tail, c);
    }
  }

  lemma {:induction false} ReceivedAppend(a: seq<Delivery>, b: seq<Delivery>, c: Conn)
    ensures Received(a + b, c) == Received(a, c) + Received(b, c)
    decreases |b|
  {
    if b != [] {
      assert (a + b)[..|a + b| - 1] == a + b[..|b| - 1];
      assert (a + b)[|a + b| - 1] == b[|b| - 1];
      ReceivedAppend(a, b[..|b| - 1], c);
    } else {
      assert a + b == a;
    }
  }

  /** One broadcast reaches an open connection once for the order's group
      and once more for the global set, and a connection that is not open
      not at all. */
  lemma BroadcastReach(clients: map<string, seq<Conn>>, globalClients: seq<Conn>, open: set<Conn>, order: Order, c: Conn)
    requires forall id | id in clients :: NoDup(clients[id])
    requires NoDup(globalClients)
    ensures var group := GroupOf(clients, order.id);
      Received(Sends(group, open, order) + Sends(globalClients, open, order), c)
      == (if c in group && c in open then 1 else 0) + (if c in globalClients && c in open then 1 else 0)
  {
    var group := GroupOf(clients, order.id);
    SendsOnce(group, open, order, c);
    SendsOnce(globalClients, open, order, c);
    ReceivedAppend(Sends(group, open, order), Sends(globalClients, open, order), c);
  }

  /** A closed connection is in no group and not global, so a later broadcast
      never reaches it. */
  lemma ClosedNotReached(clients: map<string, seq<Conn>>, globalClients: seq<Conn>, open: set<Conn>, order: Order, c: Conn)
    requires forall id | id in clients :: NoDup(clients[id])
    requires NoDup(globalClients)
    ensures Received(Sends(GroupOf(Detached(clients, c), order.id), open, order)
                     + Sends(Removed(globalClients, c), open, order), c) == 0
  {
    BroadcastReach(Detached(clients, c), Removed(globalClients, c), open, order, c);
  }
}
