/** The notification service's subscriber registry: the set of live
    WebSocket connections, with AddClient, RemoveClient and Broadcast. Each
    operation is atomic; the outcome of every write is a parameter (the set
    of connections whose write fails). Connections are any type with
    equality, standing for the connection pointers the Go map is keyed by. */
module NotificationHub {

  predicate NoDuplicates<C(==,!new)>(s: seq<C>)
  {
    forall i, j :: 0 <= i < j < |s| ==> s[i] != s[j]
  }

  /** AddClient: the connection is a member afterwards and nothing else changes. */
  function AddClient<C(==,!new)>(clients: set<C>, c: C): (r: set<C>)
    ensures c in r
    ensures forall d :: d != c ==> (d in r <==> d in clients)
    ensures c in clients ==> r == clients
  {
    clients + {c}
  }

  /** The registry after RemoveClient, and whether the connection was closed. */
  datatype Removal<C> = Removal(clients: set<C>, closed: bool)

  /** RemoveClient: the connection is absent afterwards; it is closed only
      when it was a member, so removing an absent connection is a no-op. */
  function RemoveClient<C(==,!new)>(clients: set<C>, c: C): (r: Removal<C>)
    ensures c !in r.clients
    ensures forall d :: d != c ==> (d in r.clients <==> d in clients)
    ensures r.closed <==> c in clients
    ensures !r.closed ==> r.clients == clients
  {
    if c in clients then Removal(clients - {c}, true) else Removal(clients, false)
  }

  /** The registry after the write loop of Broadcast, and the connections
      that loop closed, in order. */
  datatype Delivery<C> = Delivery(clients: set<C>, closed: seq<C>)

  /** The write loop of Broadcast over a snapshot `conns`: each connection in
      `failed` is removed through RemoveClient. The snapshot may be stale
      (hold connections no longer registered); RemoveClient then closes
      nothing, so no connection is ever closed twice. */
  function Deliver<C(==,!new)>(clients: set<C>, conns: seq<C>, failed: set<C>): (r: Delivery<C>)
    ensures forall d :: d in r.clients <==> d in clients && !(d in conns && d in failed)
    ensures forall d :: d in r.closed <==> d in clients && d in conns && d in failed
    ensures NoDuplicates(r.closed)
  {
    if |conns| == 0 then Delivery(clients, [])
    else
      var c := conns[0];
      if c in failed then
        var removal := RemoveClient(clients, c);
        var rest := Deliver(removal.clients, conns[1..], failed);
        assert forall d :: d in conns <==> d == c || d in conns[1..];
        if removal.closed then Delivery(rest.clients, [c] + rest.closed)
        else Delivery(rest.clients, rest.closed)
      else
        var rest := Deliver(clients, conns[1..], failed);
        assert forall d :: d in conns <==> d == c || d in conns[1..];
        Delivery(rest.clients, rest.closed)
  }

  /** Broadcast(payload): copies the registry into a snapshot (in the map's
      arbitrary iteration order), writes the payload to each snapshot member
      once, and removes every member whose write failed. `writes` lists the
      write attempts in order. */
  method Broadcast<C(==,!new), P(==,!new)>(clients: set<C>, payload: P, failed: set<C>)
    returns (after: set<C>, writes: seq<(C, P)>, closed: seq<C>)
    ensures |writes| == |clients| && NoDuplicates(writes)
    ensures forall c :: c in clients <==> (c, payload) in writes
    ensures forall i :: 0 <= i < |writes| ==> writes[i].1 == payload
    ensures after == clients - failed
    ensures NoDuplicates(closed)
    ensures forall c :: c in closed <==> c in clients && c in failed
  {
    var snapshot: seq<C> := [];
    var rest := clients;
    while rest != {}
      invariant rest <= clients
      invariant forall c :: c in snapshot <==> c in clients && c !in rest
      invariant NoDuplicates(snapshot)
      invariant |snapshot| + |rest| == |clients|
      decreases rest
    {
      var c :| c in rest;
      snapshot := snapshot + [c];
      rest := rest - {c};
    }
    writes := [];
    var n := 0;
    while n < |snapshot|
      invariant 0 <= n <= |snapshot|
      invariant |writes| == n
      invariant forall i :: 0 <= i < n ==> writes[i] == (snapshot[i], payload)
    {
      writes := writes + [(snapshot[n], payload)];
      n := n + 1;
    }
    var delivery := Deliver(clients, snapshot, failed);
    after, closed := delivery.clients, delivery.closed;
  }

  /** The gRPC Send reply. */
  datatype SendReply = SendReply(success: bool)

  /** Send: broadcasts the request's payload and always reports success. */
  method Send<C(==,!new), P(==,!new)>(clients: set<C>, payloadJson: P, failed: set<C>)
    returns (after: set<C>, writes: seq<(C, P)>, reply: SendReply)
    ensures reply.success
    ensures forall c :: c in clients <==> (c, payloadJson) in writes
    ensures after == clients - failed
  {
    var closed;
    after, writes, closed := Broadcast(clients, payloadJson, failed);
    reply := SendReply(true);
  }

  // ---- Registry history: each connection is closed at most once ----

  /** What can happen to the registry: a WebSocket upgrade registers a new
      connection, its read loop ends and removes it, or a broadcast writes
      over a snapshot (possibly stale) with some writes failing. */
  datatype HubEvent<C> =
    | Connected(conn: C)
    | Disconnected(conn: C)
    | Broadcasted(snapshot: seq<C>, failed: set<C>)

  /** The registry together with the log of Close calls made so far. */
  datatype Hub<C> = Hub(clients: set<C>, closeLog: seq<C>)

  function Step<C(==,!new)>(h: Hub<C>, e: HubEvent<C>): Hub<C>
  {
    match e
    case Connected(c) => Hub(AddClient(h.clients, c), h.closeLog)
    case Disconnected(c) =>
      var removal := RemoveClient(h.clients, c);
      Hub(removal.clients, if removal.closed then h.closeLog + [c] else h.closeLog)
    case Broadcasted(snapshot, failed) =>
      var delivery := Deliver(h.clients, snapshot, failed);
      Hub(delivery.clients, h.closeLog + delivery.closed)
  }

  function Run<C(==,!new)>(h: Hub<C>, es: seq<HubEvent<C>>): Hub<C>
    decreases |es|
  {
    if |es| == 0 then h else Step(Run(h, es[..|es| - 1]), es[|es| - 1])
  }

  /** No connection was closed twice, and no closed connection is registered. */
  ghost predicate HubInvariant<C(!new)>(h: Hub<C>)
  {
    NoDuplicates(h.closeLog) && forall c :: c in h.closeLog ==> c !in h.clients
  }

  /** Each connection a history registers is a fresh one: never closed before. */
  ghost predicate FreshConnections<C(!new)>(h: Hub<C>, es: seq<HubEvent<C>>)
  {
    forall i :: 0 <= i < |es| && es[i].Connected? ==> es[i].conn !in Run(h, es[..i]).closeLog
  }

  lemma {:induction false} StepKeepsInvariant<C(!new)>(h: Hub<C>, e: HubEvent<C>)
    requires HubInvariant(h)
    requires e.Connected? ==> e.conn !in h.closeLog
    ensures HubInvariant(Step(h, e))
  {
    match e
    case Connected(c) =>
    case Disconnected(c) =>
      var log := Step(h, e).closeLog;
      if c in h.clients {
        assert log == h.closeLog + [c];
        assert forall i :: 0 <= i < |h.closeLog| ==> log[i] == h.closeLog[i];
      }
    case Broadcasted(snapshot, failed) =>
      var d := Deliver(h.clients, snapshot, failed);
      var log := h.closeLog + d.closed;
      forall i, j | 0 <= i < j < |log|
        ensures log[i] != log[j]
      {
        if j >= |h.closeLog| {
          assert log[j] in d.closed;
          if i >= |h.closeLog| {
            assert log[i] == d.closed[i - |h.closeLog|];
          } else {
            assert log[i] in h.closeLog;
          }
        }
      }
  }

  /** Over any history that registers only fresh connections, starting from
      a registry whose closed connections are gone, every connection is
      closed at most once and closed connections stay unregistered. */
  lemma {:induction false} CloseAtMostOnce<C(!new)>(h: Hub<C>, es: seq<HubEvent<C>>)
    requires HubInvariant(h)
    requires FreshConnections(h, es)
    ensures HubInvariant(Run(h, es))
    ensures NoDuplicates(Run(h, es).closeLog)
    decreases |es|
  {
    if |es| > 0 {
      var prefix := es[..|es| - 1];
      assert FreshConnections(h, prefix) by {
        forall i | 0 <= i < |prefix| && prefix[i].Connected?
          ensures prefix[i].conn !in Run(h, prefix[..i]).closeLog
        {
          assert prefix[..i] == es[..i];
        }
      }
      CloseAtMostOnce(h, prefix);
      assert es[..|es| - 1] == prefix;
      StepKeepsInvariant(Run(h, prefix), es[|es| - 1]);
    }
  }

  /** Self-healing membership: after a broadcast, no connection whose write
      failed is registered, so later broadcasts never write to it unless it
      is registered again. */
  lemma FailedWriteLeavesRegistry<C(!new)>(h: Hub<C>, snapshot: seq<C>, failed: set<C>, c: C)
    requires c in snapshot && c in failed
    ensures c !in Step(h, Broadcasted(snapshot, failed)).clients
  {
  }
}
