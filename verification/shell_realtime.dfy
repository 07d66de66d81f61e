/** The shell frontend's RealtimeClient: a WebSocket client that keeps a
    list of callbacks per event type and calls them, in subscription order,
    for each event frame the gateway pushes. Callbacks are values of a type
    parameter compared by identity; a call is recorded as the callback with
    its argument. The socket itself, the console and the reconnect timer
    are outside the model; each socket callback is a function from the
    client state to the next state and the calls it makes. */
module ShellRealtime {
  import opened Text

  /** A callback argument: the `{ status: 'ok' }` object sent on connect,
      the `payload` member of an event frame as JSON text, or undefined
      when the frame has no payload. */
  datatype Payload = StatusOk | Value(json: string) | Undefined

  datatype Client<Cb> = Client(endpoint: string, subscribers: map<string, seq<Cb>>, connected: bool)

  /** The constructor: no subscribers, not yet connected. */
  function NewClient<Cb>(endpoint: string): (c: Client<Cb>)
    ensures c.endpoint == endpoint && c.subscribers == map[] && !c.connected
  {
    Client(endpoint, map[], false)
  }

  /** The callbacks registered for a type, [] when it has no entry. */
  function Listeners<Cb>(c: Client<Cb>, eventType: string): seq<Cb>
  {
    if eventType in c.subscribers then c.subscribers[eventType] else []
  }

  /** subscribe: the callback is appended to the type's list, which is
      created when missing; subscribing twice registers twice. */
  function Subscribe<Cb>(c: Client<Cb>, eventType: string, cb: Cb): (r: Client<Cb>)
    ensures r.subscribers.Keys == c.subscribers.Keys + {eventType}
    ensures r.subscribers[eventType] == Listeners(c, eventType) + [cb]
    ensures forall t :: t in c.subscribers && t != eventType ==> r.subscribers[t] == c.subscribers[t]
    ensures r.endpoint == c.endpoint && r.connected == c.connected
  {
    c.(subscribers := c.subscribers[eventType := Listeners(c, eventType) + [cb]])
  }

  /** Array.prototype.filter(x => x !== cb). */
  function Without<Cb(==,!new)>(cbs: seq<Cb>, cb: Cb): (r: seq<Cb>)
    ensures cb !in r
    ensures forall x :: x != cb ==> multiset(r)[x] == multiset(cbs)[x]
  {
    if |cbs| == 0 then []
    else
      assert cbs == [cbs[0]] + cbs[1..];
      (if cbs[0] == cb then [] else [cbs[0]]) + Without(cbs[1..], cb)
  }

  /** The filter keeps the other callbacks in their order. */
  lemma {:induction false} WithoutKeepsOrder<Cb(!new)>(cbs: seq<Cb>, extra: seq<Cb>, cb: Cb)
    ensures Without(cbs + extra, cb) == Without(cbs, cb) + Without(extra, cb)
    decreases |cbs|
  {
    if |cbs| == 0 {
      assert cbs + extra == extra;
    } else {
      assert (cbs + extra)[1..] == cbs[1..] + extra;
      WithoutKeepsOrder(cbs[1..], extra, cb);
    }
  }

  /** Nothing is removed from a list that does not hold the callback. */
  lemma {:induction false} WithoutAbsent<Cb(!new)>(cbs: seq<Cb>, cb: Cb)
    requires cb !in cbs
    ensures Without(cbs, cb) == cbs
    decreases |cbs|
  {
    if |cbs| > 0 {
      assert cb !in cbs[1..];
      WithoutAbsent(cbs[1..], cb);
    }
  }

  /** unsubscribe: every registration of the callback for that type is
      removed; an unknown type is left alone. */
  function Unsubscribe<Cb(==,!new)>(c: Client<Cb>, eventType: string, cb: Cb): (r: Client<Cb>)
    ensures eventType !in c.subscribers ==> r == c
    ensures eventType in c.subscribers ==>
      r.subscribers == c.subscribers[eventType := Without(c.subscribers[eventType], cb)]
    ensures r.endpoint == c.endpoint && r.connected == c.connected
  {
    if eventType !in c.subscribers then c
    else c.(subscribers := c.subscribers[eventType := Without(c.subscribers[eventType], cb)])
  }

  /** The calls one dispatch made, and whether it ended with an exception
      thrown by the last callback called. */
  datatype Dispatch<Cb> = Dispatch(calls: seq<(Cb, Payload)>, threw: bool)

  /** `forEach(cb => cb(payload))`: the callbacks are called in order until
      one throws; that exception ends the loop. `throws` tells which
      callbacks throw when called with this payload. */
  function CallEach<Cb>(cbs: seq<Cb>, payload: Payload, throws: Cb -> bool): (d: Dispatch<Cb>)
    ensures d.threw <==> exists i :: 0 <= i < |cbs| && throws(cbs[i])
    ensures |d.calls| <= |cbs|
    ensures forall i :: 0 <= i < |d.calls| ==> d.calls[i] == (cbs[i], payload)
    ensures forall i :: 0 <= i < |d.calls| - 1 ==> !throws(cbs[i])
    ensures d.threw ==> |d.calls| > 0 && throws(cbs[|d.calls| - 1])
    ensures !d.threw ==> |d.calls| == |cbs|
    decreases |cbs|
  {
    if |cbs| == 0 then Dispatch([], false)
    else if throws(cbs[0]) then Dispatch([(cbs[0], payload)], true)
    else
      var rest := CallEach(cbs[1..], payload, throws);
      assert forall i :: 1 <= i < |cbs| ==> cbs[1..][i - 1] == cbs[i];
      Dispatch([(cbs[0], payload)] + rest.calls, rest.threw)
  }

  /** Dispatching to a list with more callbacks at its end: the extra
      callbacks are reached only when none of the first ones throws. */
  lemma {:induction false} CallEachAppend<Cb>(cbs: seq<Cb>, extra: seq<Cb>, payload: Payload, throws: Cb -> bool)
    ensures var first := CallEach(cbs, payload, throws);
      var rest := CallEach(extra, payload, throws);
      CallEach(cbs + extra, payload, throws)
        == if first.threw then first else Dispatch(first.calls + rest.calls, rest.threw)
    decreases |cbs|
  {
    if |cbs| == 0 {
      assert cbs + extra == extra;
    } else {
      var call := (cbs[0], payload);
      assert (cbs + extra)[0] == cbs[0];
      assert (cbs + extra)[1..] == cbs[1..] + extra;
      if !throws(cbs[0]) {
        CallEachAppend(cbs[1..], extra, payload, throws);
        PrependCall(call, CallEach(cbs[1..], payload, throws),
          CallEach(extra, payload, throws), CallEach(cbs[1..] + extra, payload, throws));
      }
    }
  }

  /** One more call in front of a dispatch that may have reached the extra
      callbacks. */
  lemma PrependCall<Cb>(call: (Cb, Payload), tail: Dispatch<Cb>, rest: Dispatch<Cb>, both: Dispatch<Cb>)
    requires both == if tail.threw then tail else Dispatch(tail.calls + rest.calls, rest.threw)
    ensures Dispatch([call] + both.calls, both.threw)
      == if tail.threw then Dispatch([call] + tail.calls, tail.threw)
         else Dispatch(([call] + tail.calls) + rest.calls, rest.threw)
  {
    if !tail.threw {
      assert [call] + (tail.calls + rest.calls) == ([call] + tail.calls) + rest.calls;
    }
  }

  /** _notifySubscribers: the callbacks registered for the type are called
      with the payload in registration order, up to and including the first
      one that throws; an unknown type calls none. */
  function Notify<Cb>(c: Client<Cb>, eventType: string, payload: Payload, throws: Cb -> bool): (d: Dispatch<Cb>)
    ensures |d.calls| <= |Listeners(c, eventType)|
    ensures forall i :: 0 <= i < |d.calls| ==> d.calls[i] == (Listeners(c, eventType)[i], payload)
    ensures d.threw <==> exists i :: 0 <= i < |Listeners(c, eventType)| && throws(Listeners(c, eventType)[i])
    ensures d.threw ==> (|d.calls| > 0 && throws(d.calls[|d.calls| - 1].0))
    ensures forall i :: 0 <= i < |d.calls| - 1 ==> !throws(d.calls[i].0)
    ensures !d.threw ==> |d.calls| == |Listeners(c, eventType)|
  {
    CallEach(Listeners(c, eventType), payload, throws)
  }

  /** A new subscriber is called after those already registered, unless
      one of them throws first. */
  lemma SubscribeThenNotify<Cb>(c: Client<Cb>, eventType: string, cb: Cb, payload: Payload, throws: Cb -> bool)
    ensures var before := Notify(c, eventType, payload, throws);
      Notify(Subscribe(c, eventType, cb), eventType, payload, throws)
        == if before.threw then before else Dispatch(before.calls + [(cb, payload)], throws(cb))
  {
    assert Listeners(Subscribe(c, eventType, cb), eventType) == Listeners(c, eventType) + [cb];
    CallEachAppend(Listeners(c, eventType), [cb], payload, throws);
  }

  /** Subscribing to one type does not change what another type calls. */
  lemma SubscribeOtherType<Cb>(c: Client<Cb>, eventType: string, other: string, cb: Cb, payload: Payload, throws: Cb -> bool)
    requires other != eventType
    ensures Notify(Subscribe(c, eventType, cb), other, payload, throws) == Notify(c, other, payload, throws)
  {
    assert Listeners(Subscribe(c, eventType, cb), other) == Listeners(c, other);
  }

  /** After unsubscribing, the callback is never called for that type. */
  lemma UnsubscribeThenNotify<Cb(!new)>(c: Client<Cb>, eventType: string, cb: Cb, payload: Payload, throws: Cb -> bool)
    ensures forall call :: call in Notify(Unsubscribe(c, eventType, cb), eventType, payload, throws).calls ==> call.0 != cb
  {
    var calls := Notify(Unsubscribe(c, eventType, cb), eventType, payload, throws).calls;
    var cbs := Listeners(Unsubscribe(c, eventType, cb), eventType);
    assert cb !in cbs;
    forall call | call in calls ensures call.0 != cb {
      var i :| 0 <= i < |calls| && calls[i] == call;
      assert call.0 == cbs[i];
    }
  }

  /** Subscribing a callback and unsubscribing it again leaves every
      notification as it was, provided it was not registered before. */
  lemma SubscribeUnsubscribe<Cb(!new)>(c: Client<Cb>, eventType: string, cb: Cb, other: string, payload: Payload, throws: Cb -> bool)
    requires cb !in Listeners(c, eventType)
    ensures Notify(Unsubscribe(Subscribe(c, eventType, cb), eventType, cb), other, payload, throws)
      == Notify(c, other, payload, throws)
  {
    var s := Subscribe(c, eventType, cb);
    var u := Unsubscribe(s, eventType, cb);
    if other == eventType {
      WithoutKeepsOrder(Listeners(c, eventType), [cb], cb);
      WithoutAbsent(Listeners(c, eventType), cb);
      assert Without([cb], cb) == [];
      assert Listeners(u, other) == Listeners(c, other);
    } else {
      assert Listeners(u, other) == Listeners(c, other);
    }
  }

  /** The `type` member of a parsed frame, as JavaScript sees it. */
  datatype TypeField = Absent | StringType(name: string) | OtherTruthy | OtherFalsy

  /** A frame as JSON.parse reads it: unparseable text; `null`, whose
      `type` cannot be read; another primitive, whose `type` is undefined;
      or an object or array with its `type` and `payload` members. */
  datatype Frame = Unparseable | Null | Primitive | Event(typ: TypeField, payload: Payload)

  /** JavaScript truthiness of the `type` member. */
  predicate Truthy(t: TypeField)
  {
    match t
    case Absent => false
    case StringType(name) => name != ""
    case OtherTruthy => true
    case OtherFalsy => false
  }

  /** What onmessage did: the callbacks it called, and whether it logged a
      parsing error (the catch block). */
  datatype Received<Cb> = Received(calls: seq<(Cb, Payload)>, loggedError: bool)

  /** onmessage: a frame with a truthy type notifies that type's
      subscribers with the frame's payload. Everything thrown inside the
      try block is caught and logged as a parsing error: a JSON.parse
      failure, reading `type` of null, and an exception from a subscriber,
      which also skips the subscribers after it. Subscriber lists here are
      keyed by strings only, so a truthy type that is not a string matches
      no list; the source's Map would also match a non-string key that a
      caller had subscribed under. */
  function OnMessage<Cb>(c: Client<Cb>, frame: Frame, throws: Cb -> bool): (r: Received<Cb>)
    ensures r.calls != [] ==> frame.Event? && frame.typ.StringType? && frame.typ.name != ""
    ensures frame.Event? && frame.typ.StringType? && Truthy(frame.typ) ==>
      r == Received(Notify(c, frame.typ.name, frame.payload, throws).calls,
                    Notify(c, frame.typ.name, frame.payload, throws).threw)
    ensures !frame.Event? || !Truthy(frame.typ) ==> r.calls == []
    ensures frame.Unparseable? || frame.Null? ==> r.loggedError
    ensures frame.Primitive? || (frame.Event? && !frame.typ.StringType?) ==> !r.loggedError
  {
    match frame
    case Unparseable => Received([], true)
    case Null => Received([], true)
    case Primitive => Received([], false)
    case Event(StringType(name), payload) =>
      if name != "" then
        var d := Notify(c, name, payload, throws);
        Received(d.calls, d.threw)
      else Received([], false)
    case Event(_, _) => Received([], false)
  }

  /** What onopen and onclose leave behind. `escaped` is an exception from
      a 'system:connected' subscriber, which onopen does not catch. */
  datatype Opened<Cb> = Opened(client: Client<Cb>, calls: seq<(Cb, Payload)>, escaped: bool)
  datatype Closed<Cb> = Closed(client: Client<Cb>, retryAfterMillis: nat)

  const SystemConnected: string := "system:connected"
  const ReconnectDelayMillis: nat := 3000

  /** onopen: the client is connected before the 'system:connected'
      subscribers are told so; one of them throwing leaves it connected. */
  function OnOpen<Cb>(c: Client<Cb>, throws: Cb -> bool): (r: Opened<Cb>)
    ensures r.client.connected
    ensures r.client.subscribers == c.subscribers && r.client.endpoint == c.endpoint
    ensures r.calls == Notify(c, SystemConnected, StatusOk, throws).calls
    ensures r.escaped <==> exists i :: 0 <= i < |Listeners(c, SystemConnected)| && throws(Listeners(c, SystemConnected)[i])
  {
    var d := Notify(c, SystemConnected, StatusOk, throws);
    Opened(c.(connected := true), d.calls, d.threw)
  }

  /** onclose: the client is disconnected and a new connection to the same
      endpoint is scheduled; subscriptions survive. */
  function OnClose<Cb>(c: Client<Cb>): (r: Closed<Cb>)
    ensures !r.client.connected
    ensures r.client.subscribers == c.subscribers && r.client.endpoint == c.endpoint
    ensures r.retryAfterMillis == ReconnectDelayMillis
  {
    Closed(c.(connected := false), ReconnectDelayMillis)
  }

  /** Subscriptions made before a disconnect are served after the
      reconnect: the connected notification reaches them again. */
  lemma ReconnectKeepsSubscribers<Cb>(c: Client<Cb>, throws: Cb -> bool)
    ensures OnOpen(OnClose(c).client, throws).calls == Notify(c, SystemConnected, StatusOk, throws).calls
  {
    assert Listeners(OnClose(c).client, SystemConnected) == Listeners(c, SystemConnected);
  }

  /** The gateway URL used when VITE_GATEWAY_URL is unset or empty. */
  const DefaultGatewayUrl: string := "http://localhost:8080"

  /** `VITE_GATEWAY_URL || 'http://localhost:8080'`: undefined and ""
      both fall back. */
  function GatewayUrl(configured: string): (g: string)
    ensures configured != "" ==> g == configured
    ensures configured == "" ==> g == DefaultGatewayUrl
  {
    if configured == "" then DefaultGatewayUrl else configured
  }

  /** `replace(/^http/, 'ws')`: a leading "http" becomes "ws", once. */
  function WebSocketUrl(g: string): (w: string)
    ensures HasPrefix(g, "http") ==> w == "ws" + g[4..]
    ensures !HasPrefix(g, "http") ==> w == g
  {
    if HasPrefix(g, "http") then "ws" + g[4..] else g
  }

  /** The endpoint the client connects to. */
  function Endpoint(configured: string): string
  {
    WebSocketUrl(GatewayUrl(configured)) + "/ws"
  }

  /** Whatever follows the leading "http" is kept after "ws". */
  lemma HttpPrefixRewritten(tail: string)
    ensures WebSocketUrl("http" + tail) == "ws" + tail
  {
    var s := "http" + tail;
    assert s[..4] == "http";
    assert s[4..] == tail;
  }

  /** https becomes wss and http becomes ws; the rest is kept. */
  lemma SchemeMapping(rest: string)
    ensures WebSocketUrl("https://" + rest) == "wss://" + rest
    ensures WebSocketUrl("http://" + rest) == "ws://" + rest
  {
    HttpPrefixRewritten("s://" + rest);
    assert "https://" + rest == "http" + ("s://" + rest);
    assert "wss://" + rest == "ws" + ("s://" + rest);
    HttpPrefixRewritten("://" + rest);
    assert "http://" + rest == "http" + ("://" + rest);
    assert "ws://" + rest == "ws" + ("://" + rest);
  }

  /** The rewrite is idempotent: a rewritten URL starts with "ws", never
      with "http". */
  lemma WebSocketUrlIdempotent(g: string)
    ensures WebSocketUrl(WebSocketUrl(g)) == WebSocketUrl(g)
  {
    var w := WebSocketUrl(g);
    if HasPrefix(g, "http") {
      assert w[0] == 'w';
      assert !HasPrefix(w, "http");
    }
  }

  /** With nothing configured the client connects to the local gateway. */
  lemma DefaultEndpoint()
    ensures Endpoint("") == "ws://localhost:8080/ws"
  {
    DefaultWebSocketUrl();
    assert Endpoint("") == "ws://localhost:8080" + "/ws";
  }

  /** The default gateway URL rewritten for WebSocket use. */
  lemma DefaultWebSocketUrl()
    ensures WebSocketUrl(DefaultGatewayUrl) == "ws://localhost:8080"
  {
    var host := "://localhost:8080";
    assert DefaultGatewayUrl == "http" + host;
    HttpPrefixRewritten(host);
  }
}
