/** The event bus of the restaurant client (restaurant/src/core/events.js):
    in-tab subscriptions with a '*' wildcard, cross-tab fan-out over a
    BroadcastChannel, and the WebSocket link to the authoritative server with
    its retry timer. Handlers are opaque identities; the transports and the
    handler calls are recorded in logs. */
module Events {
  import opened Values

  /** A subscribed callback. Identity is the value itself; `throws` says
      whether calling it raises an exception. */
  datatype Handler = Handler(id: nat, throws: bool)

  /** One invocation of a handler: the first argument it received and the
      `fromBroadcast` flag passed as the second. */
  datatype Delivery = Delivery(handler: Handler, arg: Value, fromBroadcast: bool)

  /** The function `on` returns; calling it runs `off(event, fn)`. */
  datatype Unsubscriber = Unsubscriber(event: string, fn: Handler)

  /** A message posted on the BroadcastChannel. */
  datatype Post = Post(event: string, payload: Value)

  /** Messages this client sends to the server. */
  datatype Outbound =
    | SetMsg(path: string, value: Value)
    | EventMsg(event: string, payload: Value)
    | CreateOrderMsg(order: Value)

  /** What an inbound WebSocket message decodes to. */
  datatype Inbound =
    | FullState(state: Value)
    | StateChange(path: Value, value: Value)
    | RelayedEvent(event: Value, payload: Value)
    | Ignored

  /** The `readyState` of a live WebSocket object. */
  datatype ReadyState = Connecting | Open | Closing

  /** Calls made into the bus by its clients (the store and auth), recorded
      so that their number and order can be stated. */
  datatype Call =
    | SendToServerCall(path: string, value: Value)
    | EmitCall(event: string, payload: Value, broadcast: bool)

  const Wildcard: string := "*"
  /** Delay before reconnecting after the socket closed. */
  const CloseRetryDelay: nat := 3000
  /** Delay before reconnecting after the WebSocket constructor threw. */
  const ThrowRetryDelay: nat := 5000

  // ---------------------------------------------------------------------------
  // Wire formats

  /** The object `JSON.stringify` is applied to before `ws.send`. */
  function Encode(m: Outbound): (v: Value)
    ensures v.Obj?
    ensures m.SetMsg? ==> Prop(v, "type") == Str("SET") && Prop(v, "path") == Str(m.path) && Prop(v, "value") == m.value
    ensures m.EventMsg? ==>
      Prop(v, "type") == Str("EVENT") && Prop(v, "event") == Str(m.event) && Prop(v, "payload") == m.payload
    ensures m.CreateOrderMsg? ==> Prop(v, "type") == Str("CREATE_ORDER") && Prop(v, "order") == m.order
  {
    match m
    case SetMsg(path, value) => Obj(map["type" := Str("SET"), "path" := Str(path), "value" := value])
    case EventMsg(event, payload) => Obj(map["type" := Str("EVENT"), "event" := Str(event), "payload" := payload])
    case CreateOrderMsg(order) => Obj(map["type" := Str("CREATE_ORDER"), "order" := order])
  }

  /** The object posted on the BroadcastChannel. */
  function PostData(p: Post): Value {
    Obj(map["__event" := Str(p.event), "payload" := p.payload])
  }

  /** Decoding of an inbound WebSocket frame; `None` is a frame that
      `JSON.parse` rejects. */
  function Decode(raw: Option<Value>): (r: Inbound)
    ensures r.FullState? ==> raw.Some? && Prop(raw.value, "type") == Str("FULL_STATE")
    ensures r.StateChange? ==> raw.Some? && Prop(raw.value, "type") == Str("STATE_CHANGE")
    ensures r.RelayedEvent? ==> raw.Some? && Prop(raw.value, "type") == Str("EVENT") && Truthy(r.event)
    ensures raw.None? ==> r == Ignored
    ensures raw.Some? && !Nullish(raw.value) && Prop(raw.value, "type") == Str("FULL_STATE") ==>
      r == FullState(Prop(raw.value, "state"))
    ensures raw.Some? && !Nullish(raw.value) && Prop(raw.value, "type") == Str("STATE_CHANGE") ==>
      r == StateChange(Prop(raw.value, "path"), Prop(raw.value, "value"))
    ensures raw.Some? && !Nullish(raw.value) && Prop(raw.value, "type") == Str("EVENT") && Truthy(Prop(raw.value, "event")) ==>
      r == RelayedEvent(Prop(raw.value, "event"), Prop(raw.value, "payload"))
    ensures r == Ignored <==>
      || raw.None? || Nullish(raw.value)
      || (&& Prop(raw.value, "type") != Str("FULL_STATE") && Prop(raw.value, "type") != Str("STATE_CHANGE")
          && !(Prop(raw.value, "type") == Str("EVENT") && Truthy(Prop(raw.value, "event"))))
  {
    match raw
    case None => Ignored
    case Some(msg) =>
      // `msg.type` on null throws inside the try block: dropped.
      if Nullish(msg) then Ignored
      else
        var t := Prop(msg, "type");
        if t == Str("FULL_STATE") then FullState(Prop(msg, "state"))
        else if t == Str("STATE_CHANGE") then StateChange(Prop(msg, "path"), Prop(msg, "value"))
        else if t == Str("EVENT") && Truthy(Prop(msg, "event")) then RelayedEvent(Prop(msg, "event"), Prop(msg, "payload"))
        else Ignored
  }

  /** The local dispatch (event, payload, fromBroadcast) an inbound message causes. */
  function InboundDispatch(m: Inbound): (r: Option<(Value, Value, bool)>)
    ensures r.None? <==> m.Ignored?
    ensures r.Some? ==> (r.value.2 <==> m.RelayedEvent?)
    ensures r.Some? && !m.RelayedEvent? ==>
      r.value.0 == Str("server:full-state") || r.value.0 == Str("server:state-change")
  {
    match m
    case FullState(state) => Some((Str("server:full-state"), state, false))
    case StateChange(path, value) => Some((Str("server:state-change"), Obj(map["path" := path, "value" := value]), false))
    case RelayedEvent(event, payload) => Some((event, payload, true))
    case Ignored => None
  }

  /** What `onmessage` dispatches for a parsed, non-null frame: the two
      server notifications under their own names with the snapshot or the
      `{path, value}` pair, a relayed event under its name with its payload
      and marked as from a broadcast, and nothing for any other frame. */
  lemma InboundFrames(v: Value)
    requires !Nullish(v)
    ensures Prop(v, "type") == Str("FULL_STATE") ==>
      InboundDispatch(Decode(Some(v))) == Some((Str("server:full-state"), Prop(v, "state"), false))
    ensures Prop(v, "type") == Str("STATE_CHANGE") ==>
      InboundDispatch(Decode(Some(v))) ==
        Some((Str("server:state-change"), Obj(map["path" := Prop(v, "path"), "value" := Prop(v, "value")]), false))
    ensures Prop(v, "type") == Str("EVENT") && Truthy(Prop(v, "event")) ==>
      InboundDispatch(Decode(Some(v))) == Some((Prop(v, "event"), Prop(v, "payload"), true))
    ensures (Prop(v, "type") != Str("FULL_STATE") && Prop(v, "type") != Str("STATE_CHANGE") &&
      !(Prop(v, "type") == Str("EVENT") && Truthy(Prop(v, "event")))) ==>
      InboundDispatch(Decode(Some(v))).None?
  {
  }

  /** An EVENT message that the server relays unchanged reaches the other
      clients as that event, unless its name is empty. */
  lemma RelayRoundTrip(event: string, payload: Value)
    ensures event != "" ==> Decode(Some(Encode(EventMsg(event, payload)))) == RelayedEvent(Str(event), payload)
    ensures event == "" ==> Decode(Some(Encode(EventMsg(event, payload)))) == Ignored
  {
  }

  /** The channel message a tab receives from `emit` in another tab. */
  function ChannelDispatch(data: Value): (r: Option<(Value, Value)>)
    ensures r.Some? <==> Truthy(data) && Truthy(Prop(data, "__event"))
    ensures r.Some? ==> Truthy(r.value.0) && r.value.1 == Prop(data, "payload")
    ensures r.Some? ==> r.value.0 == Prop(data, "__event")
  {
    if Truthy(data) && Truthy(Prop(data, "__event")) then Some((Prop(data, "__event"), Prop(data, "payload")))
    else None
  }

  lemma ChannelRoundTrip(p: Post)
    ensures p.event != "" ==> ChannelDispatch(PostData(p)) == Some((Str(p.event), p.payload))
    ensures p.event == "" ==> ChannelDispatch(PostData(p)) == None
  {
  }

  // ---------------------------------------------------------------------------
  // Listener lists and dispatch order

  /** The table after `on(event, fn)`: `fn` appended to the event's list,
      which is created empty first if missing. */
  function Subscribed(listeners: map<string, seq<Handler>>, event: string, fn: Handler): (r: map<string, seq<Handler>>)
    ensures ListenersOf(r, event) == ListenersOf(listeners, event) + [fn]
    ensures forall e :: e != event ==> ListenersOf(r, e) == ListenersOf(listeners, e)
  {
    listeners[event := ListenersOf(listeners, event) + [fn]]
  }

  /** `this._listeners[event] || []`. */
  function ListenersOf(listeners: map<string, seq<Handler>>, event: string): seq<Handler> {
    if event in listeners then listeners[event] else []
  }

  /** The calls `fn(arg, fromBroadcast)` for each handler of a list, in order. */
  function Each(hs: seq<Handler>, arg: Value, fromBroadcast: bool): (ds: seq<Delivery>)
    decreases |hs|
  {
    if |hs| == 0 then []
    else Each(hs[..|hs| - 1], arg, fromBroadcast) + [Delivery(hs[|hs| - 1], arg, fromBroadcast)]
  }

  /** The argument a wildcard handler receives: `{event, payload}`. */
  function WildcardArg(event: Value, payload: Value): Value {
    Obj(map["event" := event, "payload" := payload])
  }

  /** Every handler call made by `_dispatch(event, payload, fromBroadcast)`:
      the event's own handlers, then the wildcard handlers. Property keys are
      strings, so the event is looked up under `String(event)`. */
  function Deliveries(listeners: map<string, seq<Handler>>, event: Value, payload: Value, fromBroadcast: bool): (ds: seq<Delivery>)
    ensures |ds| == |ListenersOf(listeners, JsString(event))| + |ListenersOf(listeners, Wildcard)|
  {
    EachAt(ListenersOf(listeners, JsString(event)), payload, fromBroadcast);
    EachAt(ListenersOf(listeners, Wildcard), WildcardArg(event, payload), fromBroadcast);
    Each(ListenersOf(listeners, JsString(event)), payload, fromBroadcast)
      + Each(ListenersOf(listeners, Wildcard), WildcardArg(event, payload), fromBroadcast)
  }

  /** The `console.error` lines (the event name) written for the failing
      handlers of a list: one per throwing handler. */
  function Failures(hs: seq<Handler>, event: string): seq<string>
    decreases |hs|
  {
    if |hs| == 0 then []
    else Failures(hs[..|hs| - 1], event) + (if hs[|hs| - 1].throws then [event] else [])
  }

  function Count(hs: seq<Handler>, fn: Handler): nat
    decreases |hs|
  {
    if |hs| == 0 then 0 else Count(hs[..|hs| - 1], fn) + (if hs[|hs| - 1] == fn then 1 else 0)
  }

  function Throwing(hs: seq<Handler>): nat
    decreases |hs|
  {
    if |hs| == 0 then 0 else Throwing(hs[..|hs| - 1]) + (if hs[|hs| - 1].throws then 1 else 0)
  }

  /** How many of the deliveries went to `fn`. */
  function CallsTo(ds: seq<Delivery>, fn: Handler): nat
    decreases |ds|
  {
    if |ds| == 0 then 0 else CallsTo(ds[..|ds| - 1], fn) + (if ds[|ds| - 1].handler == fn then 1 else 0)
  }

  /** One more handler of the loop: its delivery and error line come last. */
  lemma EachStep(hs: seq<Handler>, i: nat, arg: Value, fromBroadcast: bool, event: string)
    requires i < |hs|
    ensures Each(hs[..i + 1], arg, fromBroadcast) == Each(hs[..i], arg, fromBroadcast) + [Delivery(hs[i], arg, fromBroadcast)]
    ensures Failures(hs[..i + 1], event) == Failures(hs[..i], event) + (if hs[i].throws then [event] else [])
  {
    assert hs[..i + 1][..i] == hs[..i];
  }

  /** Handler i is called i-th, with the given argument, whether or not an
      earlier handler threw. */
  lemma {:induction false} EachAt(hs: seq<Handler>, arg: Value, fromBroadcast: bool)
    ensures |Each(hs, arg, fromBroadcast)| == |hs|
    ensures forall i :: 0 <= i < |hs| ==> Each(hs, arg, fromBroadcast)[i] == Delivery(hs[i], arg, fromBroadcast)
    decreases |hs|
  {
    if |hs| > 0 {
      EachAt(hs[..|hs| - 1], arg, fromBroadcast);
    }
  }

  lemma {:induction false} CallsToAppend(a: seq<Delivery>, b: seq<Delivery>, fn: Handler)
    ensures CallsTo(a + b, fn) == CallsTo(a, fn) + CallsTo(b, fn)
    decreases |b|
  {
    if |b| > 0 {
      assert (a + b)[..|a + b| - 1] == a + b[..|b| - 1];
      CallsToAppend(a, b[..|b| - 1], fn);
    } else {
      assert a + b == a;
    }
  }

  lemma {:induction false} CallsToEach(hs: seq<Handler>, arg: Value, fromBroadcast: bool, fn: Handler)
    ensures CallsTo(Each(hs, arg, fromBroadcast), fn) == Count(hs, fn)
    decreases |hs|
  {
    if |hs| > 0 {
      CallsToEach(hs[..|hs| - 1], arg, fromBroadcast, fn);
      CallsToAppend(Each(hs[..|hs| - 1], arg, fromBroadcast), [Delivery(hs[|hs| - 1], arg, fromBroadcast)], fn);
    }
  }

  /** A handler is called once per registration under the event plus once per
      registration under '*'; in particular a handler registered once, for an
      event other than '*', and not as a wildcard, is called exactly once. */
  lemma DeliveriesCount(listeners: map<string, seq<Handler>>, event: Value, payload: Value, fromBroadcast: bool, fn: Handler)
    ensures CallsTo(Deliveries(listeners, event, payload, fromBroadcast), fn)
      == Count(ListenersOf(listeners, JsString(event)), fn) + Count(ListenersOf(listeners, Wildcard), fn)
  {
    var own := Each(ListenersOf(listeners, JsString(event)), payload, fromBroadcast);
    var wild := Each(ListenersOf(listeners, Wildcard), WildcardArg(event, payload), fromBroadcast);
    CallsToAppend(own, wild, fn);
    CallsToEach(ListenersOf(listeners, JsString(event)), payload, fromBroadcast, fn);
    CallsToEach(ListenersOf(listeners, Wildcard), WildcardArg(event, payload), fromBroadcast, fn);
  }

  /** The own handlers come first, each with the payload, then the wildcard
      handlers, each with `{event, payload}`. */
  lemma DeliveriesOrder(listeners: map<string, seq<Handler>>, event: Value, payload: Value, fromBroadcast: bool)
    ensures var own := ListenersOf(listeners, JsString(event));
            var wild := ListenersOf(listeners, Wildcard);
            var ds := Deliveries(listeners, event, payload, fromBroadcast);
            && |ds| == |own| + |wild|
            && (forall i :: 0 <= i < |own| ==> ds[i] == Delivery(own[i], payload, fromBroadcast))
            && (forall j :: 0 <= j < |wild| ==> ds[|own| + j] == Delivery(wild[j], WildcardArg(event, payload), fromBroadcast))
  {
    EachAt(ListenersOf(listeners, JsString(event)), payload, fromBroadcast);
    EachAt(ListenersOf(listeners, Wildcard), WildcardArg(event, payload), fromBroadcast);
  }

  /** One error line per throwing handler, each naming the event. */
  lemma {:induction false} FailuresCount(hs: seq<Handler>, event: string)
    ensures |Failures(hs, event)| == Throwing(hs)
    ensures forall i :: 0 <= i < |Failures(hs, event)| ==> Failures(hs, event)[i] == event
    decreases |hs|
  {
    if |hs| > 0 {
      FailuresCount(hs[..|hs| - 1], event);
    }
  }

  // ---------------------------------------------------------------------------
  // Unsubscription

  /** `hs.filter(f => f !== fn)`. */
  function Without(hs: seq<Handler>, fn: Handler): (r: seq<Handler>)
    ensures |r| <= |hs|
    ensures forall h :: h in r <==> h in hs && h != fn
    decreases |hs|
  {
    if |hs| == 0 then [] else (if hs[0] == fn then [] else [hs[0]]) + Without(hs[1..], fn)
  }

  lemma {:induction false} WithoutAppend(a: seq<Handler>, b: seq<Handler>, fn: Handler)
    ensures Without(a + b, fn) == Without(a, fn) + Without(b, fn)
    decreases |a|
  {
    if |a| > 0 {
      assert (a + b)[0] == a[0];
      assert (a + b)[1..] == a[1..] + b;
      WithoutAppend(a[1..], b, fn);
    } else {
      assert a + b == b;
    }
  }

  /** `off` drops every registration of `fn` and keeps all others, in order. */
  lemma {:induction false} WithoutCount(hs: seq<Handler>, fn: Handler, g: Handler)
    ensures Count(Without(hs, fn), g) == if g == fn then 0 else Count(hs, g)
    decreases |hs|
  {
    if |hs| > 0 {
      var init := hs[..|hs| - 1];
      var last := hs[|hs| - 1];
      assert hs == init + [last];
      WithoutAppend(init, [last], fn);
      WithoutCount(init, fn, g);
      assert Without([last], fn) == (if last == fn then [] else [last]);
      var w := Without(init, fn) + Without([last], fn);
      if last == fn {
        assert w == Without(init, fn);
      } else {
        assert w[..|w| - 1] == Without(init, fn);
      }
    }
  }

  /** Unsubscribing twice is the same as unsubscribing once. */
  lemma {:induction false} WithoutIdempotent(hs: seq<Handler>, fn: Handler)
    ensures Without(Without(hs, fn), fn) == Without(hs, fn)
    decreases |hs|
  {
    if |hs| > 0 {
      var head := if hs[0] == fn then [] else [hs[0]];
      WithoutAppend(head, Without(hs[1..], fn), fn);
      WithoutIdempotent(hs[1..], fn);
      if hs[0] != fn {
        assert Without(head, fn) == [hs[0]] + Without([], fn);
      }
    }
  }

  /** Subscribing a handler that was not yet registered and then calling the
      unsubscriber restores the list. */
  lemma {:induction false} OnThenOff(hs: seq<Handler>, fn: Handler)
    requires Count(hs, fn) == 0
    ensures Without(hs + [fn], fn) == hs
    decreases |hs|
  {
    WithoutAppend(hs, [fn], fn);
    WithoutAbsent(hs, fn);
    assert Without([fn], fn) == [] + Without([], fn);
  }

  lemma {:induction false} WithoutAbsent(hs: seq<Handler>, fn: Handler)
    requires Count(hs, fn) == 0
    ensures Without(hs, fn) == hs
    decreases |hs|
  {
    if |hs| > 0 {
      var init := hs[..|hs| - 1];
      assert hs == init + [hs[|hs| - 1]];
      WithoutAppend(init, [hs[|hs| - 1]], fn);
      WithoutAbsent(init, fn);
      assert Without([hs[|hs| - 1]], fn) == [hs[|hs| - 1]] + Without([], fn);
    }
  }

  // ---------------------------------------------------------------------------
  // The bus

  class EventBus {
    /** `_listeners`: event name to handlers in registration order. */
    var listeners: map<string, seq<Handler>>
    /** Whether `new BroadcastChannel(...)` succeeded in the constructor. */
    var channel: bool
    /** `_ws`: the current socket, if any, by its readyState. */
    var ws: Option<ReadyState>
    /** `_wsReady`. */
    var ready: bool
    /** The pending reconnect timer, by its delay in milliseconds. */
    var retry: Option<nat>

    /** Every handler invocation, in order. */
    var delivered: seq<Delivery>
    /** The `console.error` lines written for failing handlers. */
    var errors: seq<string>
    /** Every message posted on the BroadcastChannel. */
    var posted: seq<Post>
    /** Every message sent over the WebSocket. */
    var sent: seq<Outbound>
    /** Every call of SendToServer and Emit, by any client of the bus. */
    ghost var calls: seq<Call>

    /** The connection invariant: the bus is ready only with a socket, and a
        pending retry has one of the two delays. */
    ghost predicate Valid()
      reads this
    {
      && (ready ==> ws.Some?)
      && (retry.Some? ==> retry.value == CloseRetryDelay || retry.value == ThrowRetryDelay)
    }

    constructor (channelAvailable: bool)
      ensures Valid()
      ensures listeners == map[] && channel == channelAvailable
      ensures ws == None && !ready && retry == None
      ensures delivered == [] && errors == [] && posted == [] && sent == [] && calls == []
    {
      listeners := map[];
      channel := channelAvailable;
      ws := None;
      ready := false;
      retry := None;
      delivered := [];
      errors := [];
      posted := [];
      sent := [];
      calls := [];
    }

    method On(event: string, fn: Handler) returns (u: Unsubscriber)
      modifies this`listeners
      ensures listeners == Subscribed(old(listeners), event, fn)
      ensures ListenersOf(listeners, event) == ListenersOf(old(listeners), event) + [fn]
      ensures u == Unsubscriber(event, fn)
    {
      listeners := Subscribed(listeners, event, fn);
      u := Unsubscriber(event, fn);
    }

    method Off(event: string, fn: Handler)
      modifies this`listeners
      ensures event !in old(listeners) ==> listeners == old(listeners)
      ensures event in old(listeners) ==> listeners == old(listeners)[event := Without(old(listeners)[event], fn)]
    {
      if event !in listeners {
        return;
      }
      listeners := listeners[event := Without(listeners[event], fn)];
    }

    /** Calling the function returned by `on`. */
    method Unsubscribe(u: Unsubscriber)
      modifies this`listeners
      ensures u.event !in old(listeners) ==> listeners == old(listeners)
      ensures u.event in old(listeners) ==> listeners == old(listeners)[u.event := Without(old(listeners)[u.event], u.fn)]
    {
      Off(u.event, u.fn);
    }

    /** One `for (const fn of …)` loop of `_dispatch`: every handler is called
        in order; a throwing one is caught, and logged under `key` when
        `logged` holds, and the loop goes on. */
    method CallEach(hs: seq<Handler>, arg: Value, fromBroadcast: bool, key: string, logged: bool)
      modifies this`delivered, this`errors
      ensures delivered == old(delivered) + Each(hs, arg, fromBroadcast)
      ensures errors == old(errors) + (if logged then Failures(hs, key) else [])
    {
      for i := 0 to |hs|
        invariant delivered == old(delivered) + Each(hs[..i], arg, fromBroadcast)
        invariant errors == old(errors) + (if logged then Failures(hs[..i], key) else [])
      {
        EachStep(hs, i, arg, fromBroadcast, key);
        delivered := delivered + [Delivery(hs[i], arg, fromBroadcast)];
        if logged && hs[i].throws {
          errors := errors + [key];
        }
      }
      assert hs[..|hs|] == hs;
    }

    /** `_dispatch`: call each handler of the event, then each wildcard
        handler; a throwing handler is logged (wildcards silently) and the
        loop goes on. */
    method Dispatch(event: Value, payload: Value, fromBroadcast: bool)
      modifies this`delivered, this`errors
      ensures delivered == old(delivered) + Deliveries(listeners, event, payload, fromBroadcast)
      ensures errors == old(errors) + Failures(ListenersOf(listeners, JsString(event)), JsString(event))
    {
      var key := JsString(event);
      CallEach(ListenersOf(listeners, key), payload, fromBroadcast, key, true);
      CallEach(ListenersOf(listeners, Wildcard), WildcardArg(event, payload), fromBroadcast, key, false);
    }

    method Emit(event: string, payload: Value, broadcast: bool)
      modifies this`delivered, this`errors, this`posted, this`calls
      ensures calls == old(calls) + [EmitCall(event, payload, broadcast)]
      ensures delivered == old(delivered) + Deliveries(listeners, Str(event), payload, false)
      ensures errors == old(errors) + Failures(ListenersOf(listeners, event), event)
      ensures posted == old(posted) + (if broadcast && channel then [Post(event, payload)] else [])
    {
      calls := calls + [EmitCall(event, payload, broadcast)];
      Dispatch(Str(event), payload, false);
      if broadcast && channel {
        posted := posted + [Post(event, payload)];
      }
    }

    /** The channel's `onmessage`: re-dispatch locally as from a broadcast;
        nothing is posted or sent. */
    method OnChannelMessage(data: Value)
      modifies this`delivered, this`errors
      ensures ChannelDispatch(data).None? ==> delivered == old(delivered) && errors == old(errors)
      ensures ChannelDispatch(data).Some? ==>
        var (event, payload) := ChannelDispatch(data).value;
        && delivered == old(delivered) + Deliveries(listeners, event, payload, true)
        && errors == old(errors) + Failures(ListenersOf(listeners, JsString(event)), JsString(event))
    {
      if Truthy(data) && Truthy(Prop(data, "__event")) {
        Dispatch(Prop(data, "__event"), Prop(data, "payload"), true);
      }
    }

    /** The send guard shared by the four senders: a socket that is OPEN. */
    predicate IsOpen()
      reads this
    {
      ws == Some(Open)
    }

    method SendToServer(path: string, value: Value)
      modifies this`sent, this`calls
      ensures calls == old(calls) + [SendToServerCall(path, value)]
      ensures sent == old(sent) + (if IsOpen() then [SetMsg(path, value)] else [])
    {
      calls := calls + [SendToServerCall(path, value)];
      if IsOpen() {
        sent := sent + [SetMsg(path, value)];
      }
    }

    method EmitRemote(event: string, payload: Value)
      modifies this`sent
      ensures sent == old(sent) + (if IsOpen() then [EventMsg(event, payload)] else [])
    {
      if IsOpen() {
        sent := sent + [EventMsg(event, payload)];
      }
    }

    method CreateOrder(order: Value)
      modifies this`sent
      ensures sent == old(sent) + (if IsOpen() then [CreateOrderMsg(order)] else [])
    {
      if IsOpen() {
        sent := sent + [CreateOrderMsg(order)];
      }
    }

    method DismissOrder(orderNumber: Value)
      modifies this`sent
      ensures sent == old(sent) + (if IsOpen() then [EventMsg("order:dismissed", Obj(map["orderNumber" := orderNumber]))] else [])
    {
      if IsOpen() {
        sent := sent + [EventMsg("order:dismissed", Obj(map["orderNumber" := orderNumber]))];
      }
    }

    /** `connectWS`; `constructionThrows` says whether `new WebSocket(...)`
        threw. A socket that is created starts CONNECTING; the pending timer,
        if any, is left alone. */
    method ConnectWS(constructionThrows: bool)
      requires Valid()
      modifies this`ws, this`ready, this`retry
      ensures Valid()
      ensures constructionThrows ==> ws == old(ws) && !ready && retry == Some(ThrowRetryDelay)
      ensures !constructionThrows ==> ws == Some(Connecting) && ready == old(ready) && retry == old(retry)
    {
      if constructionThrows {
        ready := false;
        retry := Some(ThrowRetryDelay);
      } else {
        ws := Some(Connecting);
      }
    }

    /** The socket's `onopen`. */
    method OnSocketOpen()
      requires Valid() && ws.Some?
      modifies this`ws, this`ready, this`delivered, this`errors
      ensures Valid()
      ensures ws == Some(Open) && ready
      ensures delivered == old(delivered) + Deliveries(listeners, Str("ws:connected"), Null, false)
      ensures errors == old(errors) + Failures(ListenersOf(listeners, "ws:connected"), "ws:connected")
    {
      ws := Some(Open);
      ready := true;
      Dispatch(Str("ws:connected"), Null, false);
    }

    /** The socket's `onmessage`: decoded messages are dispatched; nothing
        is posted or sent. */
    method OnSocketMessage(raw: Option<Value>)
      modifies this`delivered, this`errors
      ensures InboundDispatch(Decode(raw)).None? ==> delivered == old(delivered) && errors == old(errors)
      ensures InboundDispatch(Decode(raw)).Some? ==>
        var d := InboundDispatch(Decode(raw)).value;
        && delivered == old(delivered) + Deliveries(listeners, d.0, d.1, d.2)
        && errors == old(errors) + Failures(ListenersOf(listeners, JsString(d.0)), JsString(d.0))
    {
      var m := Decode(raw);
      match m
      case FullState(state) =>
        Dispatch(Str("server:full-state"), state, false);
      case StateChange(path, value) =>
        Dispatch(Str("server:state-change"), Obj(map["path" := path, "value" := value]), false);
      case RelayedEvent(event, payload) =>
        Dispatch(event, payload, true);
      case Ignored =>
    }

    /** The browser starts closing the socket. */
    method OnSocketClosing()
      requires Valid() && ws.Some?
      modifies this`ws
      ensures Valid() && ws == Some(Closing)
    {
      ws := Some(Closing);
    }

    /** The socket's `onclose`: drop the socket and replace any pending timer
        by one retry after CloseRetryDelay. */
    method OnSocketClose()
      requires Valid() && ws.Some?
      modifies this`ws, this`ready, this`retry
      ensures Valid()
      ensures ws == None && !ready && retry == Some(CloseRetryDelay)
    {
      ws := None;
      ready := false;
      retry := Some(CloseRetryDelay);
    }

    /** The pending timer fires and calls `connectWS`. */
    method OnRetryTimer(constructionThrows: bool)
      requires Valid() && retry.Some?
      modifies this`ws, this`ready, this`retry
      ensures Valid()
      ensures constructionThrows ==> ws == old(ws) && !ready && retry == Some(ThrowRetryDelay)
      ensures !constructionThrows ==> ws == Some(Connecting) && ready == old(ready) && retry == None
    {
      retry := None;
      ConnectWS(constructionThrows);
    }
  }
}
