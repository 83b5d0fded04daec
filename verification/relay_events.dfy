/** The inbound relay-event listener: decode each message with the topic's
    crypto, classify it as a JSON-RPC request or response, and route it by
    membership of its topic in the pairing store, then the session store. */
module RelayEvents {
  import opened Wrappers
  import opened Types
  import opened TopicStore
  import opened State

  /** Both JSON-RPC tests first require a JSON-RPC 2.0 payload: an `id`
      member and `jsonrpc` equal to "2.0". */
  predicate IsJsonRpcPayload(p: Payload) {
    p.id.Some? && p.jsonrpc == Some(JsonRpcVersion)
  }

  /** `isJsonRpcRequest` is checked first, then `isJsonRpcResponse`: a
      JSON-RPC 2.0 payload carrying a method is a request even if it also
      carries a result or an error; anything else is neither. */
  function Classify(p: Payload): (k: Option<Kind>)
    ensures k == Some(RequestKind)
            <==> p.id.Some? && p.jsonrpc == Some(JsonRpcVersion) && p.rpcMethod.Some?
    ensures k == Some(ResponseKind)
            <==> p.id.Some? && p.jsonrpc == Some(JsonRpcVersion) && p.rpcMethod.None? && (p.result.Some? || p.error.Some?)
    ensures k.None?
            <==> p.id.None? || p.jsonrpc != Some(JsonRpcVersion) || (p.rpcMethod.None? && p.result.None? && p.error.None?)
  {
    if !IsJsonRpcPayload(p) then None
    else if p.rpcMethod.Some? then Some(RequestKind)
    else if p.result.Some? || p.error.Some? then Some(ResponseKind)
    else None
  }

  /** The route of an event, by set membership of its topic: a decodable
      request or response goes to the pairing handlers exactly when its topic
      has a pairing, to the session handlers exactly when it has a session
      but no pairing, and is dropped otherwise. */
  function ReferenceRoute(s: EngineState, env: Env, ev: RelayEvent): (route: Route)
    ensures env.decode(ev.topic, ev.message).Failure? ==> route == Undecodable(env.decode(ev.topic, ev.message).error)
    ensures env.decode(ev.topic, ev.message).Success? && Classify(env.decode(ev.topic, ev.message).value).None? ==> route == NotJsonRpc
    ensures forall kind: Kind | env.decode(ev.topic, ev.message).Success? && Classify(env.decode(ev.topic, ev.message).value) == Some(kind) ::
      && (route == Routed(kind, PairingScope) <==> ev.topic in s.pairings.records)
      && (route == Routed(kind, SessionScope) <==> ev.topic !in s.pairings.records && ev.topic in s.sessions.records)
      && (route == Unmatched(kind) <==> ev.topic !in s.pairings.records && ev.topic !in s.sessions.records)
  {
    match env.decode(ev.topic, ev.message)
    case Failure(e) => Undecodable(e)
    case Success(payload) =>
      match Classify(payload)
      case None => NotJsonRpc
      case Some(kind) =>
        if ev.topic in s.pairings.records then Routed(kind, PairingScope)
        else if ev.topic in s.sessions.records then Routed(kind, SessionScope)
        else Unmatched(kind)
  }

  /** The listener as written: scan the pairing topics, then the session
      topics. It agrees with the reference route. */
  method RouteEvent(s: EngineState, env: Env, ev: RelayEvent) returns (route: Route)
    requires s.pairings.Valid() && s.sessions.Valid()
    ensures route == ReferenceRoute(s, env, ev)
  {
    var decoded := env.decode(ev.topic, ev.message);
    if decoded.Failure? {
      return Undecodable(decoded.error);
    }
    var kind := Classify(decoded.value);
    if kind.None? {
      return NotJsonRpc;
    }
    var inPairings := HasTopic(s.pairings, ev.topic);
    if inPairings {
      return Routed(kind.value, PairingScope);
    }
    var inSessions := HasTopic(s.sessions, ev.topic);
    if inSessions {
      return Routed(kind.value, SessionScope);
    }
    return Unmatched(kind.value);
  }

  /** The listener applied to a batch of delivered events, one route each. */
  method RouteAll(s: EngineState, env: Env, events: seq<RelayEvent>) returns (routes: seq<Route>)
    requires s.pairings.Valid() && s.sessions.Valid()
    ensures |routes| == |events|
    ensures forall i | 0 <= i < |events| :: routes[i] == ReferenceRoute(s, env, events[i])
  {
    routes := [];
    var i := 0;
    while i < |events|
      invariant 0 <= i <= |events|
      invariant |routes| == i
      invariant forall k | 0 <= k < i :: routes[k] == ReferenceRoute(s, env, events[k])
    {
      var route := RouteEvent(s, env, events[i]);
      routes := routes + [route];
      i := i + 1;
    }
  }

  /** The route depends only on the pairing and session stores. */
  lemma RouteDependsOnStores(s: EngineState, s': EngineState, env: Env, ev: RelayEvent)
    requires s'.pairings == s.pairings && s'.sessions == s.sessions
    ensures ReferenceRoute(s', env, ev) == ReferenceRoute(s, env, ev)
  {
  }

  /** One inbound relay message: the listener routes it and hands it to the
      handler group of its route. Every handler group is empty, so the only
      trace of the delivery is the record of where it was dispatched. */
  function OnRelayMessage(s: EngineState, env: Env, ev: RelayEvent): (s': EngineState)
    ensures s'.dispatched == s.dispatched + [ReferenceRoute(s, env, ev)]
    ensures s'.(dispatched := s.dispatched) == s
  {
    var route := ReferenceRoute(s, env, ev);
    s.(dispatched := s.dispatched + [route])
  }
}
