/** Runs of the engine: any interleaving of session creation, pairing from a
    URI, the passage of time and inbound relay events, and the facts that
    hold along every such run. */
module Traces {
  import opened Wrappers
  import opened Types
  import opened TopicStore
  import opened State
  import opened Engine
  import opened RelayEvents

  datatype Op =
    | Connect(params: ConnectParams, draws: Fresh)
    | PairWith(uri: PairingUri)
    | Tick(elapsed: nat)
    | Deliver(event: RelayEvent)

  /** One operation. A failed `createSession` raises to its caller and leaves
      the state as it was; an inbound event goes through the listener. */
  function Step(s: EngineState, env: Env, op: Op): EngineState {
    match op
    case Connect(p, draws) =>
      (match CreateSession(s, env, p, draws)
       case Success(c) => c.state
       case Failure(_) => s)
    case PairWith(uri) => Pair(s, uri)
    case Tick(elapsed) => AdvanceClock(s, env.config, elapsed)
    case Deliver(ev) => OnRelayMessage(s, env, ev)
  }

  function Run(s: EngineState, env: Env, ops: seq<Op>): EngineState
    decreases |ops|
  {
    if |ops| == 0 then s else Run(Step(s, env, ops[0]), env, ops[1..])
  }

  /** Every operation keeps the engine's state consistent. */
  lemma StepPreservesValid(s: EngineState, env: Env, op: Op)
    requires Valid(s)
    ensures Valid(Step(s, env, op))
  {
    match op
    case Connect(p, draws) =>
      if CreateSession(s, env, p, draws).Success? {
        CreateSessionPreservesValid(s, env, p, draws);
      }
    case PairWith(uri) => PairPreservesValid(s, uri);
    case Tick(elapsed) => AdvanceClockPreservesValid(s, env.config, elapsed);
    case Deliver(_) =>
  }

  /** Every run from a consistent state ends in a consistent state. */
  lemma {:induction false} RunPreservesValid(s: EngineState, env: Env, ops: seq<Op>)
    requires Valid(s)
    ensures Valid(Run(s, env, ops))
    decreases |ops|
  {
    if |ops| > 0 {
      StepPreservesValid(s, env, ops[0]);
      RunPreservesValid(Step(s, env, ops[0]), env, ops[1..]);
    }
  }

  /** No run changes the request history: `createSession` publishes a
      propose request, never a session request. */
  lemma {:induction false} RunKeepsHistory(s: EngineState, env: Env, ops: seq<Op>)
    ensures Run(s, env, ops).history == s.history
    decreases |ops|
  {
    if |ops| > 0 {
      RunKeepsHistory(Step(s, env, ops[0]), env, ops[1..]);
    }
  }

  /** The operations delivering `events` to the listener, in order. */
  function Deliveries(events: seq<RelayEvent>): (ops: seq<Op>)
    ensures |ops| == |events|
    ensures forall i | 0 <= i < |events| :: ops[i] == Deliver(events[i])
  {
    seq(|events|, i requires 0 <= i < |events| => Deliver(events[i]))
  }

  /** Routing changes no store: delivering any sequence of inbound relay
      events leaves everything but the dispatch record as it was, and each
      event is dispatched to its route in the unchanged stores. */
  lemma {:induction false} DeliveriesOnlyDispatch(s: EngineState, env: Env, events: seq<RelayEvent>)
    ensures Run(s, env, Deliveries(events)).(dispatched := s.dispatched) == s
    ensures |Run(s, env, Deliveries(events)).dispatched| == |s.dispatched| + |events|
    ensures forall i | 0 <= i < |events| ::
      Run(s, env, Deliveries(events)).dispatched[|s.dispatched| + i] == ReferenceRoute(s, env, events[i])
    ensures Run(s, env, Deliveries(events)).dispatched[..|s.dispatched|] == s.dispatched
    decreases |events|
  {
    if |events| > 0 {
      var ops := Deliveries(events);
      var next := OnRelayMessage(s, env, events[0]);
      assert Step(s, env, ops[0]) == next;
      assert ops[1..] == Deliveries(events[1..]);
      DeliveriesOnlyDispatch(next, env, events[1..]);
      var final := Run(next, env, ops[1..]);
      assert Run(s, env, ops) == final;
      forall i | 0 <= i < |events|
        ensures final.dispatched[|s.dispatched| + i] == ReferenceRoute(s, env, events[i])
      {
        if i == 0 {
          assert final.dispatched[..|next.dispatched|][|s.dispatched|] == next.dispatched[|s.dispatched|];
        } else {
          RouteDependsOnStores(s, next, env, events[i]);
          assert final.dispatched[|next.dispatched| + (i - 1)] == ReferenceRoute(next, env, events[1..][i - 1]);
        }
      }
      assert final.dispatched[..|s.dispatched|] == final.dispatched[..|next.dispatched|][..|s.dispatched|];
    }
  }

  /** `later` keeps every approval of `earlier` at its index with the same
      deadline; a rejected approval stays rejected, and a pending one is only
      ever rejected by its timer, with SETTLE_TIMEOUT. */
  ghost predicate ApprovalsExtended(earlier: seq<Approval>, later: seq<Approval>, config: Config) {
    && |earlier| <= |later|
    && (forall i | 0 <= i < |earlier| :: later[i].deadline == earlier[i].deadline)
    && (forall i | 0 <= i < |earlier| && earlier[i].status.Rejected? :: later[i] == earlier[i])
    && (forall i | 0 <= i < |earlier| && earlier[i].status.Pending? && later[i].status.Rejected? ::
          later[i].status.reason == SettleTimeout(config.proposalContext, FiveMinutes * MillisPerSecond))
  }

  /** One operation never moves the clock back and only extends approvals. */
  lemma StepExtendsApprovals(s: EngineState, env: Env, op: Op)
    ensures s.now <= Step(s, env, op).now
    ensures ApprovalsExtended(s.approvals, Step(s, env, op).approvals, env.config)
  {
  }

  /** Along a run the clock never goes back and approvals are never lost,
      moved, re-timed or revived, and only their timers reject them. */
  lemma {:induction false} RunExtendsApprovals(s: EngineState, env: Env, ops: seq<Op>)
    ensures s.now <= Run(s, env, ops).now
    ensures ApprovalsExtended(s.approvals, Run(s, env, ops).approvals, env.config)
    decreases |ops|
  {
    if |ops| > 0 {
      var next := Step(s, env, ops[0]);
      StepExtendsApprovals(s, env, ops[0]);
      RunExtendsApprovals(next, env, ops[1..]);
    }
  }

  /** The approval returned by `createSession` is rejected by its timer with
      SETTLE_TIMEOUT at, and not before, five minutes after the call,
      whatever happens between. */
  lemma ApprovalTimesOutAtDeadline(s: EngineState, env: Env, p: ConnectParams, draws: Fresh, ops: seq<Op>)
    requires Valid(s)
    requires CreateSession(s, env, p, draws).Success?
    ensures var c := CreateSession(s, env, p, draws).value;
      var final := Run(c.state, env, ops);
      && c.approval < |final.approvals|
      && (final.approvals[c.approval].status.Pending? <==> final.now < s.now + FiveMinutes)
      && (s.now + FiveMinutes <= final.now ==>
            final.approvals[c.approval].status
            == Rejected(SettleTimeout(env.config.proposalContext, FiveMinutes * MillisPerSecond)))
  {
    var c := CreateSession(s, env, p, draws).value;
    StepPreservesValid(s, env, Connect(p, draws));
    assert Step(s, env, Connect(p, draws)) == c.state;
    RunPreservesValid(c.state, env, ops);
    RunExtendsApprovals(c.state, env, ops);
    var final := Run(c.state, env, ops);
    assert final.approvals[c.approval].deadline == c.state.approvals[c.approval].deadline;
  }

  /** Each `createSession` takes the single resolve/reject slot from the one
      before it; the earlier approval keeps only its own timer. */
  lemma NewerProposalTakesSlot(s: EngineState, env: Env, p1: ConnectParams, d1: Fresh, p2: ConnectParams, d2: Fresh)
    requires CreateSession(s, env, p1, d1).Success?
    requires CreateSession(CreateSession(s, env, p1, d1).value.state, env, p2, d2).Success?
    ensures var first := CreateSession(s, env, p1, d1).value;
      var second := CreateSession(first.state, env, p2, d2).value;
      && first.approval != second.approval
      && second.state.slot == Some(second.approval)
      && second.state.approvals[first.approval] == Approval(s.now + FiveMinutes, Pending)
  {
  }

  /** A pairing `createSession` has just made is active, so passing its topic
      to the next `createSession` reuses it: no new URI, no new pairing, and
      the proposal goes out on that topic. */
  lemma NewPairingIsReused(s: EngineState, env: Env, p1: ConnectParams, d1: Fresh, p2: ConnectParams, d2: Fresh)
    requires CreateSession(s, env, p1, d1).Success?
    requires CreateSession(s, env, p1, d1).value.uri.Some?
    requires p2.pairingTopic == Some(CreateSession(s, env, p1, d1).value.uri.value.topic)
    requires p2.pairingTopic.value != ""
    ensures var first := CreateSession(s, env, p1, d1).value;
      var r := CreateSession(first.state, env, p2, d2);
      && r.Success?
      && r.value.uri.None?
      && r.value.state.pairings == first.state.pairings
      && ProposalTopic(first.state, env, p2, d2) == p2.pairingTopic.value
  {
  }

  /** `pair` registers the key and subscribes but stores no pairing, so a
      JSON-RPC request arriving on the paired topic, when no session owns
      it, is dropped by the listener rather than routed to the pairing
      handlers. */
  lemma PairedTopicIsUnmatched(s: EngineState, env: Env, uri: PairingUri, message: Message, payload: Payload)
    requires uri.topic !in s.pairings.records && uri.topic !in s.sessions.records
    requires env.decode(uri.topic, message) == Success(payload)
    requires payload.id.Some? && payload.jsonrpc == Some(JsonRpcVersion) && payload.rpcMethod.Some?
    ensures var final := Run(s, env, [PairWith(uri), Deliver(RelayEvent(uri.topic, message))]);
      && uri.topic in final.keys && uri.topic in final.subscriptions
      && final.pairings == s.pairings
      && final.dispatched == s.dispatched + [Unmatched(RequestKind)]
  {
    var paired := Pair(s, uri);
    var ops := [PairWith(uri), Deliver(RelayEvent(uri.topic, message))];
    var delivered := OnRelayMessage(paired, env, RelayEvent(uri.topic, message));
    assert ops[1..] == [Deliver(RelayEvent(uri.topic, message))];
    assert Run(s, env, ops) == Run(paired, env, ops[1..]);
    assert Run(paired, env, ops[1..]) == Run(delivered, env, []);
  }
}
