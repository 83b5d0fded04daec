/** The engine's outbound operations as transitions over the engine state:
    creating a pairing, pairing from a URI, sending a request, creating a
    session, and the passage of time that fires approval timers. */
module Engine {
  import opened Wrappers
  import opened Types
  import opened TopicStore
  import opened State

  /** A new pairing: its topic, its URI and the state after it is stored. */
  datatype NewPairing = NewPairing(topic: Topic, uri: PairingUri, state: EngineState)

  /** `createPairing`: register the fresh symmetric key (which yields its
      topic), store an active pairing that expires in five minutes, subscribe
      to its topic, and build the URI. */
  function CreatePairing(s: EngineState, env: Env, symKey: SymKey): (r: NewPairing)
    ensures r.topic == env.deriveTopic(symKey)
    ensures r.state.keys == s.keys[r.topic := symKey]
    ensures r.state.pairings.records
         == s.pairings.records[r.topic := PairingRecord(r.topic, s.now + FiveMinutes, DefaultRelay(env.config), true)]
    ensures s.pairings.Valid() ==> r.state.pairings.Valid()
    ensures r.state.subscriptions == s.subscriptions + {r.topic}
    ensures r.uri == PairingUri(env.config.protocol, env.config.version, r.topic, symKey, DefaultRelay(env.config))
    ensures r.state.journal == s.journal + [SetKey(r.topic, symKey), SetPairing(r.topic), Subscribe(r.topic, None)]
    ensures Publications(r.state.journal) == Publications(s.journal)
    ensures r.state.(keys := s.keys, pairings := s.pairings, subscriptions := s.subscriptions, journal := s.journal) == s
  {
    var topic := env.deriveTopic(symKey);
    var relay := DefaultRelay(env.config);
    var pairing := PairingRecord(topic, s.now + FiveMinutes, relay, true);
    var uri := PairingUri(env.config.protocol, env.config.version, topic, symKey, relay);
    var effects := [SetKey(topic, symKey), SetPairing(topic), Subscribe(topic, None)];
    var subscribed := s.(
      keys := s.keys[topic := symKey],
      pairings := s.pairings.Set(topic, pairing),
      subscriptions := s.subscriptions + {topic},
      journal := s.journal + effects);
    PublicationsQuiet(s.journal, effects);
    NewPairing(topic, uri, subscribed)
  }

  /** `pair`: bind the URI's key to the URI's topic and subscribe to that
      topic with the URI's relay. No pairing record is stored. */
  function Pair(s: EngineState, uri: PairingUri): (s': EngineState)
    ensures s'.keys == s.keys[uri.topic := uri.symKey]
    ensures s'.subscriptions == s.subscriptions + {uri.topic}
    ensures s'.journal == s.journal + [SetKey(uri.topic, uri.symKey), Subscribe(uri.topic, Some(uri.relay))]
    ensures s'.pairings == s.pairings
    ensures Publications(s'.journal) == Publications(s.journal)
    ensures s'.(keys := s.keys, subscriptions := s.subscriptions, journal := s.journal) == s
  {
    var keyed := s.(keys := s.keys[uri.topic := uri.symKey], journal := s.journal + [SetKey(uri.topic, uri.symKey)]);
    var j := keyed.journal + [Subscribe(uri.topic, Some(uri.relay))];
    PublicationsQuiet(s.journal, [SetKey(uri.topic, uri.symKey), Subscribe(uri.topic, Some(uri.relay))]);
    keyed.(subscriptions := keyed.subscriptions + {uri.topic}, journal := j)
  }

  /** `sendRequest`: publish exactly one encoded request on `topic`; record
      it in the history if and only if it is a session request. */
  function SendRequest(s: EngineState, env: Env, topic: Topic, id: nat, rpcMethod: string, params: Params): (s': EngineState)
    ensures var request := JsonRpcRequest(id, rpcMethod, params);
      && Publications(s'.journal) == Publications(s.journal) + [Publication(topic, env.encode(topic, request))]
      && (rpcMethod == SessionRequest ==> s'.history == s.history + [HistoryRecord(topic, request)])
      && (rpcMethod != SessionRequest ==> s'.history == s.history)
      && s'.journal == s.journal + [Publish(topic, env.encode(topic, request))]
         + (if rpcMethod == SessionRequest then [SetHistory(topic, id)] else [])
    ensures s'.(journal := s.journal, history := s.history) == s
  {
    var request := JsonRpcRequest(id, rpcMethod, params);
    var message := env.encode(topic, request);
    var published := s.(journal := s.journal + [Publish(topic, message)]);
    assert Publications(published.journal) == Publications(s.journal) + [Publication(topic, message)] by {
      assert published.journal[..|published.journal| - 1] == s.journal;
    }
    if rpcMethod == SessionRequest then
      PublicationsAppend(published.journal, [SetHistory(topic, id)]);
      published.(history := s.history + [HistoryRecord(topic, request)],
                 journal := published.journal + [SetHistory(topic, id)])
    else
      published
  }

  /** The pairing a proposal goes out on, and the URI returned (absent when
      an existing pairing is reused). */
  datatype PairingChoice = PairingChoice(topic: Topic, uri: Option<PairingUri>, state: EngineState)

  /** A given topic names a stored, active pairing. */
  predicate Reusable(s: EngineState, pairingTopic: Option<Topic>) {
    && Truthy(pairingTopic)
    && pairingTopic.value in s.pairings.records
    && s.pairings.records[pairingTopic.value].active
  }

  /** The first half of `createSession`: reuse the given pairing when it is
      active, create a fresh one when none is given or it is inactive, and
      fail with NotFound, before anything is generated or stored, when the
      given topic has no pairing. */
  function ResolvePairing(s: EngineState, env: Env, pairingTopic: Option<Topic>, symKey: SymKey): (r: Result<PairingChoice, EngineError>)
    ensures r.Failure? <==> Truthy(pairingTopic) && pairingTopic.value !in s.pairings.records
    ensures r.Failure? ==> r.error == NotFound(pairingTopic.value)
    ensures r.Success? && Reusable(s, pairingTopic) ==> r.value == PairingChoice(pairingTopic.value, None, s)
    ensures r.Success? && !Reusable(s, pairingTopic) ==>
      var created := CreatePairing(s, env, symKey);
      r.value == PairingChoice(created.topic, Some(created.uri), created.state)
  {
    if !Truthy(pairingTopic) then
      var created := CreatePairing(s, env, symKey);
      Success(PairingChoice(created.topic, Some(created.uri), created.state))
    else
      match s.pairings.Get(pairingTopic.value)
      case Failure(e) => Failure(e)
      case Success(pairing) =>
        if pairing.active then Success(PairingChoice(pairingTopic.value, None, s))
        else
          var created := CreatePairing(s, env, symKey);
          Success(PairingChoice(created.topic, Some(created.uri), created.state))
  }

  /** The parameters of `createSession`; every capability field may be absent. */
  datatype ConnectParams = ConnectParams(
    pairingTopic: Option<Topic>,
    methods: Option<seq<string>>,
    events: Option<seq<string>>,
    chains: Option<seq<string>>,
    relays: Option<seq<RelayProtocol>>)

  /** What `createSession` returns: the URI (if a pairing was created), the
      index of its approval future, and the state afterwards. */
  datatype Connected = Connected(uri: Option<PairingUri>, approval: nat, state: EngineState)

  /** The topic `createSession` publishes its proposal on. */
  function ProposalTopic(s: EngineState, env: Env, p: ConnectParams, draws: Fresh): Topic {
    if Reusable(s, p.pairingTopic) then p.pairingTopic.value else env.deriveTopic(draws.symKey)
  }

  /** The proposal `createSession` builds: absent capabilities default to
      empty, absent relays to the single default relay; the proposer is the
      fresh public key with the engine's metadata. */
  function BuildProposal(config: Config, p: ConnectParams, publicKey: PublicKey): (proposal: Proposal)
    ensures p.methods.Some? ==> proposal.methods == p.methods.value
    ensures p.methods.None? ==> proposal.methods == []
    ensures p.events.Some? ==> proposal.events == p.events.value
    ensures p.events.None? ==> proposal.events == []
    ensures p.chains.Some? ==> proposal.chains == p.chains.value
    ensures p.chains.None? ==> proposal.chains == []
    ensures p.relays.Some? ==> proposal.relays == p.relays.value
    ensures p.relays.None? ==> proposal.relays == [DefaultRelay(config)]
    ensures proposal.proposer == Proposer(publicKey, config.metadata)
  {
    Proposal(
      p.methods.GetOr([]),
      p.events.GetOr([]),
      p.chains.GetOr([]),
      p.relays.GetOr([DefaultRelay(config)]),
      Proposer(publicKey, config.metadata))
  }

  /** `proposal.set(publicKey, proposal)`. */
  function StoreProposal(s: EngineState, publicKey: PublicKey, proposal: Proposal): (s': EngineState)
    ensures s'.proposals == s.proposals[publicKey := proposal]
    ensures s'.journal == s.journal + [SetProposal(publicKey)]
    ensures Publications(s'.journal) == Publications(s.journal)
    ensures s'.(proposals := s.proposals, journal := s.journal) == s
  {
    PublicationsQuiet(s.journal, [SetProposal(publicKey)]);
    s.(proposals := s.proposals[publicKey := proposal], journal := s.journal + [SetProposal(publicKey)])
  }

  /** A new approval future whose timer fires at `deadline`; its resolve and
      reject functions overwrite the slot. */
  function ArmApproval(s: EngineState, deadline: nat): (s': EngineState)
    ensures s'.approvals == s.approvals + [Approval(deadline, Pending)]
    ensures s'.slot == Some(|s.approvals|)
    ensures s'.(approvals := s.approvals, slot := s.slot) == s
  {
    s.(approvals := s.approvals + [Approval(deadline, Pending)], slot := Some(|s.approvals|))
  }

  /** The second half of `createSession`, on the chosen pairing topic: store
      the proposal under its proposer's key, then publish it as
      `wc_sessionPropose`, then arm its approval timer, which takes the slot. */
  function Propose(s: EngineState, env: Env, topic: Topic, proposal: Proposal, id: nat, deadline: nat): (s': EngineState)
    ensures var message := env.encode(topic, JsonRpcRequest(id, SessionPropose, ProposalParams(proposal)));
      && s'.proposals == s.proposals[proposal.proposer.publicKey := proposal]
      && s'.journal == s.journal + [SetProposal(proposal.proposer.publicKey), Publish(topic, message)]
      && Publications(s'.journal) == Publications(s.journal) + [Publication(topic, message)]
    ensures s'.approvals == s.approvals + [Approval(deadline, Pending)]
    ensures s'.slot == Some(|s.approvals|)
    ensures s'.(proposals := s.proposals, journal := s.journal, approvals := s.approvals, slot := s.slot) == s
  {
    var stored := StoreProposal(s, proposal.proposer.publicKey, proposal);
    var sent := SendRequest(stored, env, topic, id, SessionPropose, ProposalParams(proposal));
    ArmApproval(sent, deadline)
  }

  /** `createSession`. */
  function CreateSession(s: EngineState, env: Env, p: ConnectParams, draws: Fresh): (r: Result<Connected, EngineError>)
    ensures r.Failure? <==> Truthy(p.pairingTopic) && p.pairingTopic.value !in s.pairings.records
    ensures r.Failure? ==> r.error == NotFound(p.pairingTopic.value)
    // pairing reuse
    ensures r.Success? ==> (r.value.uri.None? <==> Reusable(s, p.pairingTopic))
    ensures r.Success? && Reusable(s, p.pairingTopic) ==>
      && r.value.state.pairings == s.pairings
      && r.value.state.keys == s.keys
      && r.value.state.subscriptions == s.subscriptions
    ensures r.Success? && !Reusable(s, p.pairingTopic) ==>
      var topic := env.deriveTopic(draws.symKey);
      && r.value.uri == Some(PairingUri(env.config.protocol, env.config.version, topic, draws.symKey, DefaultRelay(env.config)))
      && r.value.state.keys == s.keys[topic := draws.symKey]
      && r.value.state.pairings.records == s.pairings.records[topic := PairingRecord(topic, s.now + FiveMinutes, DefaultRelay(env.config), true)]
      && r.value.state.subscriptions == s.subscriptions + {topic}
    // proposal defaults and storage
    ensures r.Success? ==>
      var stored := r.value.state.proposals;
      && draws.publicKey in stored
      && stored == s.proposals[draws.publicKey := stored[draws.publicKey]]
      && stored[draws.publicKey].methods == p.methods.GetOr([])
      && stored[draws.publicKey].events == p.events.GetOr([])
      && stored[draws.publicKey].chains == p.chains.GetOr([])
      && stored[draws.publicKey].relays == p.relays.GetOr([DefaultRelay(env.config)])
      && stored[draws.publicKey].proposer == Proposer(draws.publicKey, env.config.metadata)
    // stored, then published on the chosen topic; history untouched
    ensures r.Success? ==>
      var topic := ProposalTopic(s, env, p, draws);
      var request := JsonRpcRequest(draws.requestId, SessionPropose, ProposalParams(r.value.state.proposals[draws.publicKey]));
      && r.value.state.journal
         == s.journal
            + (if Reusable(s, p.pairingTopic) then [] else [SetKey(topic, draws.symKey), SetPairing(topic), Subscribe(topic, None)])
            + [SetProposal(draws.publicKey), Publish(topic, env.encode(topic, request))]
      && Publications(r.value.state.journal) == Publications(s.journal) + [Publication(topic, env.encode(topic, request))]
      && r.value.state.history == s.history
    // the new approval fills the slot and times out five minutes from now
    ensures r.Success? ==>
      && r.value.approval == |s.approvals|
      && r.value.state.approvals == s.approvals + [Approval(s.now + FiveMinutes, Pending)]
      && r.value.state.slot == Some(r.value.approval)
      && r.value.state.now == s.now
      && r.value.state.sessions == s.sessions
    ensures r.Success? && s.pairings.Valid() ==> r.value.state.pairings.Valid()
  {
    match ResolvePairing(s, env, p.pairingTopic, draws.symKey)
    case Failure(e) => Failure(e)
    case Success(choice) =>
      assert choice.topic == ProposalTopic(s, env, p, draws);
      assert choice.state.(keys := s.keys, pairings := s.pairings, subscriptions := s.subscriptions, journal := s.journal) == s;
      assert choice.state.journal
             == s.journal + (if Reusable(s, p.pairingTopic) then [] else [SetKey(choice.topic, draws.symKey), SetPairing(choice.topic), Subscribe(choice.topic, None)]);
      assert Publications(choice.state.journal) == Publications(s.journal);
      var proposal := BuildProposal(env.config, p, draws.publicKey);
      var armed := Propose(choice.state, env, choice.topic, proposal, draws.requestId, s.now + FiveMinutes);
      Success(Connected(choice.uri, |choice.state.approvals|, armed))
  }

  /** One approval as seen at clock reading `now`: its timer has fired once
      the deadline is reached; a settled approval stays settled. */
  function Expire(a: Approval, now: nat, config: Config): Approval {
    if a.status.Pending? && a.deadline <= now
    then a.(status := Rejected(SettleTimeout(config.proposalContext, FiveMinutes * MillisPerSecond)))
    else a
  }

  /** Time passes by `elapsed` seconds: every pending approval whose deadline
      has been reached is rejected with SETTLE_TIMEOUT; nothing else changes. */
  function AdvanceClock(s: EngineState, config: Config, elapsed: nat): (s': EngineState)
    ensures s'.now == s.now + elapsed
    ensures |s'.approvals| == |s.approvals|
    ensures forall i | 0 <= i < |s.approvals| :: s'.approvals[i].deadline == s.approvals[i].deadline
    ensures forall i | 0 <= i < |s.approvals| ::
      s'.approvals[i].status.Pending? <==> s.approvals[i].status.Pending? && s'.now < s.approvals[i].deadline
    ensures forall i | 0 <= i < |s.approvals| && s.approvals[i].status.Rejected? :: s'.approvals[i] == s.approvals[i]
    ensures forall i | 0 <= i < |s.approvals| && s'.approvals[i].status.Rejected? && s.approvals[i].status.Pending? ::
      s'.approvals[i].status.reason == SettleTimeout(config.proposalContext, FiveMinutes * MillisPerSecond)
    ensures s'.(now := s.now, approvals := s.approvals) == s
  {
    var now := s.now + elapsed;
    s.(now := now, approvals := seq(|s.approvals|, i requires 0 <= i < |s.approvals| => Expire(s.approvals[i], now, config)))
  }

  // ---------- Invariant preservation ---------------------------------- //

  /** `pair` keeps the engine's state consistent. */
  lemma PairPreservesValid(s: EngineState, uri: PairingUri)
    requires Valid(s)
    ensures Valid(Pair(s, uri))
  {
  }

  /** The passage of time keeps the engine's state consistent: an approval
      is still pending exactly while its deadline lies ahead. */
  lemma AdvanceClockPreservesValid(s: EngineState, config: Config, elapsed: nat)
    requires Valid(s)
    ensures Valid(AdvanceClock(s, config, elapsed))
  {
  }

  /** `createPairing` keeps the engine's state consistent. */
  lemma CreatePairingPreservesValid(s: EngineState, env: Env, symKey: SymKey)
    requires Valid(s)
    ensures Valid(CreatePairing(s, env, symKey).state)
  {
    var r := CreatePairing(s, env, symKey);
    StoredPairingKeepsConsistency(s, r.state, r.topic, symKey,
      PairingRecord(r.topic, s.now + FiveMinutes, DefaultRelay(env.config), true));
  }

  /** `createSession` keeps the engine's state consistent. */
  lemma CreateSessionPreservesValid(s: EngineState, env: Env, p: ConnectParams, draws: Fresh)
    requires Valid(s)
    requires CreateSession(s, env, p, draws).Success?
    ensures Valid(CreateSession(s, env, p, draws).value.state)
  {
    var s' := CreateSession(s, env, p, draws).value.state;
    if !Reusable(s, p.pairingTopic) {
      var t := env.deriveTopic(draws.symKey);
      StoredPairingKeepsConsistency(s, s', t, draws.symKey,
        PairingRecord(t, s.now + FiveMinutes, DefaultRelay(env.config), true));
    }
    StoredProposalKeepsKeying(s, s', draws.publicKey);
    NewApprovalKeepsTimeliness(s, s', s.now + FiveMinutes);
  }

  /** Storing a proposal under its proposer's key keeps proposals keyed. */
  lemma StoredProposalKeepsKeying(s: EngineState, s': EngineState, publicKey: PublicKey)
    requires ProposalsKeyed(s)
    requires publicKey in s'.proposals && s'.proposals[publicKey].proposer.publicKey == publicKey
    requires s'.proposals == s.proposals[publicKey := s'.proposals[publicKey]]
    ensures ProposalsKeyed(s')
  {
    forall k | k in s'.proposals
      ensures s'.proposals[k].proposer.publicKey == k
    {
      if k != publicKey {
        assert s'.proposals[k] == s.proposals[k];
      }
    }
  }

  /** A new pending approval with a future deadline, taking the slot, keeps
      the approvals timely. */
  lemma NewApprovalKeepsTimeliness(s: EngineState, s': EngineState, deadline: nat)
    requires ApprovalsTimely(s)
    requires s.now < deadline && s'.now == s.now
    requires s'.approvals == s.approvals + [Approval(deadline, Pending)]
    requires s'.slot == Some(|s.approvals|)
    ensures ApprovalsTimely(s')
  {
    forall i | 0 <= i < |s'.approvals|
      ensures s'.approvals[i].status.Pending? <==> s'.now < s'.approvals[i].deadline
    {
      if i < |s.approvals| {
        assert s'.approvals[i] == s.approvals[i];
      }
    }
  }

  /** Storing a pairing filed under its topic, with that topic's key
      registered and subscribed, keeps the pairings consistent. */
  lemma StoredPairingKeepsConsistency(s: EngineState, s': EngineState, t: Topic, key: SymKey, pairing: PairingRecord)
    requires PairingsConsistent(s)
    requires pairing.topic == t
    requires s'.pairings.Valid()
    requires s'.pairings.records == s.pairings.records[t := pairing]
    requires s'.keys == s.keys[t := key]
    requires s'.subscriptions == s.subscriptions + {t}
    ensures PairingsConsistent(s')
  {
    forall u | u in s'.pairings.records
      ensures s'.pairings.records[u].topic == u
    {
      if u != t {
        assert s'.pairings.records[u] == s.pairings.records[u];
      }
    }
  }
}
