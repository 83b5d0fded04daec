/** The engine's state: what its collaborators hold (key registry, pairing and
    session stores, proposal store, relay subscriptions, request history), the
    ordered journal of the engine's set, subscribe and publish calls, the
    clock, the approval futures with the single resolve/reject slot, and the
    routes inbound messages were dispatched to. */
module State {
  import opened Wrappers
  import opened Types
  import opened TopicStore

  /** One set, subscribe or publish call of the engine on a collaborator. */
  datatype Effect =
    | SetKey(topic: Topic, key: SymKey)                       // crypto.setPairingKey
    | SetPairing(topic: Topic)                                // pairing.set
    | Subscribe(topic: Topic, relay: Option<RelayProtocol>)   // relayer.subscribe
    | SetProposal(publicKey: PublicKey)                       // proposal.set
    | Publish(topic: Topic, message: Message)                 // relayer.publish
    | SetHistory(topic: Topic, id: nat)                       // history.set

  datatype Publication = Publication(topic: Topic, message: Message)

  datatype HistoryRecord = HistoryRecord(topic: Topic, request: JsonRpcRequest)

  /** A proposal's approval future. Nothing in the engine resolves one, so it
      is pending until its own timer rejects it. */
  datatype ApprovalStatus = Pending | Rejected(reason: EngineError)

  /** `deadline` is the clock reading (seconds) at which the timer fires. */
  datatype Approval = Approval(deadline: nat, status: ApprovalStatus)

  datatype EngineState = EngineState(
    now: nat,
    keys: map<Topic, SymKey>,
    pairings: Store<PairingRecord>,
    sessions: Store<SessionRecord>,
    proposals: map<PublicKey, Proposal>,
    subscriptions: set<Topic>,
    history: seq<HistoryRecord>,
    journal: seq<Effect>,
    approvals: seq<Approval>,
    slot: Option<nat>,
    dispatched: seq<Route>)

  /** The messages handed to the relay, in order: the publish log. */
  function Publications(journal: seq<Effect>): seq<Publication>
  {
    if |journal| == 0 then []
    else
      var rest := Publications(journal[..|journal| - 1]);
      match journal[|journal| - 1]
      case Publish(t, m) => rest + [Publication(t, m)]
      case _ => rest
  }

  /** The publish log of a journal extended by `more` is the old log extended
      by the publications in `more`. */
  lemma {:induction false} PublicationsAppend(journal: seq<Effect>, more: seq<Effect>)
    ensures Publications(journal + more) == Publications(journal) + Publications(more)
    decreases |more|
  {
    if |more| == 0 {
      assert journal + more == journal;
    } else {
      var init := more[..|more| - 1];
      assert (journal + more)[..|journal + more| - 1] == journal + init;
      assert (journal + more)[|journal + more| - 1] == more[|more| - 1];
      PublicationsAppend(journal, init);
    }
  }

  /** Effects other than publishes leave the publish log as it was. */
  lemma {:induction false} PublicationsQuiet(journal: seq<Effect>, more: seq<Effect>)
    requires forall i | 0 <= i < |more| :: !more[i].Publish?
    ensures Publications(journal + more) == Publications(journal)
    decreases |more|
  {
    if |more| == 0 {
      assert journal + more == journal;
    } else {
      var init := more[..|more| - 1];
      assert (journal + more)[..|journal + more| - 1] == journal + init;
      assert (journal + more)[|journal + more| - 1] == more[|more| - 1];
      PublicationsQuiet(journal, init);
    }
  }

  /** Every stored pairing is filed under its own topic, has a registered key
      and is subscribed. */
  ghost predicate PairingsConsistent(s: EngineState) {
    && s.pairings.Valid()
    && (forall t | t in s.pairings.records :: s.pairings.records[t].topic == t)
    && s.pairings.records.Keys <= s.keys.Keys
    && s.pairings.records.Keys <= s.subscriptions
  }

  /** Every stored proposal is filed under its proposer's public key. */
  ghost predicate ProposalsKeyed(s: EngineState) {
    forall k | k in s.proposals :: s.proposals[k].proposer.publicKey == k
  }

  /** Only session requests are ever recorded in the history. */
  ghost predicate HistoryOfSessionRequests(s: EngineState) {
    forall h | h in s.history :: h.request.rpcMethod == SessionRequest
  }

  /** The slot holds the resolve/reject pair of the newest approval, and an
      approval is pending exactly while its deadline lies in the future. */
  ghost predicate ApprovalsTimely(s: EngineState) {
    && s.slot == (if |s.approvals| == 0 then None else Some(|s.approvals| - 1))
    && (forall i | 0 <= i < |s.approvals| :: s.approvals[i].status.Pending? <==> s.now < s.approvals[i].deadline)
  }

  ghost predicate Valid(s: EngineState) {
    && PairingsConsistent(s)
    && s.sessions.Valid()
    && ProposalsKeyed(s)
    && HistoryOfSessionRequests(s)
    && ApprovalsTimely(s)
  }

  /** The engine as constructed, with no pairings, keys, proposals or history. The `sessions`
      parameter only makes routing to the session handlers reachable: the
      engine itself never writes the session store. */
  function Init(now: nat, sessions: Store<SessionRecord>): (s: EngineState)
    requires sessions.Valid()
    ensures Valid(s)
    ensures Publications(s.journal) == [] && s.slot == None && s.dispatched == []
  {
    EngineState(now, map[], Empty(), sessions, map[], {}, [], [], [], None, [])
  }
}
