# WalletConnect client engine — session initiation, modelled in Dafny

This project models the session-initiation core of the WalletConnect v2
client's `Engine` (`packages/client/src/controllers/engine.ts`): how
`createSession` decides between reusing a pairing and creating one, builds and
stores the session proposal and publishes `wc_sessionPropose`; how
`createPairing` and `pair` register keys and subscribe to topics; how
`sendRequest` publishes and records history; how the relay-event listener
classifies and routes inbound payloads; and how each proposal's approval
future times out.

The engine's collaborators (crypto, the pairing, session and proposal stores,
the relayer, the JSON-RPC history) are plain state inside one immutable
`EngineState`:

- `keys`: the key registry, topic to symmetric key;
- `pairings`, `sessions`: topic stores (records by topic plus the `topics`
  list the engine scans);
- `proposals`: public key to proposal;
- `subscriptions`: the subscribed topics;
- `history`: the recorded `(topic, request)` pairs;
- `journal`: every set, subscribe and publish call the engine makes on a
  collaborator, in call order; the publish log is its projection
  `Publications`;
- `now`, `approvals`, `slot`: the clock (seconds), one approval future per
  `createSession`, and the single resolve/reject slot;
- `dispatched`: the route each inbound relay message was handed to.

Randomness is a transition parameter (`Fresh`: the pairing's symmetric key,
the key pair's public key, the JSON-RPC id). Topic derivation, `encode` and
`decode` are function-valued fields of an `Env` parameter, so nothing is
claimed about them. A URI is the record of its fields.

Modules: `Wrappers` (Option/Result), `Types` (vocabulary, constants,
configuration), `TopicStore` (the topic store and its `includes` scan),
`State` (engine state, publish log, invariant `Valid`), `Engine` (outbound
operations and the timer), `RelayEvents` (inbound listener), `Traces` (runs
of operations and facts about every run).

Notable behaviours of `engine.ts`:

- `createPairing` stores the new pairing with `active: true` (line 159), so a pairing
  created by one `createSession` is immediately reusable by the next
  (`Traces.NewPairingIsReused`).
- `pair` stores no pairing record (line 102 is a comment). On the responder side, inbound traffic on
  the paired topic is therefore dropped by the router unless a session owns
  the topic (`Traces.PairedTopicIsUnmatched`).
- There is one resolve/reject slot, overwritten by every `createSession`
  (lines 91-92, `Traces.NewerProposalTakesSlot`). Each call still arms its own timer
  (lines 85-87), so
  every approval is rejected at its own deadline (`Traces.ApprovalTimesOutAtDeadline`).
- The pairing topic goes through a JavaScript truthiness check (lines 55
  and 60): an empty topic string behaves like an absent one.

## Model

| member | source | states |
|---|---|---|
| `Engine.CreatePairing` | packages/client/src/controllers/engine.ts:154-166 | the fresh symmetric key is registered under the topic derived from it; the pairing `{topic, expiry = now + 5 min, default relay, active = true}` is stored under that topic; the topic is subscribed; the URI carries protocol, version, topic, key and relay; the calls happen in that order and no other part of the state changes |
| `Engine.CreatePairingPreservesValid` | packages/client/src/controllers/engine.ts:154-166 | `createPairing` keeps the state invariant: the new pairing is filed under its own topic, whose key is registered and which is subscribed |
| `Engine.Pair` | packages/client/src/controllers/engine.ts:98-105 | the URI's key is bound to the URI's topic and the topic is subscribed with the URI's relay; the pairing store, the publish log and everything else are unchanged |
| `Engine.SendRequest` | packages/client/src/controllers/engine.ts:168-178 | exactly one encoded request, addressed to the given topic, is appended to the publish log; history gains `(topic, request)` if and only if the method is `wc_sessionRequest`; nothing else changes |
| `Engine.ResolvePairing` | packages/client/src/controllers/engine.ts:50-64 | an unknown pairing topic fails with NotFound (before anything is generated or stored); an active stored pairing is reused without a URI and without state change; an absent, empty or inactive topic gets a freshly created pairing and its URI |
| `Engine.BuildProposal` | packages/client/src/controllers/engine.ts:67-76 | supplied methods, events, chains and relays pass through unchanged; absent ones become empty, and absent relays exactly one default relay; the proposer is the fresh public key with the engine's metadata |
| `Engine.StoreProposal` | packages/client/src/controllers/engine.ts:78 | the proposal is stored under the given key, the call is journaled, the publish log and everything else are unchanged |
| `Engine.ArmApproval` | packages/client/src/controllers/engine.ts:84-93 | a new pending approval with the given deadline is appended, and its resolve/reject pair overwrites the slot; nothing else changes |
| `Engine.Propose` | packages/client/src/controllers/engine.ts:78-93 | on the chosen topic, the proposal is stored under its proposer key, then published as exactly one `wc_sessionPropose` message, then its approval is armed and takes the slot; history and all other state are unchanged |
| `Engine.CreateSession` | packages/client/src/controllers/engine.ts:47-96 | fails exactly when a given topic has no pairing; the URI is absent exactly when the pairing is reused; absent methods/events/chains become empty and absent relays the single default relay, supplied values pass through; the proposal is stored under the fresh public key with that key and the engine's metadata as proposer; the journal shows the proposal stored before `wc_sessionPropose` is published on the chosen topic; history is untouched; a new pending approval with deadline now + 5 min takes the slot |
| `Engine.AdvanceClock` | packages/client/src/controllers/engine.ts:81-93 | after time passes, an approval is pending exactly when it was pending and its deadline is still ahead; those whose deadline has come are rejected with SETTLE_TIMEOUT (proposal-store context, 300000 ms); settled approvals and all other state are unchanged |
| `Engine.PairPreservesValid` | packages/client/src/controllers/engine.ts:98-105 | `pair` keeps the state invariant (pairings filed under their topic, keyed and subscribed; proposals filed under their proposer key; history only of session requests; slot on the newest approval; pending exactly before deadline) |
| `Engine.AdvanceClockPreservesValid` | packages/client/src/controllers/engine.ts:84-88 | the timers firing keep the state invariant, in particular "pending exactly while the deadline lies ahead" |
| `Engine.CreateSessionPreservesValid` | packages/client/src/controllers/engine.ts:47-96 | `createSession` keeps the state invariant |
| `State.Init` | packages/client/src/controllers/engine.ts:29-43 | the freshly constructed engine satisfies the state invariant, with an empty publish log and an empty slot |
| `TopicStore.Includes` | packages/client/src/controllers/engine.ts:202 | the front-to-back scan of a topic list finds a topic exactly when the list contains it |
| `TopicStore.HasTopic` | packages/client/src/controllers/engine.ts:206 | scanning a store's `topics` list answers exactly whether the store holds a record for the topic |
| `RelayEvents.Classify` | packages/client/src/controllers/engine.ts:192-196 | only a JSON-RPC 2.0 payload (an `id` and `jsonrpc` "2.0") is classified: with a method it is a request (even with a result or error), with a result or error but no method a response; anything else is neither |
| `RelayEvents.ReferenceRoute` | packages/client/src/controllers/engine.ts:188-236 | an undecodable message is not routed; a decoded non-JSON-RPC payload is ignored; a request or response goes to the pairing handlers exactly when its topic has a pairing, to the session handlers exactly when it has a session and no pairing, and is dropped otherwise |
| `RelayEvents.RouteEvent` | packages/client/src/controllers/engine.ts:188-236 | the listener as written, with its linear topic scans, routes every event exactly as the membership-based reference does |
| `RelayEvents.RouteAll` | packages/client/src/controllers/engine.ts:189-197 | the listener applied once per delivered event yields one route per event, each the reference route |
| `RelayEvents.OnRelayMessage` | packages/client/src/controllers/engine.ts:189-197 | delivering one message records its reference route as dispatched and changes nothing else, since every handler group is empty |
| `Traces.StepPreservesValid` | packages/client/src/controllers/engine.ts:47-105 | every operation (createSession, pair, time passing, an inbound event) keeps the state invariant |
| `Traces.RunPreservesValid` | packages/client/src/controllers/engine.ts:47-236 | every run of operations from a consistent state ends in a consistent state |
| `Traces.RunKeepsHistory` | packages/client/src/controllers/engine.ts:79 | no run changes the request history, since `createSession` only ever publishes `wc_sessionPropose` |
| `Traces.DeliveriesOnlyDispatch` | packages/client/src/controllers/engine.ts:188-236 | delivering any sequence of inbound relay events changes no store, journal, clock or approval; each event is dispatched, in order, to its reference route in the unchanged stores |
| `Traces.StepExtendsApprovals` | packages/client/src/controllers/engine.ts:84-92 | no single operation moves the clock back, drops, moves, re-times or revives an approval, and only the timer rejects one, with SETTLE_TIMEOUT |
| `Traces.RunExtendsApprovals` | packages/client/src/controllers/engine.ts:84-92 | along any run the clock never goes back and every approval keeps its index and deadline; a rejected approval stays rejected, and a pending one is only ever rejected with SETTLE_TIMEOUT |
| `Traces.ApprovalTimesOutAtDeadline` | packages/client/src/controllers/engine.ts:81-93 | whatever runs after a `createSession`, its approval is pending exactly until five minutes after the call, and from then on it is rejected with SETTLE_TIMEOUT (proposal-store context, 300000 ms) |
| `Traces.NewerProposalTakesSlot` | packages/client/src/controllers/engine.ts:89-92 | a second `createSession` takes the slot; the first approval is left pending with its own deadline, outside the slot |
| `Traces.NewPairingIsReused` | packages/client/src/controllers/engine.ts:55-64 | a pairing created by `createSession` is active, so giving its (non-empty) topic to the next `createSession` reuses it: no URI, no new pairing, the proposal goes out on that topic |
| `Traces.PairedTopicIsUnmatched` | packages/client/src/controllers/engine.ts:98-105 | in a run of `pair` followed by a JSON-RPC request on the paired topic, which no store owns, the topic gets a key and a subscription but no pairing, and the request is dispatched as unmatched (dropped) |

## Left out

- The stub operations `approve`, `reject`, `updateAccounts`, `updateMethods`,
  `updateEvents`, `updateExpiry`, `request`, `respond`, `ping`, `emit`,
  `disconnect`, `sendResponse`, `onSessionProposeResponse` and
  `registerExpirerEvents` have empty bodies; the route handlers are comments.
  Nothing resolves an approval, so `ApprovalStatus` has no resolved case and
  the resolve half of the slot is only tracked, never invoked.
- `client.ts` (construction, logger, storage, heartbeat, event-emitter
  delegation and try/log/rethrow wrappers) is wiring around the engine.
- Encryption, `encode`/`decode` and topic hashing are parameters of `Env`;
  no round trip is claimed about them.
- `formatUri`/`parseUri` string syntax: the URI is a record, and `pair` takes
  the parsed record.
- The relay transport, subscription ids and key-value persistence.
- Promise and timer machinery beyond an abstract clock in whole seconds: a
  timer fires once the clock reaches its deadline; millisecond granularity,
  concurrency and re-entrancy are not modelled.
- `RELAYER_DEFAULT_PROTOCOL` comes from a constants file that is not part of
  this model, so the default relay protocol is a configuration field rather
  than a literal.
- The pairing, session and proposal controllers are not part of this model.
  Their `get` is modelled as failing with NotFound only on a missing record;
  a lazy expiry check on read is not modelled. The session store is only
  read (for routing), never written.
- JSON-RPC ids come from `payloadId()`; the id is a transition parameter. The
  `jsonrpc: "2.0"` member of requests is not represented.
- `pair` does not await `setPairingKey` or `subscribe`; the journal records
  only the order in which the calls are made.
- Reads and crypto calls are not journaled: `pairing.get`, `generateKeyPair`,
  `encode`, `decode` and the listener registration `relayer.on`. The key
  pair `generateKeyPair` stores in the key chain is not modelled; only its
  public key is used.
- Every operation takes no time: the pairing expiry, the approval timer and
  the proposal all read the clock at the call, whereas in the code the timer
  is armed only after the awaited `proposal.set` and `sendRequest`, so its
  deadline falls five minutes after the publish completes.
- Collaborator calls other than `pairing.get` never fail in the model. In
  the code a throwing `proposal.set`, `encode` or `publish` leaves a created
  pairing (and possibly a stored proposal) behind with no approval armed.
- RelayEvents.Classify: the JSON-RPC tests come from a library that is not
  part of this model; a payload is reduced to which of `id`, `jsonrpc`,
  `method`, `result` and `error` it carries, and `jsonrpc` must equal
  "2.0", as those tests require. The value types of the members are not
  checked.
- Restoring the controllers' persisted stores during client initialization
  is not modelled: `State.Init` starts with empty stores and takes the
  session store as a parameter only so that routing to the session handlers
  is reachable.
