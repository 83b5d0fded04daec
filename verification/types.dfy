/** Vocabulary shared by the engine model: identifiers, the records the engine
    hands to its collaborators, errors, and the engine's configuration. */
module Types {
  import opened Wrappers

  /** Opaque identifiers. Their format belongs to the crypto layer. */
  type Topic = string
  type SymKey = string
  type PublicKey = string
  type Message = string

  /** FIVE_MINUTES in seconds: the lifetime of a new pairing and the approval
      timeout of a proposal. */
  const FiveMinutes: nat := 300
  const MillisPerSecond: nat := 1000

  /** JSON-RPC method names the engine treats specially. */
  const SessionPropose: string := "wc_sessionPropose"
  const SessionRequest: string := "wc_sessionRequest"

  /** The static application descriptor attached to every proposal. */
  datatype Metadata = Metadata(name: string, description: string, url: string, icons: seq<string>)

  /** A relay protocol reference `{ protocol, data? }`. */
  datatype RelayProtocol = RelayProtocol(protocol: string, data: Option<string>)

  /** What the engine is constructed with: protocol name and version of the
      client, its metadata, the default relay protocol, and the name of the
      proposal store (the context of the settle-timeout error). */
  datatype Config = Config(
    protocol: string,
    version: nat,
    metadata: Metadata,
    defaultRelayProtocol: string,
    proposalContext: string)

  /** `{ protocol: RELAYER_DEFAULT_PROTOCOL }`. */
  function DefaultRelay(config: Config): RelayProtocol {
    RelayProtocol(config.defaultRelayProtocol, None)
  }

  datatype PairingRecord = PairingRecord(topic: Topic, expiry: nat, relay: RelayProtocol, active: bool)

  datatype SessionRecord = SessionRecord(
    topic: Topic,
    expiry: nat,
    relay: RelayProtocol,
    methods: seq<string>,
    events: seq<string>,
    chains: seq<string>)

  datatype Proposer = Proposer(publicKey: PublicKey, metadata: Metadata)

  datatype Proposal = Proposal(
    methods: seq<string>,
    events: seq<string>,
    chains: seq<string>,
    relays: seq<RelayProtocol>,
    proposer: Proposer)

  /** The fields of a pairing URI; its string syntax is not modelled. */
  datatype PairingUri = PairingUri(protocol: string, version: nat, topic: Topic, symKey: SymKey, relay: RelayProtocol)

  /** Parameters of an outbound request: a proposal, or anything else. */
  datatype Params = ProposalParams(proposal: Proposal) | OpaqueParams(data: string)

  datatype JsonRpcRequest = JsonRpcRequest(id: nat, rpcMethod: string, params: Params)

  /** A decoded inbound payload, described by which JSON-RPC members it has
      (an absent member is None). */
  datatype Payload = Payload(
    id: Option<nat>,
    jsonrpc: Option<string>,
    rpcMethod: Option<string>,
    result: Option<string>,
    error: Option<string>)

  /** The `jsonrpc` member every JSON-RPC 2.0 payload carries. */
  const JsonRpcVersion: string := "2.0"

  datatype RelayEvent = RelayEvent(topic: Topic, message: Message)

  datatype Kind = RequestKind | ResponseKind

  datatype Scope = PairingScope | SessionScope

  /** Where the relay-event listener sends an inbound message. */
  datatype Route =
    | Routed(kind: Kind, scope: Scope)
    | Unmatched(kind: Kind)          // topic belongs to neither store: dropped
    | NotJsonRpc                     // neither a request nor a response: ignored
    | Undecodable(error: EngineError)

  datatype EngineError =
    | NotFound(topic: Topic)
    | SettleTimeout(context: string, timeoutMs: nat)
    | DecodeFailure(reason: string)

  /** The collaborators whose code is not part of the model: topic derivation
      from a symmetric key, and encoding and decoding of payloads per topic. */
  datatype Env = Env(
    config: Config,
    deriveTopic: SymKey -> Topic,
    encode: (Topic, JsonRpcRequest) -> Message,
    decode: (Topic, Message) -> Result<Payload, EngineError>)

  /** The values `createSession` draws at random: the pairing's symmetric key,
      the proposal's public key and the JSON-RPC id of the propose request. */
  datatype Fresh = Fresh(symKey: SymKey, publicKey: PublicKey, requestId: nat)

  /** JavaScript truthiness of an optional topic: absent and "" are falsy. */
  predicate Truthy(t: Option<Topic>) {
    t.Some? && t.value != ""
  }
}
