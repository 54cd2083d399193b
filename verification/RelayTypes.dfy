/**
  Records and configuration of the relay state store.

  Digests are injective in the original, so a digest is represented by the value it hides; an
  absent digest (the empty string in the original) is `None`.  Times are epoch seconds.
*/
module RelayTypes {

  datatype Option<+T> = None | Some(value: T)

  type Time = real
  type NodeId = nat
  type Digest = nat
  type Envelope = nat
  type ModelId = nat

  function Min(a: Time, b: Time): Time {
    if a <= b then a else b
  }

  /** A request is identified by its client and the identifier the client gave it. */
  datatype Identity = Identity(client: Digest, request: Digest)

  datatype Tier = Fast8k | Full64k {
    function Tokens(): nat {
      if Fast8k? then 8192 else 65536
    }
  }

  /** The scheduler keeps one fairness cursor for each requested model and context tier. */
  datatype Fingerprint = Fingerprint(model: ModelId, tier: Tier)

  datatype Capabilities = Capabilities(
    models: set<ModelId>,
    tier: Tier,
    contextTokens: nat,
    maxConcurrency: nat)

  datatype Registration = Registration(
    capabilities: Capabilities,
    credential: Digest,
    registeredAt: Time,
    leaseExpiry: Time)

  datatype SchedulerState = SchedulerState(healthy: bool, draining: bool, claimedWork: nat)

  datatype Reservation = Reservation(
    fingerprint: Fingerprint,
    node: NodeId,
    deadline: Time,
    expiry: Time,
    token: Digest)

  datatype QueuedRequest = QueuedRequest(
    id: Identity,
    node: NodeId,
    fingerprint: Fingerprint,
    deadline: Time,
    envelope: Envelope,
    enqueuedAt: Time,
    sequence: nat)

  /** A lease on a queued request; `generation` fences every earlier lease on any request. */
  datatype Claim = Claim(
    consumer: Digest,
    node: NodeId,
    credential: Digest,
    deadline: Time,
    envelope: Envelope,
    sequence: nat,
    generation: nat,
    lease: Time)

  datatype Response = Response(
    node: NodeId,
    consumer: Digest,
    generation: nat,
    envelope: Envelope,
    acceptedAt: Time,
    replayExpiry: Time)

  datatype Verdict = Completed | Cancelled | Expired
  datatype Reason = ResponseCompleted | RequesterCancelled | DeadlineExpired | ServerUnregistered
  datatype Retrieval = ResponseReady | Acknowledged | RetrievalExpired | CompletedUnavailable

  /** The acknowledgement token is a keyed digest of exactly these three values. */
  datatype AckToken = AckToken(id: Identity, acceptedAt: Time, response: Envelope)

  datatype Terminal = Terminal(
    node: NodeId,
    credential: Option<Digest>,
    consumer: Option<Digest>,
    generation: nat,
    response: Option<Envelope>,
    acceptedAt: Time,
    replayExpiry: Time,
    expiry: Time,
    verdict: Verdict,
    retrieval: Retrieval,
    retrievalCredential: Option<Digest>,
    acknowledgement: Option<AckToken>,
    reason: Reason,
    cancelToken: Option<Digest>)

  /** The owner-bound instruction to stop computing a request that is already terminal. */
  datatype ControlTombstone = ControlTombstone(
    node: NodeId,
    credential: Digest,
    consumer: Digest,
    generation: nat,
    verdict: Verdict,
    reason: Reason,
    deadline: Time,
    acknowledged: bool,
    expiry: Time)

  datatype Cause = ExplicitUnregister | LeaseExpired

  datatype NodeTombstone = NodeTombstone(
    credential: Digest,
    cause: Cause,
    transitionAt: Time,
    completed: bool,
    expiry: Time)

  datatype PendingTransition = PendingTransition(
    credential: Digest,
    cause: Cause,
    transitionAt: Time)

  /** Former owners of a node are kept in one map from (node, owner) instead of nested maps. */
  datatype FenceKey = FenceKey(node: NodeId, owner: Digest)
  datatype FormerAuthority = FormerAuthority(cause: Cause, transitionAt: Time, expiry: Time)

  datatype Cursor = Cursor(node: NodeId, activity: nat)

  datatype Config = Config(
    leaseTtl: Time,
    maxNodes: nat,
    reservationTtl: Time,
    maxRequestTtl: Time,
    maxReservations: nat,
    maxReservationsPerClient: nat,
    maxReservationsPerNode: nat,
    maxQueueDepthPerNode: nat,
    maxLifecycles: nat,
    maxQueued: nat,
    maxQueuedPerClient: nat,
    maxFingerprints: nat,
    claimTtl: Time,
    maxClaims: nat,
    maxClaimsPerNode: nat,
    maxResponses: nat,
    maxResponsesPerClient: nat,
    replayTtl: Time,
    maxTerminals: nat,
    maxTerminalsPerClient: nat,
    terminalRetention: Time,
    controlTtl: Time,
    maxControls: nat,
    maxControlsPerNode: nat,
    batchSize: nat,
    maxPending: nat,
    maxNodeTombstones: nat,
    nodeTombstoneTtl: Time,
    maxFences: nat)
  {
    /** The inequalities the configuration constructor enforces. */
    predicate Valid() {
      && 0.0 < leaseTtl
      && 0.0 < reservationTtl
      && 0.0 < maxRequestTtl
      && 0.0 < claimTtl
      && 0.0 < replayTtl <= terminalRetention
      && 0.0 < controlTtl <= terminalRetention
      && controlTtl <= 300.0
      && 0.0 < nodeTombstoneTtl <= 300.0
      && 1 <= maxNodes && 1 <= maxReservations && 1 <= maxReservationsPerClient
      && 1 <= maxReservationsPerNode && 1 <= maxQueueDepthPerNode && 1 <= maxLifecycles
      && 1 <= maxQueued && 1 <= maxQueuedPerClient && 1 <= maxFingerprints
      && 1 <= maxClaims && 1 <= maxClaimsPerNode
      && 1 <= maxResponses && 1 <= maxResponsesPerClient
      && 1 <= maxTerminals && 1 <= maxTerminalsPerClient
      && 1 <= maxControls && 1 <= maxControlsPerNode
      && 1 <= batchSize && 1 <= maxPending && 1 <= maxNodeTombstones && 1 <= maxFences
    }
  }

  /** The exceptions of the original, and `Ok` for a normal return. */
  datatype Error =
    | CapacityExceeded
    | CredentialMismatch
    | Conflict
    | NoCapacity
    | InvalidReservation
    | InvalidArgument

  datatype Outcome<+T> = Ok(value: T) | Raised(error: Error)
}
