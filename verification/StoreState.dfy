/**
  The state of the relay state store and its atomic transitions.

  Every change the store ever makes is one `Event`: `Enabled` is the guard under which the code
  makes it, `Apply` the state it leaves.  A public call performs a series of housekeeping events
  and then at most one event of its own.
*/
module StoreState {
  import opened RelayTypes

  /** Live work: reserved and queued requests with their token digests and indexes. */
  datatype Work = Work(
    reservations: map<Identity, Reservation>,
    queued: map<Identity, QueuedRequest>,
    queuedTokens: map<Identity, Digest>,
    cancelTokens: map<Identity, Digest>,
    nodeQueues: map<NodeId, seq<QueuedRequest>>,
    nodeWork: map<NodeId, set<Identity>>,
    nextSequence: nat)

  datatype Leases = Leases(claims: map<Identity, Claim>, nextGeneration: nat)

  /** Results kept for a while after a request is over. */
  datatype Kept = Kept(
    responses: map<Identity, Response>,
    terminals: map<Identity, Terminal>,
    controls: map<Identity, ControlTombstone>)

  datatype Fleet = Fleet(
    nodes: map<NodeId, Registration>,
    scheduler: map<NodeId, SchedulerState>,
    order: map<NodeId, nat>,
    nextOrder: nat,
    pending: map<NodeId, PendingTransition>,
    fences: map<FenceKey, FormerAuthority>,
    nodeTombstones: map<NodeId, NodeTombstone>)

  datatype Fairness = Fairness(cursors: map<Fingerprint, Cursor>, activity: nat)

  /**
    The place of each request in the dictionaries that list it, which keep the order of insertion.  A
    request gets its place when it is reserved and keeps it for as long as it is live.
  */
  datatype Arrivals = Arrivals(places: map<Identity, nat>, next: nat)

  datatype State = State(
    work: Work,
    leases: Leases,
    kept: Kept,
    fleet: Fleet,
    fairness: Fairness,
    deferred: set<Identity>,
    arrivals: Arrivals)

  function Init(): State {
    State(Work(map[], map[], map[], map[], map[], map[], 0), Leases(map[], 0),
          Kept(map[], map[], map[]), Fleet(map[], map[], map[], 0, map[], map[], map[]),
          Fairness(map[], 0), {}, Arrivals(map[], 0))
  }

  // ----- Reading the state -----

  predicate Held(w: Work, id: Identity) {
    id in w.reservations || id in w.queued
  }

  function NodeOf(w: Work, id: Identity): NodeId
    requires Held(w, id)
  {
    if id in w.reservations then w.reservations[id].node else w.queued[id].node
  }

  function DeadlineOf(w: Work, id: Identity): Time
    requires Held(w, id)
  {
    if id in w.reservations then w.reservations[id].deadline else w.queued[id].deadline
  }

  function PlaceOf(a: Arrivals, id: Identity): nat {
    if id in a.places then a.places[id] else 0
  }

  function QueueOf(w: Work, n: NodeId): seq<QueuedRequest> {
    if n in w.nodeQueues then w.nodeQueues[n] else []
  }

  function WorkOf(w: Work, n: NodeId): set<Identity> {
    if n in w.nodeWork then w.nodeWork[n] else {}
  }

  function OfClient(keys: set<Identity>, client: Digest): set<Identity> {
    set i | i in keys && i.client == client
  }

  function ReservedOn(reservations: map<Identity, Reservation>, n: NodeId): set<Identity> {
    set i | i in reservations && reservations[i].node == n
  }

  function ControlsOn(controls: map<Identity, ControlTombstone>, n: NodeId): set<Identity> {
    set i | i in controls && controls[i].node == n
  }

  function LiveClaims(claims: map<Identity, Claim>, now: Time): set<Identity> {
    set i | i in claims && claims[i].lease > now
  }

  function LiveClaimsOn(claims: map<Identity, Claim>, n: NodeId, now: Time): set<Identity> {
    set i | i in claims && claims[i].lease > now && claims[i].node == n
  }

  // ----- Scheduling -----

  function Load(s: State, n: NodeId): nat
    requires n in s.fleet.scheduler
  {
    |ReservedOn(s.work.reservations, n)| + |QueueOf(s.work, n)| + s.fleet.scheduler[n].claimedWork
  }

  predicate Eligible(c: Config, s: State, fp: Fingerprint, n: NodeId) {
    && n in s.fleet.nodes && n in s.fleet.scheduler
    && var caps := s.fleet.nodes[n].capabilities;
       var reserved := |ReservedOn(s.work.reservations, n)|;
    && fp.model in caps.models
    && caps.tier.Tokens() >= fp.tier.Tokens()
    && caps.contextTokens >= fp.tier.Tokens()
    && s.fleet.scheduler[n].healthy
    && !s.fleet.scheduler[n].draining
    && Load(s, n) < caps.maxConcurrency
    && reserved < c.maxReservationsPerNode
    && reserved + |QueueOf(s.work, n)| < c.maxQueueDepthPerNode
  }

  function TierOf(s: State, n: NodeId): nat
    requires n in s.fleet.nodes
  {
    s.fleet.nodes[n].capabilities.tier.Tokens()
  }

  /** Smaller serving tier first, then smaller load. */
  predicate NoWorse(s: State, n: NodeId, m: NodeId)
    requires n in s.fleet.nodes && n in s.fleet.scheduler
    requires m in s.fleet.nodes && m in s.fleet.scheduler
  {
    || TierOf(s, n) < TierOf(s, m)
    || (TierOf(s, n) == TierOf(s, m) && Load(s, n) <= Load(s, m))
  }

  ghost predicate Best(c: Config, s: State, fp: Fingerprint, n: NodeId) {
    && Eligible(c, s, fp, n)
    && forall m | m in s.fleet.nodes && Eligible(c, s, fp, m) :: NoWorse(s, n, m)
  }

  /** The eligible nodes that tie for the smallest tier and load. */
  ghost function Tied(c: Config, s: State, fp: Fingerprint): set<NodeId> {
    set n | n in s.fleet.nodes && Best(c, s, fp, n)
  }

  function CursorOrder(s: State, fp: Fingerprint): int {
    if fp in s.fairness.cursors && s.fairness.cursors[fp].node in s.fleet.order
    then s.fleet.order[s.fairness.cursors[fp].node] else -1
  }

  /** `n` is the first of `tied` after position `cursor` in registration order, cyclically. */
  ghost predicate NextInOrder(order: map<NodeId, nat>, tied: set<NodeId>, cursor: int, n: NodeId)
    requires tied <= order.Keys
  {
    && n in tied
    && (order[n] > cursor ==> forall m | m in tied && order[m] > cursor :: order[n] <= order[m])
    && (order[n] <= cursor ==>
          && (forall m | m in tied :: order[m] <= cursor)
          && (forall m | m in tied :: order[n] <= order[m]))
  }

  ghost predicate Selected(c: Config, s: State, fp: Fingerprint, n: NodeId) {
    && Tied(c, s, fp) <= s.fleet.order.Keys
    && NextInOrder(s.fleet.order, Tied(c, s, fp), CursorOrder(s, fp), n)
  }

  ghost predicate ActiveFingerprint(w: Work, fp: Fingerprint) {
    || (exists i :: i in w.reservations && w.reservations[i].fingerprint == fp)
    || (exists i :: i in w.queued && w.queued[i].fingerprint == fp)
  }

  /** Which cursor makes room for `fp`: none if there is room, else the idlest inactive one. */
  ghost predicate Evicts(c: Config, s: State, fp: Fingerprint, victim: Option<Fingerprint>) {
    var cursors := s.fairness.cursors;
    if fp in cursors || |cursors| < c.maxFingerprints then
      victim.None?
    else
      && victim.Some?
      && victim.value in cursors
      && !ActiveFingerprint(s.work, victim.value)
      && forall f | f in cursors && !ActiveFingerprint(s.work, f) ::
           cursors[victim.value].activity <= cursors[f].activity
  }

  // ----- Removing work -----

  /** The queue without the given entry. */
  function Without(q: seq<QueuedRequest>, x: QueuedRequest): (r: seq<QueuedRequest>)
    ensures |r| <= |q|
    ensures forall y :: y in r <==> y in q && y != x
  {
    if q == [] then []
    else
      assert q == [q[0]] + q[1..];
      if q[0] == x then Without(q[1..], x) else [q[0]] + Without(q[1..], x)
  }

  function Discard(work: map<NodeId, set<Identity>>, n: NodeId, id: Identity)
    : map<NodeId, set<Identity>>
  {
    if n !in work then work
    else if work[n] - {id} == {} then work - {n}
    else work[n := work[n] - {id}]
  }

  function Dequeue(queues: map<NodeId, seq<QueuedRequest>>, q: QueuedRequest)
    : map<NodeId, seq<QueuedRequest>>
  {
    var queue := if q.node in queues then queues[q.node] else [];
    if Without(queue, q) == [] then queues - {q.node} else queues[q.node := Without(queue, q)]
  }

  /** `id` leaves every map and index of live work. */
  function RemoveWork(w: Work, id: Identity): Work
    requires Held(w, id)
  {
    w.(reservations := w.reservations - {id},
       queued := w.queued - {id},
       queuedTokens := w.queuedTokens - {id},
       cancelTokens := w.cancelTokens - {id},
       nodeQueues := if id in w.queued then Dequeue(w.nodeQueues, w.queued[id]) else w.nodeQueues,
       nodeWork := Discard(w.nodeWork, NodeOf(w, id), id))
  }

  // ----- Terminalization -----

  /** The claim whose owner must be told to stop, if any. */
  function TombstoneClaim(s: State, id: Identity, verdict: Verdict, force: bool, now: Time)
    : Option<Claim>
    requires Held(s.work, id)
  {
    var claims := s.leases.claims;
    if && id in claims
       && (|| force
           || (verdict == Cancelled && claims[id].lease > now)
           || (verdict == Expired && claims[id].lease >= DeadlineOf(s.work, id)))
    then Some(claims[id]) else None
  }

  predicate TerminalRoom(c: Config, k: Kept, client: Digest) {
    && |k.terminals| < c.maxTerminals
    && |OfClient(k.terminals.Keys, client)| < c.maxTerminalsPerClient
  }

  predicate ControlRoom(c: Config, k: Kept, n: NodeId) {
    |k.controls| < c.maxControls && |ControlsOn(k.controls, n)| < c.maxControlsPerNode
  }

  predicate CanTerminalize(c: Config, s: State, id: Identity, verdict: Verdict, force: bool, now: Time)
    requires Held(s.work, id)
  {
    && TerminalRoom(c, s.kept, id.client)
    && var claim := TombstoneClaim(s, id, verdict, force, now);
       claim.Some? ==> ControlRoom(c, s.kept, claim.value.node)
  }

  function TerminalFor(c: Config, w: Work, id: Identity, claim: Option<Claim>, verdict: Verdict, reason: Reason,
                       now: Time): Terminal
    requires Held(w, id)
  {
    Terminal(
      NodeOf(w, id),
      if claim.Some? then Some(claim.value.credential) else None,
      if claim.Some? then Some(claim.value.consumer) else None,
      if claim.Some? then claim.value.generation else 0,
      None, now, now, now + c.terminalRetention,
      verdict, CompletedUnavailable, None, None, reason,
      if id in w.cancelTokens then Some(w.cancelTokens[id]) else None)
  }

  function ControlOf(c: Config, claim: Claim, verdict: Verdict, reason: Reason, now: Time)
    : ControlTombstone
  {
    ControlTombstone(claim.node, claim.credential, claim.consumer, claim.generation, verdict,
                     reason, claim.deadline, false, Min(now + c.controlTtl, now + 300.0))
  }

  /** Keep the terminal record of `id` and, if there is a claim to stop, its control tombstone. */
  function Conclude(k: Kept, id: Identity, t: Terminal, control: Option<ControlTombstone>): Kept {
    Kept(k.responses, k.terminals[id := t],
         if control.Some? then k.controls[id := control.value] else k.controls)
  }

  function Terminalize(c: Config, s: State, id: Identity, verdict: Verdict, reason: Reason,
                       force: bool, now: Time): State
    requires Held(s.work, id)
  {
    var claim := TombstoneClaim(s, id, verdict, force, now);
    State(
      RemoveWork(s.work, id),
      s.leases.(claims := s.leases.claims - {id}),
      Conclude(s.kept, id, TerminalFor(c, s.work, id, claim, verdict, reason, now),
               if claim.Some? then Some(ControlOf(c, claim.value, verdict, reason, now)) else None),
      s.fleet,
      s.fairness,
      s.deferred - {id},
      s.arrivals)
  }

  // ----- Retention -----

  function ReapTerminal(k: Kept, id: Identity, now: Time): Terminal
    requires id in k.terminals
  {
    if && id in k.responses && k.responses[id].replayExpiry <= now
       && k.terminals[id].retrieval == ResponseReady
    then k.terminals[id].(retrieval := RetrievalExpired)
    else k.terminals[id]
  }

  predicate FenceReserved(pending: map<NodeId, PendingTransition>, k: FenceKey) {
    k.node in pending && pending[k.node].credential == k.owner
  }

  function ReapKept(k: Kept, now: Time): Kept {
    Kept(map i | i in k.responses && k.responses[i].replayExpiry > now :: k.responses[i],
         map i | i in k.terminals && k.terminals[i].expiry > now :: ReapTerminal(k, i, now),
         map i | i in k.controls && k.controls[i].expiry > now :: k.controls[i])
  }

  function ReapFleet(f: Fleet, now: Time): Fleet {
    f.(nodeTombstones := map n | n in f.nodeTombstones && f.nodeTombstones[n].expiry > now
                           :: f.nodeTombstones[n],
       fences := map k | k in f.fences && (f.fences[k].expiry > now || FenceReserved(f.pending, k))
                   :: f.fences[k])
  }

  // ----- Nodes -----

  predicate TransitionRoom(c: Config, f: Fleet, n: NodeId)
    requires n in f.nodes
  {
    && |f.pending| < c.maxPending
    && (FenceKey(n, f.nodes[n].credential) in f.fences || |f.fences| < c.maxFences)
    && (n in f.nodeTombstones || |f.nodeTombstones| < c.maxNodeTombstones)
  }

  function StartFleet(c: Config, f: Fleet, n: NodeId, cause: Cause, idle: bool, now: Time): Fleet
    requires n in f.nodes
  {
    var owner := f.nodes[n].credential;
    f.(nodes := f.nodes - {n},
       scheduler := f.scheduler - {n},
       order := f.order - {n},
       pending := f.pending[n := PendingTransition(owner, cause, now)],
       fences := f.fences[FenceKey(n, owner) := FormerAuthority(cause, now, now + c.terminalRetention)],
       nodeTombstones := f.nodeTombstones[n := NodeTombstone(owner, cause, now, idle,
                                                Min(now + c.nodeTombstoneTtl, now + 300.0))])
  }

  function CursorsWithout(cursors: map<Fingerprint, Cursor>, n: NodeId): map<Fingerprint, Cursor> {
    map f | f in cursors && cursors[f].node != n :: cursors[f]
  }

  function CompleteFleet(c: Config, f: Fleet, n: NodeId, now: Time): Fleet
    requires n in f.pending && FenceKey(n, f.pending[n].credential) in f.fences
  {
    var k := FenceKey(n, f.pending[n].credential);
    f.(fences := f.fences[k := f.fences[k].(expiry := now + c.terminalRetention)],
       pending := f.pending - {n},
       nodeTombstones := if n in f.nodeTombstones
                         then f.nodeTombstones[n := f.nodeTombstones[n].(completed := true)]
                         else f.nodeTombstones)
  }

  function RegisterFleet(c: Config, f: Fleet, n: NodeId, caps: Capabilities, owner: Digest, now: Time): Fleet {
    f.(nodes := f.nodes[n := Registration(caps, owner, now, now + c.leaseTtl)],
       scheduler := f.scheduler[n := SchedulerState(true, false, 0)],
       order := f.order[n := f.nextOrder],
       nextOrder := f.nextOrder + 1)
  }

  // ----- Requests -----

  predicate LifecycleRoom(c: Config, w: Work, client: Digest) {
    && |w.reservations| < c.maxReservations
    && |w.reservations| + |w.queued| < c.maxLifecycles
    && |OfClient(w.reservations.Keys, client)| + |OfClient(w.queued.Keys, client)|
         < c.maxReservationsPerClient
  }

  predicate QueueRoom(c: Config, w: Work, client: Digest) {
    |w.queued| < c.maxQueued && |OfClient(w.queued.Keys, client)| < c.maxQueuedPerClient
  }

  predicate ClaimRoom(c: Config, claims: map<Identity, Claim>, n: NodeId, now: Time) {
    |LiveClaims(claims, now)| < c.maxClaims && |LiveClaimsOn(claims, n, now)| < c.maxClaimsPerNode
  }

  predicate ResponseRoom(c: Config, k: Kept, client: Digest) {
    && |k.responses| < c.maxResponses
    && |OfClient(k.responses.Keys, client)| < c.maxResponsesPerClient
    && TerminalRoom(c, k, client)
  }

  function ReserveWork(w: Work, id: Identity, r: Reservation, cancel: Option<Digest>): Work {
    w.(reservations := w.reservations[id := r],
       nodeWork := w.nodeWork[r.node := WorkOf(w, r.node) + {id}],
       cancelTokens := if cancel.Some? then w.cancelTokens[id := cancel.value] else w.cancelTokens)
  }

  function Arrive(a: Arrivals, id: Identity): Arrivals {
    Arrivals(a.places[id := a.next], a.next + 1)
  }

  function AdvanceCursor(f: Fairness, fp: Fingerprint, n: NodeId, victim: Option<Fingerprint>): Fairness {
    var cursors := if victim.Some? then f.cursors - {victim.value} else f.cursors;
    Fairness(cursors[fp := Cursor(n, f.activity + 1)], f.activity + 1)
  }

  function EnqueueWork(w: Work, id: Identity, cancelToken: Digest, envelope: Envelope, now: Time): Work
    requires id in w.reservations
  {
    var r := w.reservations[id];
    var q := QueuedRequest(id, r.node, r.fingerprint, r.deadline, envelope, now, w.nextSequence + 1);
    w.(nextSequence := w.nextSequence + 1,
       queued := w.queued[id := q],
       queuedTokens := w.queuedTokens[id := r.token],
       cancelTokens := w.cancelTokens[id := cancelToken],
       nodeQueues := w.nodeQueues[r.node := QueueOf(w, r.node) + [q]],
       reservations := w.reservations - {id})
  }

  function ClaimOn(c: Config, q: QueuedRequest, owner: Digest, consumer: Digest, generation: nat, now: Time): Claim {
    Claim(consumer, q.node, owner, q.deadline, q.envelope, q.sequence, generation,
          Min(now + c.claimTtl, q.deadline))
  }

  /** The claim on `id` may be exercised: it is live and its owner is still registered. */
  predicate LiveOwnedClaim(s: State, id: Identity, generation: nat, now: Time) {
    && id in s.leases.claims
    && var k := s.leases.claims[id];
    && k.generation == generation
    && k.lease > now
    && k.deadline > now
    && k.node in s.fleet.nodes
    && k.credential == s.fleet.nodes[k.node].credential
  }

  function ResponseTo(c: Config, k: Claim, envelope: Envelope, now: Time): Response {
    Response(k.node, k.consumer, k.generation, envelope, now, now + c.replayTtl)
  }

  function CompletedBy(c: Config, w: Work, id: Identity, k: Claim, envelope: Envelope, now: Time): Terminal
    requires id in w.queuedTokens && id in w.cancelTokens
  {
    Terminal(k.node, Some(k.credential), Some(k.consumer), k.generation, Some(envelope),
             now, now + c.replayTtl, now + c.terminalRetention, Completed, ResponseReady,
             Some(w.queuedTokens[id]), Some(AckToken(id, now, envelope)),
             ResponseCompleted, Some(w.cancelTokens[id]))
  }

  // ----- Events -----

  datatype Event =
    | Reap(now: Time)
    | Expire(id: Identity, now: Time)
    | Defer(id: Identity, now: Time)
    | DropReservation(id: Identity, now: Time)
    | StartTransition(node: NodeId, cause: Cause, now: Time)
    | Teardown(id: Identity, node: NodeId, now: Time)
    | CompleteTransition(node: NodeId, now: Time)
    | Register(node: NodeId, capabilities: Capabilities, credential: Digest, now: Time)
    | Renew(node: NodeId, capabilities: Capabilities, now: Time)
    | SetScheduler(node: NodeId, state: SchedulerState, now: Time)
    | Reserve(id: Identity, reservation: Reservation, cancel: Option<Digest>,
              victim: Option<Fingerprint>, now: Time)
    | Enqueue(id: Identity, cancelToken: Digest, envelope: Envelope, now: Time)
    | TakeClaim(id: Identity, consumer: Digest, now: Time)
    | RenewClaim(id: Identity, generation: nat, now: Time)
    | AckControl(id: Identity, now: Time)
    | Accept(id: Identity, generation: nat, envelope: Envelope, now: Time)
    | Cancel(id: Identity, now: Time)
    | AckResponse(id: Identity, now: Time)

  /** The guard under which the store makes the change. */
  ghost predicate Enabled(c: Config, s: State, e: Event) {
    var w, f, k, claims := s.work, s.fleet, s.kept, s.leases.claims;
    match e
    case Reap(_) => true
    case Expire(id, now) =>
      Held(w, id) && DeadlineOf(w, id) <= now && CanTerminalize(c, s, id, Expired, false, now)
    case Defer(id, now) =>
      Held(w, id) && DeadlineOf(w, id) <= now && !CanTerminalize(c, s, id, Expired, false, now)
    case DropReservation(id, now) =>
      id in w.reservations && w.reservations[id].expiry <= now && id !in s.deferred
    case StartTransition(n, cause, now) =>
      n in f.nodes && TransitionRoom(c, f, n) && (cause == LeaseExpired ==> f.nodes[n].leaseExpiry <= now)
    case Teardown(id, n, now) =>
      n in f.pending && Held(w, id) && NodeOf(w, id) == n && CanTerminalize(c, s, id, Cancelled, true, now)
    case CompleteTransition(n, _) =>
      n in f.pending && WorkOf(w, n) == {} && FenceKey(n, f.pending[n].credential) in f.fences
    case Register(n, _, owner, _) =>
      n !in f.pending && n !in f.nodes && |f.nodes| < c.maxNodes && FenceKey(n, owner) !in f.fences
    case Renew(n, _, _) => n in f.nodes
    case SetScheduler(n, _, _) => n in f.nodes
    case Reserve(id, r, _, victim, now) =>
      && now < r.deadline <= now + c.maxRequestTtl
      && r.expiry == Min(now + c.reservationTtl, r.deadline)
      && id !in k.terminals && !Held(w, id)
      && LifecycleRoom(c, w, id.client)
      && Selected(c, s, r.fingerprint, r.node)
      && Evicts(c, s, r.fingerprint, victim)
    case Enqueue(id, cancelToken, _, now) =>
      && id in w.reservations
      && var r := w.reservations[id];
      && now < r.deadline <= now + c.maxRequestTtl
      && r.node in f.nodes && f.nodes[r.node].leaseExpiry > now
      && (id in w.cancelTokens ==> w.cancelTokens[id] == cancelToken)
      && QueueRoom(c, w, id.client)
    case TakeClaim(id, _, now) =>
      && id in w.queued && w.queued[id].node in f.nodes
      && w.queued[id].deadline > now
      && !(id in claims && claims[id].lease > now)
      && ClaimRoom(c, claims, w.queued[id].node, now)
    case RenewClaim(id, generation, now) => LiveOwnedClaim(s, id, generation, now)
    case AckControl(id, _) => id in k.controls
    case Accept(id, generation, _, now) =>
      && LiveOwnedClaim(s, id, generation, now)
      && id !in k.terminals
      && id in w.queued && id in w.queuedTokens && id in w.cancelTokens
      && ResponseRoom(c, k, id.client)
    case Cancel(id, now) => Held(w, id) && CanTerminalize(c, s, id, Cancelled, false, now)
    case AckResponse(id, _) =>
      id in k.responses && id in k.terminals && k.terminals[id].retrieval == ResponseReady
  }

  ghost function Apply(c: Config, s: State, e: Event): State
    requires Enabled(c, s, e)
  {
    var w, f, k, claims := s.work, s.fleet, s.kept, s.leases.claims;
    match e
    case Reap(now) => s.(kept := ReapKept(k, now), fleet := ReapFleet(f, now))
    case Expire(id, now) => Terminalize(c, s, id, Expired, DeadlineExpired, false, now)
    case Defer(id, _) => s.(deferred := s.deferred + {id})
    case DropReservation(id, _) => s.(work := RemoveWork(w, id))
    case StartTransition(n, cause, now) =>
      s.(fleet := StartFleet(c, f, n, cause, WorkOf(w, n) == {}, now),
         fairness := s.fairness.(cursors := CursorsWithout(s.fairness.cursors, n)))
    case Teardown(id, _, now) => Terminalize(c, s, id, Cancelled, ServerUnregistered, true, now)
    case CompleteTransition(n, now) => s.(fleet := CompleteFleet(c, f, n, now))
    case Register(n, caps, owner, now) => s.(fleet := RegisterFleet(c, f, n, caps, owner, now))
    case Renew(n, caps, now) =>
      s.(fleet := f.(nodes := f.nodes[n := f.nodes[n].(capabilities := caps, leaseExpiry := now + c.leaseTtl)]))
    case SetScheduler(n, state, _) => s.(fleet := f.(scheduler := f.scheduler[n := state]))
    case Reserve(id, r, cancel, victim, now) =>
      s.(work := ReserveWork(w, id, r, cancel),
         fairness := AdvanceCursor(s.fairness, r.fingerprint, r.node, victim),
         arrivals := Arrive(s.arrivals, id))
    case Enqueue(id, cancelToken, envelope, now) =>
      s.(work := EnqueueWork(w, id, cancelToken, envelope, now))
    case TakeClaim(id, consumer, now) =>
      var q := w.queued[id];
      s.(leases := Leases(claims[id := ClaimOn(c, q, f.nodes[q.node].credential, consumer,
                                         s.leases.nextGeneration + 1, now)],
                          s.leases.nextGeneration + 1))
    case RenewClaim(id, _, now) =>
      s.(leases := s.leases.(claims := claims[id := claims[id].(lease := Min(now + c.claimTtl, claims[id].deadline))]))
    case AckControl(id, _) =>
      s.(kept := k.(controls := k.controls[id := k.controls[id].(acknowledged := true)]))
    case Accept(id, _, envelope, now) =>
      s.(work := RemoveWork(w, id),
         leases := s.leases.(claims := claims - {id}),
         kept := k.(responses := k.responses[id := ResponseTo(c, claims[id], envelope, now)],
                    terminals := k.terminals[id := CompletedBy(c, w, id, claims[id], envelope, now)]))
    case Cancel(id, now) => Terminalize(c, s, id, Cancelled, RequesterCancelled, false, now)
    case AckResponse(id, _) =>
      s.(kept := k.(responses := k.responses - {id},
                    terminals := k.terminals[id := k.terminals[id].(retrieval := Acknowledged)]))
  }
}
