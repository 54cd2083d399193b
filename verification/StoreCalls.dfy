/**
  What each public call answers once housekeeping is done, and which single event, if any, it
  performs.  A call that raises or refuses performs none.
*/
module StoreCalls {
  import opened RelayTypes
  import opened StoreState
  import opened StoreInvariant
  import opened StoreRuns

  datatype Decision<+T> = Decision(outcome: Outcome<T>, events: seq<Event>)

  function Refuse<T>(error: Error): Decision<T> {
    Decision(Raised(error), [])
  }

  function Answer<T>(value: T): Decision<T> {
    Decision(Ok(value), [])
  }

  // ----- Housekeeping -----

  predicate Housekeeping(e: Event, now: Time) {
    && e.now == now
    && (|| e.Reap? || e.Expire? || e.Defer? || e.DropReservation? || e.Teardown? || e.CompleteTransition?
        || (e.StartTransition? && e.cause == LeaseExpired))
  }

  /** Nothing kept has outlived its retention. */
  ghost predicate Reaped(s: State, now: Time) {
    && (forall id | id in s.kept.responses :: now < s.kept.responses[id].replayExpiry)
    && (forall id | id in s.kept.terminals :: now < s.kept.terminals[id].expiry)
    && (forall id | id in s.kept.controls :: now < s.kept.controls[id].expiry)
    && (forall n | n in s.fleet.nodeTombstones :: now < s.fleet.nodeTombstones[n].expiry)
    && (forall k | k in s.fleet.fences :: now < s.fleet.fences[k].expiry || FenceReserved(s.fleet.pending, k))
  }

  ghost predicate LeasesLive(s: State, now: Time) {
    forall n | n in s.fleet.nodes :: now < s.fleet.nodes[n].leaseExpiry
  }

  /**
    Past-deadline work and lapsed reservations are gone, except deferred work; overdue work is
    deferred only because there is no room for the records of its expiry.
  */
  ghost predicate DeadlinesKept(c: Config, s: State, now: Time) {
    && (forall id | Held(s.work, id) && DeadlineOf(s.work, id) <= now ::
          id in s.deferred && !CanTerminalize(c, s, id, Expired, false, now))
    && (forall id | id in s.work.reservations && s.work.reservations[id].expiry <= now :: id in s.deferred)
  }

  ghost predicate Settled(c: Config, s: State, now: Time) {
    Reaped(s, now) && LeasesLive(s, now) && DeadlinesKept(c, s, now)
  }

  /** The only way housekeeping fails: a lapsed node cannot be torn down for lack of room. */
  ghost predicate Stuck(c: Config, s: State, now: Time) {
    exists n :: n in s.fleet.nodes && s.fleet.nodes[n].leaseExpiry <= now && !TransitionRoom(c, s.fleet, n)
  }

  // ----- Nodes -----

  function RegisterCall(c: Config, s: State, n: NodeId, caps: Capabilities, owner: Digest, now: Time)
    : (d: Decision<Registration>)
    ensures d.events != [] <==> d.outcome.Ok?
    ensures forall e | e in d.events :: e.now == now
  {
    var f := s.fleet;
    if n in f.pending then Refuse(Conflict)
    else if n in f.nodes then
      if f.nodes[n].credential != owner then Refuse(CredentialMismatch)
      else Decision(Ok(f.nodes[n].(capabilities := caps, leaseExpiry := now + c.leaseTtl)), [Renew(n, caps, now)])
    else if |f.nodes| >= c.maxNodes then Refuse(CapacityExceeded)
    else if FenceKey(n, owner) in f.fences then Refuse(CredentialMismatch)
    else Decision(Ok(Registration(caps, owner, now, now + c.leaseTtl)), [Register(n, caps, owner, now)])
  }

  /**
    A registration is new exactly when the node is neither registered nor being torn down, there is
    room, and this owner is not fenced off; a registered node is only ever renewed by its owner.
  */
  lemma RegisteredIff(c: Config, s: State, n: NodeId, caps: Capabilities, owner: Digest, now: Time)
    requires FleetInv(s.fleet)
    ensures var d, f := RegisterCall(c, s, n, caps, owner, now), s.fleet;
            && (d.outcome.Ok? <==>
                  if n in f.nodes then f.nodes[n].credential == owner
                  else n !in f.pending && |f.nodes| < c.maxNodes && FenceKey(n, owner) !in f.fences)
            && (d.outcome.Ok? ==>
                  && |d.events| == 1 && Enabled(c, s, d.events[0])
                  && var t := Apply(c, s, d.events[0]).fleet;
                  && n in t.nodes && t.nodes[n] == d.outcome.value
                  && t.nodes[n].credential == owner && t.nodes[n].leaseExpiry == now + c.leaseTtl
                  && FenceKey(n, owner) !in t.fences)
  {
  }

  function RenewCall(c: Config, s: State, n: NodeId, owner: Digest, caps: Option<Capabilities>, now: Time)
    : (d: Decision<Option<Registration>>)
    ensures d.events != [] <==> d.outcome.Ok? && d.outcome.value.Some?
    ensures forall e | e in d.events :: e.now == now
  {
    var f := s.fleet;
    if n !in f.nodes then Answer(None)
    else if f.nodes[n].credential != owner then Refuse(CredentialMismatch)
    else
      var merged := if caps.Some? then caps.value else f.nodes[n].capabilities;
      Decision(Ok(Some(f.nodes[n].(capabilities := merged, leaseExpiry := now + c.leaseTtl))),
               [Renew(n, merged, now)])
  }

  function SetSchedulerCall(s: State, n: NodeId, owner: Digest, state: SchedulerState, now: Time)
    : (d: Decision<bool>)
    ensures d.events != [] <==> d.outcome == Ok(true)
    ensures forall e | e in d.events :: e.now == now
  {
    if n !in s.fleet.nodes then Answer(false)
    else if s.fleet.nodes[n].credential != owner then Refuse(CredentialMismatch)
    else Decision(Ok(true), [SetScheduler(n, state, now)])
  }

  // ----- Selecting and enqueueing -----

  datatype Stage = StageReserved | StageQueued | StageClaimed

  datatype Selection = Selection(
    node: NodeId,
    fingerprint: Fingerprint,
    deadline: Time,
    expiry: Option<Time>,
    token: Option<Digest>,
    created: bool,
    stage: Stage)

  function StageOf(s: State, id: Identity, now: Time): Stage {
    if id in s.leases.claims && s.leases.claims[id].lease > now then StageClaimed else StageQueued
  }

  /** The part of `select_and_reserve` that comes before scheduling; `None` means: schedule. */
  function SelectKnown(c: Config, s: State, id: Identity, fp: Fingerprint, deadline: Time,
                       cancel: Option<Digest>, now: Time): Option<Outcome<Selection>>
  {
    var w := s.work;
    if deadline <= now then Some(Raised(InvalidReservation))
    else if deadline > now + c.maxRequestTtl then Some(Raised(InvalidArgument))
    else if id in s.kept.terminals then Some(Raised(Conflict))
    else if id in w.queued then
      var q := w.queued[id];
      if q.fingerprint != fp || q.deadline != deadline then Some(Raised(Conflict))
      else if id in w.cancelTokens && cancel.Some? && w.cancelTokens[id] != cancel.value then Some(Raised(Conflict))
      else Some(Ok(Selection(q.node, fp, deadline, None, None, false, StageOf(s, id, now))))
    else if id in w.reservations then
      var r := w.reservations[id];
      if r.fingerprint != fp || r.deadline != deadline then Some(Raised(Conflict))
      else if id in w.cancelTokens && (cancel.None? || w.cancelTokens[id] != cancel.value) then Some(Raised(Conflict))
      else Some(Ok(Selection(r.node, fp, deadline, Some(r.expiry), None, false, StageReserved)))
    else if !LifecycleRoom(c, w, id.client) then Some(Raised(NoCapacity))
    else None
  }

  ghost predicate CursorsFull(c: Config, s: State, fp: Fingerprint) {
    && fp !in s.fairness.cursors
    && |s.fairness.cursors| >= c.maxFingerprints
    && forall f | f in s.fairness.cursors :: ActiveFingerprint(s.work, f)
  }

  /** Scheduling either reserves on the selected node or finds no node or no room for a cursor. */
  ghost predicate SelectCall(c: Config, s: State, id: Identity, fp: Fingerprint, deadline: Time,
                             cancel: Option<Digest>, token: Digest, now: Time, d: Decision<Selection>)
  {
    var known := SelectKnown(c, s, id, fp, deadline, cancel, now);
    if known.Some? then
      d == Decision(known.value, [])
    else if d.outcome.Raised? then
      && d == Refuse(NoCapacity)
      && ((forall n | n in s.fleet.nodes :: !Eligible(c, s, fp, n)) || CursorsFull(c, s, fp))
    else
      && |d.events| == 1 && d.events[0].Reserve?
      && var e := d.events[0];
      && var r := e.reservation;
      && e == Reserve(id, Reservation(fp, r.node, deadline, Min(now + c.reservationTtl, deadline), token),
                      cancel, e.victim, now)
      && Selected(c, s, fp, r.node) && Evicts(c, s, fp, e.victim)
      && d.outcome == Ok(Selection(r.node, fp, deadline, Some(r.expiry), Some(token), true, StageReserved))
  }

  lemma SelectEnabled(c: Config, s: State, id: Identity, fp: Fingerprint, deadline: Time,
                      cancel: Option<Digest>, token: Digest, now: Time, d: Decision<Selection>)
    requires SelectCall(c, s, id, fp, deadline, cancel, token, now, d)
    ensures forall e | e in d.events :: Enabled(c, s, e) && e.now == now
    ensures d.events != [] <==> d.outcome.Ok? && d.outcome.value.created
  {
  }

  datatype EnqueueResult = EnqueueResult(
    stage: Stage,
    node: NodeId,
    deadline: Time,
    sequence: nat,
    created: bool)

  function EnqueueCall(c: Config, s: State, id: Identity, token: Digest, node: NodeId, fp: Fingerprint,
                       deadline: Time, envelope: Envelope, cancel: Digest, now: Time)
    : (d: Decision<EnqueueResult>)
    ensures d.events != [] <==> d.outcome.Ok? && d.outcome.value.created
    ensures forall e | e in d.events :: e.now == now
  {
    var w, f := s.work, s.fleet;
    if deadline <= now then Refuse(InvalidReservation)
    else if id in s.kept.terminals then Refuse(Conflict)
    else if id in w.queued then
      var q := w.queued[id];
      if q.fingerprint != fp || q.deadline != deadline then Refuse(Conflict)
      else if q.node != node || q.envelope != envelope then Refuse(Conflict)
      else if !(id in w.queuedTokens && w.queuedTokens[id] == token) then Refuse(InvalidReservation)
      else if !(id in w.cancelTokens && w.cancelTokens[id] == cancel) then Refuse(Conflict)
      else Answer(EnqueueResult(StageOf(s, id, now), q.node, q.deadline, q.sequence, false))
    else if deadline > now + c.maxRequestTtl then Refuse(InvalidArgument)
    else if id !in w.reservations then Refuse(InvalidReservation)
    else
      var r := w.reservations[id];
      if r.node !in f.nodes || f.nodes[r.node].leaseExpiry <= now || r.node in f.pending then
        Refuse(InvalidReservation)
      else if r.fingerprint != fp || r.deadline != deadline then Refuse(Conflict)
      else if id in w.cancelTokens && w.cancelTokens[id] != cancel then Refuse(Conflict)
      else if r.node != node || r.token != token then Refuse(InvalidReservation)
      else if |QueueOf(w, node)| >= c.maxQueueDepthPerNode then Refuse(NoCapacity)
      else if !QueueRoom(c, w, id.client) then Refuse(NoCapacity)
      else Decision(Ok(EnqueueResult(StageQueued, node, deadline, w.nextSequence + 1, true)),
                    [Enqueue(id, cancel, envelope, now)])
  }

  /** A reservation keeps its place in the node's queue: the queue-depth refusal cannot happen. */
  lemma QueueDepthNeverRefuses(c: Config, w: Work, id: Identity)
    requires WorkBounds(c, w) && id in w.reservations
    ensures |QueueOf(w, w.reservations[id].node)| < c.maxQueueDepthPerNode
  {
    var n := w.reservations[id].node;
    SubsetSize({id}, ReservedOn(w.reservations, n));
  }

  /** The queue entry of `id` and both its token digests. */
  ghost predicate QueuedAs(w: Work, id: Identity, q: QueuedRequest, token: Digest, cancel: Digest) {
    && id in w.queued && w.queued[id] == q
    && id in w.queuedTokens && w.queuedTokens[id] == token
    && id in w.cancelTokens && w.cancelTokens[id] == cancel
  }

  lemma QueuedStep(c: Config, s: State, e: Event, id: Identity, q: QueuedRequest, token: Digest, cancel: Digest)
    requires WorkInv(s.work) && Enabled(c, s, e) && QueuedAs(s.work, id, q, token, cancel)
    requires !(Concludes(e) && e.id == id)
    ensures QueuedAs(Apply(c, s, e).work, id, q, token, cancel)
  {
    hide CanTerminalize, TransitionRoom, ResponseRoom, ClaimRoom, QueueRoom, LifecycleRoom, Selected, Evicts,
         TerminalFor, Conclude, ReapKept, ReapFleet, StartFleet, CompleteFleet, RegisterFleet,
         AdvanceCursor, CompletedBy, ResponseTo, LiveOwnedClaim;
  }

  lemma {:induction false} QueuedStays(c: Config, r: Run, i: nat, j: nat, id: Identity, q: QueuedRequest,
                                       token: Digest, cancel: Digest)
    requires IsRun(c, r) && i <= j < |r.states| && QueuedAs(r.states[i].work, id, q, token, cancel)
    requires forall m: nat | i <= m < j :: !(Concludes(r.log[m]) && r.log[m].id == id)
    ensures QueuedAs(r.states[j].work, id, q, token, cancel)
  {
    hide Enabled, Apply, QueuedAs, WorkInv, QueueInv, WorkBounds, ClaimInv, FleetInv, FleetBounds, HousedInv,
         OverInv, KeptInv, KeptBounds, CursorInv;
    if i < j {
      QueuedStays(c, r, i, j - 1, id, q, token, cancel);
      RunInv(c, r, j - 1);
      assert StepAt(c, r, j - 1);
      QueuedStep(c, r.states[j - 1], r.log[j - 1], id, q, token, cancel);
    }
  }

  /** A new enqueue turns the reservation into the last entry of its node's queue, and only that. */
  lemma EnqueueEnabled(c: Config, s: State, id: Identity, token: Digest, node: NodeId, fp: Fingerprint,
                       deadline: Time, envelope: Envelope, cancel: Digest, now: Time)
    ensures var d := EnqueueCall(c, s, id, token, node, fp, deadline, envelope, cancel, now);
            d.events != [] ==>
              var q := QueuedRequest(id, node, fp, deadline, envelope, now, s.work.nextSequence + 1);
              && d.events == [Enqueue(id, cancel, envelope, now)]
              && Enabled(c, s, d.events[0])
              && var t := Apply(c, s, d.events[0]);
              && QueuedAs(t.work, id, q, token, cancel)
              && t.work.reservations == s.work.reservations - {id}
              && QueueOf(t.work, node) == QueueOf(s.work, node) + [q]
              && (forall n | n != node :: QueueOf(t.work, n) == QueueOf(s.work, n))
              && (forall i | i != id && i in s.work.queued :: i in t.work.queued && t.work.queued[i] == s.work.queued[i])
              && t == s.(work := t.work)
              && d.outcome == Ok(EnqueueResult(StageQueued, node, deadline, q.sequence, true))
  {
    hide QueueRoom;
  }

  lemma QueuedAnswer(c: Config, s: State, id: Identity, q: QueuedRequest, token: Digest, cancel: Digest, now: Time)
    requires OverInv(s.work, s.kept) && QueuedAs(s.work, id, q, token, cancel) && now < q.deadline
    ensures EnqueueCall(c, s, id, token, q.node, q.fingerprint, q.deadline, q.envelope, cancel, now)
              == Answer(EnqueueResult(StageOf(s, id, now), q.node, q.deadline, q.sequence, false))
  {
    hide QueueRoom, StageOf;
    assert Held(s.work, id);
  }

  /**
    An exact retry of an enqueue reports the original place in the queue and changes nothing, at
    any later moment of the run at which the request has not been concluded.
  */
  lemma EnqueueRetry(c: Config, r: Run, i: nat, j: nat, id: Identity, token: Digest, node: NodeId,
                     fp: Fingerprint, deadline: Time, envelope: Envelope, cancel: Digest, now: Time, later: Time)
    requires IsRun(c, r) && i < |r.log| && i < j < |r.states|
    requires EnqueueCall(c, r.states[i], id, token, node, fp, deadline, envelope, cancel, now).events == [r.log[i]]
    requires forall m: nat | i < m < j :: !(Concludes(r.log[m]) && r.log[m].id == id)
    requires later < deadline
    ensures var first := EnqueueCall(c, r.states[i], id, token, node, fp, deadline, envelope, cancel, now);
            first.outcome.Ok? &&
            EnqueueCall(c, r.states[j], id, token, node, fp, deadline, envelope, cancel, later)
              == Answer(first.outcome.value.(created := false, stage := StageOf(r.states[j], id, later)))
  {
    hide EnqueueCall, StageOf, Enabled, Apply, QueuedAs, Consistent, Bounded;
    var q := QueuedRequest(id, node, fp, deadline, envelope, now, r.states[i].work.nextSequence + 1);
    assert StepAt(c, r, i);
    EnqueueEnabled(c, r.states[i], id, token, node, fp, deadline, envelope, cancel, now);
    QueuedStays(c, r, i + 1, j, id, q, token, cancel);
    RunInv(c, r, j);
    InvSaysOver(c, r.states[j]);
    QueuedAnswer(c, r.states[j], id, q, token, cancel, later);
  }

  /** `id` is live on this node with these parameters, under the cancel token given on selection. */
  ghost predicate PlacedAs(w: Work, id: Identity, node: NodeId, fp: Fingerprint, deadline: Time, cancel: Option<Digest>) {
    && (id in w.reservations ==>
          && w.reservations[id].node == node && w.reservations[id].fingerprint == fp
          && w.reservations[id].deadline == deadline
          && (if id in w.cancelTokens then cancel == Some(w.cancelTokens[id]) else cancel == None))
    && (id in w.queued ==>
          && w.queued[id].node == node && w.queued[id].fingerprint == fp && w.queued[id].deadline == deadline
          && (cancel.Some? ==> id in w.cancelTokens && cancel == Some(w.cancelTokens[id])))
  }

  predicate Leaves(e: Event, id: Identity) {
    (Concludes(e) || e.DropReservation?) && e.id == id
  }

  lemma PlacedStep(c: Config, s: State, e: Event, id: Identity, node: NodeId, fp: Fingerprint, deadline: Time,
                   cancel: Option<Digest>)
    requires WorkInv(s.work) && Enabled(c, s, e) && Held(s.work, id)
    requires PlacedAs(s.work, id, node, fp, deadline, cancel)
    requires !Leaves(e, id)
    ensures Held(Apply(c, s, e).work, id) && PlacedAs(Apply(c, s, e).work, id, node, fp, deadline, cancel)
  {
    hide CanTerminalize, TransitionRoom, ResponseRoom, ClaimRoom, QueueRoom, LifecycleRoom, Selected, Evicts,
         TerminalFor, Conclude, ReapKept, ReapFleet, StartFleet, CompleteFleet, RegisterFleet,
         AdvanceCursor, CompletedBy, ResponseTo, LiveOwnedClaim;
  }

  lemma {:induction false} PlacedStays(c: Config, r: Run, i: nat, j: nat, id: Identity, node: NodeId, fp: Fingerprint,
                                       deadline: Time, cancel: Option<Digest>)
    requires IsRun(c, r) && i <= j < |r.states| && Held(r.states[i].work, id)
    requires PlacedAs(r.states[i].work, id, node, fp, deadline, cancel)
    requires forall m: nat | i <= m < j :: !Leaves(r.log[m], id)
    ensures Held(r.states[j].work, id) && PlacedAs(r.states[j].work, id, node, fp, deadline, cancel)
  {
    hide Enabled, Apply, PlacedAs, Held, Leaves, WorkInv, QueueInv, WorkBounds, ClaimInv, FleetInv, FleetBounds, HousedInv,
         OverInv, KeptInv, KeptBounds, CursorInv;
    if i < j {
      PlacedStays(c, r, i, j - 1, id, node, fp, deadline, cancel);
      RunInv(c, r, j - 1);
      assert StepAt(c, r, j - 1);
      PlacedStep(c, r.states[j - 1], r.log[j - 1], id, node, fp, deadline, cancel);
    }
  }

  lemma ReservedPlaced(c: Config, s: State, e: Event)
    requires Consistent(s) && Enabled(c, s, e) && e.Reserve?
    ensures var r, w := e.reservation, Apply(c, s, e).work;
            Held(w, e.id) && PlacedAs(w, e.id, r.node, r.fingerprint, r.deadline, e.cancel)
  {
    hide QueueInv, WorkBounds, ClaimInv, FleetInv, FleetBounds, HousedInv, OverInv, KeptInv, KeptBounds, CursorInv,
         LifecycleRoom, Selected, Evicts, AdvanceCursor;
  }

  lemma PlacedAnswer(c: Config, s: State, id: Identity, node: NodeId, fp: Fingerprint, deadline: Time,
                     cancel: Option<Digest>, now: Time)
    requires OverInv(s.work, s.kept) && Held(s.work, id) && PlacedAs(s.work, id, node, fp, deadline, cancel)
    requires now < deadline <= now + c.maxRequestTtl
    ensures var known := SelectKnown(c, s, id, fp, deadline, cancel, now);
            && known.Some? && known.value.Ok?
            && known.value.value.node == node && !known.value.value.created && known.value.value.token == None
  {
    hide LifecycleRoom, StageOf;
  }

  /**
    An exact retry of a selection names the node chosen the first time, reveals no second token and
    changes nothing, for as long as the request is reserved, queued or claimed.
  */
  lemma SelectRetry(c: Config, r: Run, i: nat, j: nat, token: Digest, later: Time)
    requires IsRun(c, r) && i < |r.log| && i < j < |r.states| && r.log[i].Reserve?
    requires forall m: nat | i < m < j :: !Leaves(r.log[m], r.log[i].id)
    requires later < r.log[i].reservation.deadline <= later + c.maxRequestTtl
    ensures var e := r.log[i];
            var known := SelectKnown(c, r.states[j], e.id, e.reservation.fingerprint, e.reservation.deadline, e.cancel, later);
            && known.Some? && known.value.Ok?
            && known.value.value.node == e.reservation.node
            && !known.value.value.created && known.value.value.token == None
            && SelectCall(c, r.states[j], e.id, e.reservation.fingerprint, e.reservation.deadline, e.cancel, token, later,
                          Decision(known.value, []))
  {
    hide SelectKnown, Enabled, Apply, PlacedAs, Held, Leaves, Consistent, Bounded;
    var e := r.log[i];
    var p := e.reservation;
    assert StepAt(c, r, i);
    RunInv(c, r, i);
    ReservedPlaced(c, r.states[i], e);
    PlacedStays(c, r, i + 1, j, e.id, p.node, p.fingerprint, p.deadline, e.cancel);
    RunInv(c, r, j);
    InvSaysOver(c, r.states[j]);
    PlacedAnswer(c, r.states[j], e.id, p.node, p.fingerprint, p.deadline, e.cancel, later);
  }

  lemma InvSaysOver(c: Config, s: State)
    requires Consistent(s)
    ensures OverInv(s.work, s.kept)
  {
  }

  // ----- Claims -----

  predicate Claimable(q: QueuedRequest, claims: map<Identity, Claim>, now: Time) {
    q.deadline > now && !(q.id in claims && claims[q.id].lease > now)
  }

  function FirstClaimable(queue: seq<QueuedRequest>, claims: map<Identity, Claim>, now: Time)
    : Option<QueuedRequest>
  {
    if queue == [] then None
    else if Claimable(queue[0], claims, now) then Some(queue[0])
    else FirstClaimable(queue[1..], claims, now)
  }

  lemma {:induction false} FirstClaimableIsEarliest(queue: seq<QueuedRequest>, claims: map<Identity, Claim>, now: Time)
    requires Sorted(queue)
    ensures var first := FirstClaimable(queue, claims, now);
            if first.None? then forall q | q in queue :: !Claimable(q, claims, now)
            else
              && first.value in queue && Claimable(first.value, claims, now)
              && forall q | q in queue && Claimable(q, claims, now) :: first.value.sequence <= q.sequence
  {
    if queue != [] {
      SortedTail(queue);
      FirstClaimableIsEarliest(queue[1..], claims, now);
      assert forall q :: q in queue <==> q == queue[0] || q in queue[1..];
    }
  }

  datatype ClaimResult =
    | Empty
    | Granted(reclaimed: bool, generation: nat, lease: Time, deadline: Time, id: Identity, envelope: Envelope)

  function ClaimCall(c: Config, s: State, n: NodeId, owner: Digest, consumer: Digest, now: Time)
    : (d: Decision<ClaimResult>)
    ensures d.events != [] <==> d.outcome.Ok? && d.outcome.value.Granted?
    ensures forall e | e in d.events :: e.now == now
  {
    var claims := s.leases.claims;
    if n !in s.fleet.nodes || s.fleet.nodes[n].credential != owner then Refuse(CredentialMismatch)
    else
      var first := FirstClaimable(QueueOf(s.work, n), claims, now);
      if first.None? then Answer(Empty)
      else if !ClaimRoom(c, claims, n, now) then Refuse(CapacityExceeded)
      else
        var q := first.value;
        Decision(Ok(Granted(q.id in claims, s.leases.nextGeneration + 1, Min(now + c.claimTtl, q.deadline),
                            q.deadline, q.id, q.envelope)),
                 [TakeClaim(q.id, consumer, now)])
  }

  /** The requests a node may be granted. */
  ghost function ClaimableOn(s: State, n: NodeId, now: Time): set<Identity> {
    set id | id in s.work.queued && s.work.queued[id].node == n
             && Claimable(s.work.queued[id], s.leases.claims, now)
  }

  lemma FirstIsEarliestOn(s: State, n: NodeId, now: Time)
    requires WorkInv(s.work) && QueueInv(s.work)
    ensures var first := FirstClaimable(QueueOf(s.work, n), s.leases.claims, now);
            if first.None? then ClaimableOn(s, n, now) == {}
            else
              && first.value.id in ClaimableOn(s, n, now)
              && s.work.queued[first.value.id] == first.value
              && forall i | i in ClaimableOn(s, n, now) :: first.value.sequence <= s.work.queued[i].sequence
  {
    FirstClaimableIsEarliest(QueueOf(s.work, n), s.leases.claims, now);
    QueueMembers(s.work, n);
  }

  /**
    Claims are first come, first served: the granted request is the earliest of the node's queue
    that is before its deadline and under no live lease; `Empty` means there is none.
  */
  lemma ClaimsAreFifo(c: Config, s: State, n: NodeId, owner: Digest, consumer: Digest, now: Time)
    requires Consistent(s) && n in s.fleet.nodes && s.fleet.nodes[n].credential == owner
    ensures var d := ClaimCall(c, s, n, owner, consumer, now);
            match d.outcome
            case Ok(Empty) => ClaimableOn(s, n, now) == {}
            case Ok(Granted(_, generation, lease, deadline, id, _)) =>
              && id in ClaimableOn(s, n, now)
              && (forall i | i in ClaimableOn(s, n, now) :: s.work.queued[id].sequence <= s.work.queued[i].sequence)
              && generation > s.leases.nextGeneration
              && now < deadline && lease <= deadline
              && d.events == [TakeClaim(id, consumer, now)] && Enabled(c, s, d.events[0])
            case Raised(_) => ClaimableOn(s, n, now) != {} && !ClaimRoom(c, s.leases.claims, n, now)
  {
    hide WorkInv, QueueInv, WorkBounds, ClaimInv, FleetInv, FleetBounds, HousedInv, OverInv, KeptInv, KeptBounds,
         CursorInv, ClaimRoom;
    FirstIsEarliestOn(s, n, now);
  }

  lemma QueueMembers(w: Work, n: NodeId)
    requires WorkInv(w) && QueueInv(w)
    ensures forall id | id in w.queued && w.queued[id].node == n :: w.queued[id] in QueueOf(w, n)
    ensures forall q | q in QueueOf(w, n) :: q.id in w.queued && w.queued[q.id] == q && q.node == n
  {
  }

  datatype RenewalResult =
    | OwnerMismatch
    | MissingOrExpired
    | StaleGeneration(current: nat)
    | Continued(generation: nat, lease: Time)
    | Stop(acknowledged: bool, generation: nat, verdict: Verdict, reason: Reason)

  function RenewClaimCall(c: Config, s: State, n: NodeId, owner: Digest, consumer: Digest, id: Identity,
                          generation: nat, acknowledge: bool, now: Time)
    : (d: Decision<RenewalResult>)
    ensures d.outcome.Ok?
    ensures d.events != [] <==>
              || d.outcome.value.Continued?
              || (d.outcome.value.Stop? && acknowledge && id in s.kept.controls && !s.kept.controls[id].acknowledged)
    ensures forall e | e in d.events :: e.now == now
  {
    if id in s.kept.controls then
      var t := s.kept.controls[id];
      if !(t.node == n && t.generation == generation && t.credential == owner && t.consumer == consumer) then
        Answer(OwnerMismatch)
      else
        Decision(Ok(Stop(t.acknowledged || acknowledge, generation, t.verdict, t.reason)),
                 if acknowledge && !t.acknowledged then [AckControl(id, now)] else [])
    else if n !in s.fleet.nodes || s.fleet.nodes[n].credential != owner then Answer(OwnerMismatch)
    else if id !in s.leases.claims then Answer(MissingOrExpired)
    else
      var k := s.leases.claims[id];
      if k.deadline <= now then Answer(MissingOrExpired)
      else if k.generation != generation then Answer(StaleGeneration(k.generation))
      else if k.node != n || k.consumer != consumer then Answer(OwnerMismatch)
      else if k.lease <= now then Answer(MissingOrExpired)
      else Decision(Ok(Continued(generation, Min(now + c.claimTtl, k.deadline))), [RenewClaim(id, generation, now)])
  }

  /** A tombstone never masks live work: while one is readable its request is over and unclaimed. */
  lemma TombstonesNeverMaskWork(c: Config, s: State, id: Identity)
    requires Consistent(s) && id in s.kept.controls
    ensures id in s.kept.terminals && !Held(s.work, id) && id !in s.leases.claims
    ensures s.kept.terminals[id].verdict == s.kept.controls[id].verdict
    ensures s.kept.terminals[id].generation == s.kept.controls[id].generation
  {
  }

  lemma ContinuedCase(c: Config, s: State, n: NodeId, owner: Digest, consumer: Digest, id: Identity,
                      generation: nat, acknowledge: bool, now: Time)
    requires id in s.kept.controls ==> id !in s.leases.claims
    requires id in s.leases.claims && s.leases.claims[id].node in s.fleet.nodes ==>
               s.leases.claims[id].credential == s.fleet.nodes[s.leases.claims[id].node].credential
    ensures var d := RenewClaimCall(c, s, n, owner, consumer, id, generation, acknowledge, now);
            && d.outcome.Ok?
            && (d.outcome.value.Continued? <==>
                  && LiveOwnedClaim(s, id, generation, now)
                  && s.leases.claims[id].node == n && s.leases.claims[id].consumer == consumer
                  && s.leases.claims[id].credential == owner)
            && (d.events != [] ==> d.events == [AckControl(id, now)] || d.events == [RenewClaim(id, generation, now)])
            && (d.events == [AckControl(id, now)] ==> id in s.kept.controls)
            && (d.events == [RenewClaim(id, generation, now)] ==> LiveOwnedClaim(s, id, generation, now))
  {
  }

  /** A claim is continued exactly when its own consumer asks in time; the renewal is then enabled. */
  lemma ContinuedIff(c: Config, s: State, n: NodeId, owner: Digest, consumer: Digest, id: Identity,
                     generation: nat, acknowledge: bool, now: Time)
    requires Consistent(s)
    ensures var d := RenewClaimCall(c, s, n, owner, consumer, id, generation, acknowledge, now);
            && d.outcome.Ok?
            && (d.outcome.value.Continued? <==>
                  && LiveOwnedClaim(s, id, generation, now)
                  && s.leases.claims[id].node == n && s.leases.claims[id].consumer == consumer
                  && s.leases.claims[id].credential == owner)
            && (forall e | e in d.events :: Enabled(c, s, e))
  {
    hide WorkInv, QueueInv, WorkBounds, ClaimInv, FleetInv, FleetBounds, HousedInv, OverInv, KeptInv, KeptBounds,
         CursorInv, RenewClaimCall;
    if id in s.leases.claims && s.leases.claims[id].node in s.fleet.nodes {
      RegisteredOwner(s.leases, s.work, s.fleet, id);
    }
    if id in s.kept.controls {
      TombstonesNeverMaskWork(c, s, id);
    }
    ContinuedCase(c, s, n, owner, consumer, id, generation, acknowledge, now);
  }

  /**
    The stop instruction is read exactly by the owner it is for; it agrees with the terminal record,
    and once acknowledged it stays so for every later reading.
  */
  lemma StopIff(c: Config, s: State, n: NodeId, owner: Digest, consumer: Digest, id: Identity,
                generation: nat, acknowledge: bool, now: Time)
    requires Consistent(s)
    ensures var d := RenewClaimCall(c, s, n, owner, consumer, id, generation, acknowledge, now);
            var t := s.kept.terminals;
            && d.outcome.Ok?
            && (d.outcome.value.Stop? <==>
                  && id in s.kept.controls && id in t
                  && t[id].node == n && t[id].generation == generation
                  && t[id].credential == Some(owner) && t[id].consumer == Some(consumer))
            && (d.outcome.value.Stop? ==>
                  d.outcome.value == Stop(s.kept.controls[id].acknowledged || acknowledge, generation, t[id].verdict, t[id].reason))
            && (d.events == [AckControl(id, now)] <==>
                  d.outcome.value.Stop? && acknowledge && !s.kept.controls[id].acknowledged)
  {
    hide WorkInv, QueueInv, ClaimInv, FleetInv, HousedInv, OverInv, CursorInv;
  }

  lemma AcknowledgedForGood(c: Config, s: State, e: Event, id: Identity)
    requires Consistent(s) && Enabled(c, s, e) && id in s.kept.controls && s.kept.controls[id].acknowledged
    ensures id in Apply(c, s, e).kept.controls ==> Apply(c, s, e).kept.controls[id].acknowledged
  {
    hide QueueInv, FleetInv, HousedInv, CursorInv, CanTerminalize, TransitionRoom, ResponseRoom, ClaimRoom,
         QueueRoom, LifecycleRoom, Selected, Evicts, TerminalFor, RemoveWork, ReserveWork, EnqueueWork, CompletedBy,
         ResponseTo, StartFleet, CompleteFleet, RegisterFleet, ReapFleet, AdvanceCursor, LiveOwnedClaim;
    if Concludes(e) && Held(s.work, e.id) {
      TombstonesNeverMaskWork(c, s, id);
    }
  }

  lemma RegisteredOwner(l: Leases, w: Work, f: Fleet, id: Identity)
    requires ClaimInv(l, w, f) && FleetInv(f) && id in l.claims && l.claims[id].node in f.nodes
    ensures l.claims[id].credential == f.nodes[l.claims[id].node].credential
  {
  }

  // ----- Responses -----

  datatype Acceptance = Acceptance(generation: nat, acceptedAt: Time, replayExpiry: Time, newOutcome: bool)

  predicate AnswersRetry(t: Terminal, n: NodeId, owner: Digest, consumer: Digest, generation: nat,
                         envelope: Envelope)
  {
    && t.node == n && t.generation == generation
    && t.credential == Some(owner) && t.consumer == Some(consumer) && t.response == Some(envelope)
  }

  function AcceptCall(c: Config, s: State, n: NodeId, owner: Digest, consumer: Digest, id: Identity,
                      generation: nat, envelope: Envelope, now: Time)
    : (d: Decision<Acceptance>)
    ensures d.events != [] <==> d.outcome.Ok? && d.outcome.value.newOutcome
    ensures forall e | e in d.events :: e.now == now
  {
    if id in s.kept.terminals then
      var t := s.kept.terminals[id];
      if AnswersRetry(t, n, owner, consumer, generation, envelope) then
        Answer(Acceptance(t.generation, t.acceptedAt, t.replayExpiry, false))
      else Refuse(Conflict)
    else if n !in s.fleet.nodes || s.fleet.nodes[n].credential != owner then Refuse(CredentialMismatch)
    else if id !in s.leases.claims then Refuse(Conflict)
    else
      var k := s.leases.claims[id];
      if k.generation != generation then Refuse(Conflict)
      else if k.node != n || k.consumer != consumer then Refuse(CredentialMismatch)
      else if k.lease <= now || k.deadline <= now then Refuse(Conflict)
      else if !(id in s.work.queued && s.work.queued[id].node == n) then Refuse(Conflict)
      else if !ResponseRoom(c, s.kept, id.client) then Refuse(CapacityExceeded)
      else Decision(Ok(Acceptance(generation, now, now + c.replayTtl, true)), [Accept(id, generation, envelope, now)])
  }

  /** The identity conflict that the code checks for after the claim is unreachable. */
  lemma ClaimedIsQueuedOnItsNode(c: Config, s: State, id: Identity)
    requires Consistent(s) && id in s.leases.claims
    ensures id in s.work.queued && s.work.queued[id].node == s.leases.claims[id].node
    ensures id !in s.kept.terminals && id in s.work.queuedTokens && id in s.work.cancelTokens
    ensures s.leases.claims[id].lease <= s.leases.claims[id].deadline
  {
    hide QueueInv, WorkBounds, FleetInv, FleetBounds, HousedInv, KeptInv, KeptBounds, CursorInv;
    assert Held(s.work, id);
  }

  lemma AcceptCase(c: Config, s: State, n: NodeId, owner: Digest, consumer: Digest, id: Identity,
                   generation: nat, envelope: Envelope, now: Time)
    requires id in s.leases.claims ==>
               && id in s.work.queued && s.work.queued[id].node == s.leases.claims[id].node
               && id !in s.kept.terminals && id in s.work.queuedTokens && id in s.work.cancelTokens
               && s.leases.claims[id].lease <= s.leases.claims[id].deadline
    requires id in s.leases.claims && s.leases.claims[id].node in s.fleet.nodes ==>
               s.leases.claims[id].credential == s.fleet.nodes[s.leases.claims[id].node].credential
    ensures var d := AcceptCall(c, s, n, owner, consumer, id, generation, envelope, now);
            && (d.outcome.Ok? && d.outcome.value.newOutcome <==>
                  && id in s.leases.claims
                  && s.leases.claims[id].node == n && s.leases.claims[id].credential == owner
                  && s.leases.claims[id].consumer == consumer
                  && LiveOwnedClaim(s, id, generation, now)
                  && ResponseRoom(c, s.kept, id.client))
            && (d.outcome.Ok? && d.outcome.value.newOutcome ==> d.events == [Accept(id, generation, envelope, now)])
            && (d.outcome.Ok? && !d.outcome.value.newOutcome ==> id in s.kept.terminals)
            && (!(d.outcome.Ok? && d.outcome.value.newOutcome) ==> d.events == [])
  {
    hide ResponseRoom;
  }

  /**
    A response is accepted as a new outcome exactly when it comes from the consumer, node and owner
    of the live claim with this generation and there is room to keep it.
  */
  lemma NewOutcomeIff(c: Config, s: State, n: NodeId, owner: Digest, consumer: Digest, id: Identity,
                      generation: nat, envelope: Envelope, now: Time)
    requires Consistent(s)
    ensures var d := AcceptCall(c, s, n, owner, consumer, id, generation, envelope, now);
            && (d.outcome.Ok? && d.outcome.value.newOutcome <==>
                  && id in s.leases.claims
                  && s.leases.claims[id].node == n && s.leases.claims[id].credential == owner
                  && s.leases.claims[id].consumer == consumer
                  && LiveOwnedClaim(s, id, generation, now)
                  && ResponseRoom(c, s.kept, id.client))
            && (d.events != [] <==> d.outcome.Ok? && d.outcome.value.newOutcome)
            && (forall e | e in d.events :: Enabled(c, s, e))
  {
    hide WorkInv, QueueInv, WorkBounds, ClaimInv, FleetInv, FleetBounds, HousedInv, OverInv, KeptInv, KeptBounds,
         CursorInv, AcceptCall, ResponseRoom;
    if id in s.leases.claims {
      ClaimedIsQueuedOnItsNode(c, s, id);
      if s.leases.claims[id].node in s.fleet.nodes {
        RegisteredOwner(s.leases, s.work, s.fleet, id);
      }
    }
    AcceptCase(c, s, n, owner, consumer, id, generation, envelope, now);
  }

  lemma AcceptedRecord(c: Config, s: State, id: Identity, generation: nat, envelope: Envelope, now: Time)
    requires Enabled(c, s, Accept(id, generation, envelope, now))
    ensures var k, t := s.leases.claims[id], Apply(c, s, Accept(id, generation, envelope, now)).kept;
            && id in t.terminals
            && AnswersRetry(t.terminals[id], k.node, k.credential, k.consumer, generation, envelope)
            && t.terminals[id].acceptedAt == now && t.terminals[id].replayExpiry == now + c.replayTtl
            && t.terminals[id].expiry == now + c.terminalRetention
  {
    hide ResponseRoom;
  }

  /**
    An exact retry of an accepted response gets the original answer without a second outcome for
    as long as the record is retained, even after its node has been removed.
  */
  lemma AcceptRetry(c: Config, r: Run, i: nat, j: nat, n: NodeId, owner: Digest, consumer: Digest, id: Identity,
                    generation: nat, envelope: Envelope, now: Time, later: Time)
    requires IsRun(c, r) && i < |r.log| && i < j < |r.states|
    requires AcceptCall(c, r.states[i], n, owner, consumer, id, generation, envelope, now).events == [r.log[i]]
    requires NotReapedAt(r, i + 1, j, now + c.terminalRetention)
    ensures var first := AcceptCall(c, r.states[i], n, owner, consumer, id, generation, envelope, now);
            first.outcome.Ok? &&
            AcceptCall(c, r.states[j], n, owner, consumer, id, generation, envelope, later)
              == Answer(first.outcome.value.(newOutcome := false))
  {
    hide Enabled, Apply, Consistent, Bounded, ResponseRoom, LiveOwnedClaim;
    assert StepAt(c, r, i);
    RunInv(c, r, i);
    NewOutcomeIff(c, r.states[i], n, owner, consumer, id, generation, envelope, now);
    AcceptedRecord(c, r.states[i], id, generation, envelope, now);
    RecordStays(c, r, i + 1, j, id);
  }

  // ----- Retrieval -----

  datatype SuppliedAck = NoAck | Malformed | Ack(token: AckToken)

  datatype RetrievalResult =
    | InvalidCredential
    | InvalidAcknowledgement
    | Ready(envelope: Envelope, token: AckToken, replayExpiry: Time)
    | Closed(state: Retrieval)

  predicate Acknowledges(t: Terminal, supplied: SuppliedAck) {
    supplied.Ack? && t.acknowledgement == Some(supplied.token)
  }

  /** `credential` is the reservation token; `None` stands for a malformed one. */
  function RetrieveCall(s: State, id: Identity, credential: Option<Digest>, supplied: SuppliedAck,
                        now: Time)
    : (d: Decision<RetrievalResult>)
    ensures d.outcome.Ok?
    ensures d.events != [] <==>
              && d.outcome.value == Closed(Acknowledged) && id in s.kept.responses && id in s.kept.terminals
              && s.kept.terminals[id].retrieval == ResponseReady && Acknowledges(s.kept.terminals[id], supplied)
    ensures forall e | e in d.events :: e.now == now
  {
    if id !in s.kept.terminals then Answer(InvalidCredential)
    else
      var t := s.kept.terminals[id];
      if credential.None? || t.retrievalCredential != credential then Answer(InvalidCredential)
      else if t.retrieval != ResponseReady then
        if t.retrieval == Acknowledged && !supplied.NoAck? && !Acknowledges(t, supplied) then
          Answer(InvalidAcknowledgement)
        else Answer(Closed(t.retrieval))
      else if id !in s.kept.responses || t.response.None? then
        Answer(Closed(RetrievalExpired))  // dead: see ReadyHasResponse
      else if supplied.NoAck? then
        Answer(Ready(s.kept.responses[id].envelope, AckToken(id, t.acceptedAt, t.response.value),
                     s.kept.responses[id].replayExpiry))
      else if !Acknowledges(t, supplied) then Answer(InvalidAcknowledgement)
      else Decision(Ok(Closed(Acknowledged)), [AckResponse(id, now)])
  }

  /** A ready record always has its response, so the store's repair of a missing one is dead code. */
  lemma ReadyHasResponse(c: Config, s: State, id: Identity)
    requires Consistent(s)
    ensures id in s.kept.responses <==> id in s.kept.terminals && s.kept.terminals[id].retrieval == ResponseReady
    ensures id in s.kept.responses ==> ResponseMatches(s.kept.responses[id], s.kept.terminals[id])
    ensures id in s.kept.terminals ==> TerminalShape(id, s.kept.terminals[id], s.leases.nextGeneration)
  {
  }

  /**
    The envelope is served exactly while the record is ready, always with the accepted response and
    the token that acknowledges it; a token acknowledges only the response it was derived from.
  */
  lemma RetrievalServes(c: Config, s: State, id: Identity, credential: Option<Digest>, token: AckToken, now: Time)
    requires Consistent(s) && id in s.kept.terminals && credential.Some?
    requires s.kept.terminals[id].retrievalCredential == credential
    ensures var t := s.kept.terminals[id];
            var plain := RetrieveCall(s, id, credential, NoAck, now);
            var acked := RetrieveCall(s, id, credential, Ack(token), now);
            && t.verdict == Completed
            && plain.outcome.Ok?
            && (t.retrieval == ResponseReady <==> plain.outcome.value.Ready?)
            && (t.retrieval == ResponseReady ==>
                  plain.outcome.value == Ready(t.response.value, AckToken(id, t.acceptedAt, t.response.value), t.replayExpiry))
            && plain.events == []
            && (acked.events != [] <==>
                  t.retrieval == ResponseReady && token == AckToken(id, t.acceptedAt, t.response.value))
            && (forall e | e in acked.events :: e == AckResponse(id, now) && Enabled(c, s, e))
  {
    hide WorkInv, QueueInv, WorkBounds, ClaimInv, FleetInv, FleetBounds, HousedInv, OverInv, KeptInv, KeptBounds,
         CursorInv;
    ReadyHasResponse(c, s, id);
  }

  /** Without the reservation token nothing is revealed, whether or not a record exists. */
  lemma RetrievalIsGated(s: State, id: Identity, credential: Option<Digest>, supplied: SuppliedAck, now: Time)
    requires credential.None? || id !in s.kept.terminals || s.kept.terminals[id].retrievalCredential != credential
    ensures RetrieveCall(s, id, credential, supplied, now) == Answer(InvalidCredential)
  {
  }

  /**
    Until the record is acknowledged, expires or is reaped, every authenticated retrieval returns
    the same answer; once it is no longer ready, the envelope is never served again.
  */
  lemma RetrievalOverTime(c: Config, r: Run, i: nat, j: nat, id: Identity, credential: Option<Digest>,
                          now: Time, later: Time)
    requires IsRun(c, r) && i <= j < |r.states| && id in r.states[i].kept.terminals
    requires NotReapedAt(r, i, j, r.states[i].kept.terminals[id].expiry)
    requires credential.Some? && r.states[i].kept.terminals[id].retrievalCredential == credential
    ensures var before := RetrieveCall(r.states[i], id, credential, NoAck, now).outcome;
            var after := RetrieveCall(r.states[j], id, credential, NoAck, later).outcome;
            && before.Ok? && after.Ok?
            && (after.value.Ready? ==> after == before)
  {
    hide Consistent, Bounded, Enabled, Apply, RetrieveCall;
    RunInv(c, r, i);
    RunInv(c, r, j);
    RecordStays(c, r, i, j, id);
    RetrievalStays(c, r, i, j, id);
    RetrievalServes(c, r.states[i], id, credential, AckToken(id, now, 0), now);
    RetrievalServes(c, r.states[j], id, credential, AckToken(id, now, 0), later);
  }

  lemma {:induction false} RetrievalStays(c: Config, r: Run, i: nat, j: nat, id: Identity)
    requires IsRun(c, r) && i <= j < |r.states| && id in r.states[i].kept.terminals
    requires NotReapedAt(r, i, j, r.states[i].kept.terminals[id].expiry)
    ensures id in r.states[j].kept.terminals
    ensures RetrievalMoves(r.states[i].kept.terminals[id].retrieval, r.states[j].kept.terminals[id].retrieval)
  {
    hide Enabled, Apply, Consistent, Bounded;
    RecordStays(c, r, i, j, id);
    if i < j {
      RecordStays(c, r, i, j - 1, id);
      RetrievalStays(c, r, i, j - 1, id);
      RunInv(c, r, j - 1);
      assert StepAt(c, r, j - 1);
      RecordsAreFinal(c, r.states[j - 1], r.log[j - 1], id);
    }
  }

  // ----- Cancelling and expiring -----

  datatype Conclusion =
    | InvalidProof
    | NotExpired
    | Concluded(verdict: Verdict, reason: Reason, newOutcome: bool)

  /** `expire` chooses between the two admitted (status, reason) pairs. */
  function CancelCall(c: Config, s: State, id: Identity, token: Option<Digest>, expire: bool, now: Time)
    : (d: Decision<Conclusion>)
    ensures d.events != [] <==> d.outcome.Ok? && d.outcome.value.Concluded? && d.outcome.value.newOutcome
    ensures forall e | e in d.events :: e.now == now
  {
    if id in s.kept.terminals then
      var t := s.kept.terminals[id];
      if !expire && (token.None? || t.cancelToken != token) then Answer(InvalidProof)
      else Answer(Concluded(t.verdict, t.reason, false))
    else if !expire && (id !in s.work.cancelTokens || token != Some(s.work.cancelTokens[id])) then
      Answer(InvalidProof)
    else if !Held(s.work, id) then Answer(InvalidProof)
    else if expire && DeadlineOf(s.work, id) > now then Answer(NotExpired)
    else if !CanTerminalize(c, s, id, if expire then Expired else Cancelled, false, now) then
      Refuse(CapacityExceeded)
    else if expire then Decision(Ok(Concluded(Expired, DeadlineExpired, true)), [Expire(id, now)])
    else Decision(Ok(Concluded(Cancelled, RequesterCancelled, true)), [Cancel(id, now)])
  }

  /** A cancellation is a new outcome exactly for the holder of live work's token, given room. */
  lemma CancelledIff(c: Config, s: State, id: Identity, token: Option<Digest>, now: Time)
    requires OverInv(s.work, s.kept)
    ensures var d := CancelCall(c, s, id, token, false, now);
            && (d.outcome.Ok? && d.outcome.value.Concluded? && d.outcome.value.newOutcome <==>
                  && id in s.work.cancelTokens && token == Some(s.work.cancelTokens[id])
                  && Held(s.work, id) && CanTerminalize(c, s, id, Cancelled, false, now))
            && (d.events != [] <==> d.outcome.Ok? && d.outcome.value.Concluded? && d.outcome.value.newOutcome)
            && (forall e | e in d.events :: e == Cancel(id, now) && Enabled(c, s, e))
  {
    hide CanTerminalize;
  }

  /** An expiry is a new outcome exactly for overdue live work, given room; no token is needed. */
  lemma ExpiredIff(c: Config, s: State, id: Identity, token: Option<Digest>, now: Time)
    requires OverInv(s.work, s.kept)
    ensures var d := CancelCall(c, s, id, token, true, now);
            && (d.outcome.Ok? && d.outcome.value.Concluded? && d.outcome.value.newOutcome <==>
                  && Held(s.work, id) && DeadlineOf(s.work, id) <= now
                  && CanTerminalize(c, s, id, Expired, false, now))
            && (d.outcome == Ok(NotExpired) <==> Held(s.work, id) && DeadlineOf(s.work, id) > now)
            && (d.events != [] <==> d.outcome.Ok? && d.outcome.value.Concluded? && d.outcome.value.newOutcome)
            && (forall e | e in d.events :: e == Expire(id, now) && Enabled(c, s, e))
  {
    hide CanTerminalize;
  }

  /** The claim whose consumer may still be computing when the event concludes its request. */
  predicate MustStop(s: State, e: Event, id: Identity)
    requires Held(s.work, id)
  {
    && id in s.leases.claims
    && (|| e.Teardown?
        || (e.Cancel? && s.leases.claims[id].lease > e.now)
        || (e.Expire? && s.leases.claims[id].lease >= DeadlineOf(s.work, id)))
  }

  /**
    A conclusion other than completion leaves a stop instruction exactly for the consumer that may
    still be computing, and the record names that owner; otherwise it names none.
  */
  lemma ConclusionTellsOwner(c: Config, s: State, e: Event)
    requires Consistent(s) && Enabled(c, s, e) && (e.Expire? || e.Teardown? || e.Cancel?)
    ensures Held(s.work, e.id)
    ensures var k := Apply(c, s, e).kept;
            && e.id in k.terminals
            && (e.id in k.controls <==> MustStop(s, e, e.id))
            && (e.id in k.controls ==>
                  var claim, stop := s.leases.claims[e.id], k.controls[e.id];
                  && stop.node == claim.node && stop.credential == claim.credential
                  && stop.consumer == claim.consumer && stop.generation == claim.generation
                  && stop.verdict == k.terminals[e.id].verdict && !stop.acknowledged
                  && k.terminals[e.id].generation == claim.generation)
            && (e.id !in k.controls ==> k.terminals[e.id].credential == None && k.terminals[e.id].generation == 0)
  {
    hide WorkInv, QueueInv, ClaimInv, FleetInv, HousedInv, OverInv, KeptInv, CursorInv, CanTerminalize;
    LiveIsNotOver(c, s, e.id);
  }
}
