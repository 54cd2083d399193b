/**
  What the answers of the calls are worth: that they tell what the store then holds, which secret
  opens what, and what later calls say of a request that is over.
*/
module StoreAnswers {
  import opened RelayTypes
  import opened StoreState
  import opened StoreInvariant
  import opened StoreRuns
  import opened StoreCalls
  import opened StoreHousekeeping
  import opened StoreEvents

  // ----- Claims -----

  lemma GrantedEffect(c: Config, s: State, id: Identity, consumer: Digest, now: Time)
    requires Enabled(c, s, TakeClaim(id, consumer, now))
    ensures var t := Apply(c, s, TakeClaim(id, consumer, now));
            && t == s.(leases := t.leases)
            && id in t.leases.claims && (forall i | i != id :: i in t.leases.claims <==> i in s.leases.claims)
            && (forall i | i != id && i in s.leases.claims :: t.leases.claims[i] == s.leases.claims[i])
            && var q, k := s.work.queued[id], t.leases.claims[id];
            && k.consumer == consumer && k.node == q.node && k.deadline == q.deadline && k.envelope == q.envelope
            && k.sequence == q.sequence && k.node in s.fleet.nodes && k.credential == s.fleet.nodes[k.node].credential
            && k.generation == t.leases.nextGeneration == s.leases.nextGeneration + 1
            && k.lease <= k.deadline && k.lease <= now + c.claimTtl && (k.lease == k.deadline || k.lease == now + c.claimTtl)
  {
    hide ClaimRoom;
  }

  /**
    What a granted claim says is what the store then holds for the asking node, owner and consumer:
    the request as it was enqueued, a generation that no claim has had, a lease of the full time or to
    the deadline; and it is called reclaimed exactly if a lapsed claim was in its place.
  */
  lemma GrantedIsHeld(c: Config, s: State, n: NodeId, owner: Digest, consumer: Digest, now: Time)
    requires c.Valid() && Consistent(s)
    requires var d := ClaimCall(c, s, n, owner, consumer, now); d.outcome.Ok? && d.outcome.value.Granted?
    ensures var d := ClaimCall(c, s, n, owner, consumer, now);
            var answer := d.outcome.value;
            && d.events == [TakeClaim(answer.id, consumer, now)] && Enabled(c, s, d.events[0])
            && var t := Apply(c, s, d.events[0]);
            && answer.id in t.leases.claims && answer.id in s.work.queued
            && var k := t.leases.claims[answer.id];
            && k.node == n && k.credential == owner && k.consumer == consumer
            && k.generation == answer.generation && k.lease == answer.lease && k.deadline == answer.deadline
            && k.envelope == answer.envelope == s.work.queued[answer.id].envelope
            && answer.deadline == s.work.queued[answer.id].deadline
            && (forall i | i in s.leases.claims :: s.leases.claims[i].generation < answer.generation)
            && now < answer.lease <= answer.deadline && answer.lease <= now + c.claimTtl
            && (answer.lease == answer.deadline || answer.lease == now + c.claimTtl)
            && (answer.reclaimed <==> answer.id in s.leases.claims)
            && (answer.reclaimed ==> s.leases.claims[answer.id].lease <= now)
  {
    hide WorkInv, QueueInv, ClaimInv, FleetInv, HousedInv, OverInv, KeptInv, CursorInv, ClaimRoom, Enabled, Apply;
    var d := ClaimCall(c, s, n, owner, consumer, now);
    var id := d.outcome.value.id;
    ClaimsAreFifo(c, s, n, owner, consumer, now);
    FirstIsEarliestOn(s, n, now);
    GrantedEffect(c, s, id, consumer, now);
    GenerationsBelow(s);
  }

  lemma GenerationsBelow(s: State)
    requires Consistent(s)
    ensures forall i | i in s.leases.claims :: s.leases.claims[i].generation <= s.leases.nextGeneration
  {
    hide WorkInv, QueueInv, FleetInv, HousedInv, OverInv, KeptInv, CursorInv;
  }

  /** The claim that a granted answer speaks of is in the store. */
  predicate HoldsClaim(t: State, n: NodeId, owner: Digest, consumer: Digest, answer: ClaimResult)
    requires answer.Granted?
  {
    && answer.id in t.leases.claims
    && var k := t.leases.claims[answer.id];
    && k.node == n && k.credential == owner && k.consumer == consumer && k.generation == answer.generation
    && k.lease == answer.lease && k.deadline == answer.deadline && k.envelope == answer.envelope
  }

  /** So it is after the call. */
  lemma GrantHolds(c: Config, before: Run, after: Run, n: NodeId, owner: Digest, consumer: Digest, now: Time)
    requires IsRun(c, before) && IsRun(c, after)
    requires var d := ClaimCall(c, Last(before), n, owner, consumer, now);
             d.outcome.Ok? && d.outcome.value.Granted? && Continues(before, after, d.events)
    ensures HoldsClaim(Last(after), n, owner, consumer, ClaimCall(c, Last(before), n, owner, consumer, now).outcome.value)
  {
    hide Enabled, Apply, Consistent, Bounded, ClaimCall;
    RunInv(c, before, |before.log|);
    GrantedIsHeld(c, Last(before), n, owner, consumer, now);
    assert StepAt(c, after, |before.log|);
  }

  /** Within the lease, renewing or answering with what was granted succeeds, given room for the answer. */
  lemma GrantedIsUsable(c: Config, s: State, n: NodeId, owner: Digest, consumer: Digest, now: Time, later: Time,
                        acknowledge: bool, response: Envelope)
    requires c.Valid() && Consistent(s)
    requires var d := ClaimCall(c, s, n, owner, consumer, now);
             d.outcome.Ok? && d.outcome.value.Granted? && now <= later < d.outcome.value.lease
    ensures var d := ClaimCall(c, s, n, owner, consumer, now);
            var answer := d.outcome.value;
            && |d.events| == 1 && Enabled(c, s, d.events[0])
            && var t := Apply(c, s, d.events[0]);
            var renewed := RenewClaimCall(c, t, n, owner, consumer, answer.id, answer.generation, acknowledge, later).outcome;
            var accepted := AcceptCall(c, t, n, owner, consumer, answer.id, answer.generation, response, later).outcome;
            && renewed.Ok? && renewed.value.Continued? && renewed.value.generation == answer.generation
            && (accepted.Ok? && accepted.value.newOutcome <==> ResponseRoom(c, s.kept, answer.id.client))
  {
    hide WorkInv, QueueInv, ClaimInv, FleetInv, HousedInv, OverInv, KeptInv, CursorInv, ClaimRoom, Enabled, Apply, ClaimCall,
         RenewClaimCall, AcceptCall, ResponseRoom;
    var d := ClaimCall(c, s, n, owner, consumer, now);
    var answer := d.outcome.value;
    GrantedIsHeld(c, s, n, owner, consumer, now);
    GrantedEffect(c, s, answer.id, consumer, now);
    var t := Apply(c, s, d.events[0]);
    EventInv(c, s, d.events[0]);
    GrantedNode(c, s, n, owner, consumer, now);
    ContinuedIff(c, t, n, owner, consumer, answer.id, answer.generation, acknowledge, later);
    ContinuedKeeps(c, t, n, owner, consumer, answer.id, answer.generation, acknowledge, later);
    NewOutcomeIff(c, t, n, owner, consumer, answer.id, answer.generation, response, later);
  }

  lemma GrantedNode(c: Config, s: State, n: NodeId, owner: Digest, consumer: Digest, now: Time)
    requires var d := ClaimCall(c, s, n, owner, consumer, now); d.outcome.Ok? && d.outcome.value.Granted?
    ensures n in s.fleet.nodes && s.fleet.nodes[n].credential == owner
  {
    hide ClaimRoom, FirstClaimable, QueueOf;
  }

  lemma ContinuedKeeps(c: Config, s: State, n: NodeId, owner: Digest, consumer: Digest, id: Identity, generation: nat,
                       acknowledge: bool, now: Time)
    ensures var d := RenewClaimCall(c, s, n, owner, consumer, id, generation, acknowledge, now);
            d.outcome.Ok? && (d.outcome.value.Continued? ==> d.outcome.value.generation == generation)
  {
  }

  lemma QueuedFromStep(c: Config, s: State, e: Event, id: Identity)
    requires WorkInv(s.work) && Enabled(c, s, e) && id in Apply(c, s, e).work.queued
    ensures if id in s.work.queued then Apply(c, s, e).work.queued[id] == s.work.queued[id] && !(Concludes(e) && e.id == id)
            else e.Enqueue? && e.id == id && Apply(c, s, e).work.queued[id].envelope == e.envelope
  {
    hide CanTerminalize, TransitionRoom, ResponseRoom, ClaimRoom, QueueRoom, LifecycleRoom, Selected, Evicts,
         TerminalFor, Conclude, ReapKept, ReapFleet, StartFleet, CompleteFleet, RegisterFleet,
         AdvanceCursor, CompletedBy, ResponseTo, LiveOwnedClaim;
  }

  /** A queued request, and so the envelope that is granted for it, is the one that was enqueued. */
  lemma {:induction false} QueuedFrom(c: Config, r: Run, j: nat, id: Identity) returns (i: nat)
    requires IsRun(c, r) && j < |r.states| && id in r.states[j].work.queued
    ensures i < j && r.log[i].Enqueue? && r.log[i].id == id && r.states[j].work.queued[id].envelope == r.log[i].envelope
    ensures forall m: nat | i < m < j :: !(Concludes(r.log[m]) && r.log[m].id == id)
  {
    hide Enabled, Apply, Consistent, Bounded;
    assert j != 0;
    RunInv(c, r, j - 1);
    InvSaysWork(r.states[j - 1]);
    assert StepAt(c, r, j - 1);
    QueuedFromStep(c, r.states[j - 1], r.log[j - 1], id);
    if id in r.states[j - 1].work.queued {
      i := QueuedFrom(c, r, j - 1, id);
    } else {
      i := j - 1;
    }
  }

  lemma InvSaysWork(s: State)
    requires Consistent(s)
    ensures WorkInv(s.work)
  {
  }

  // ----- Renewals -----

  /** The node is registered under this owner. */
  predicate Registered(s: State, n: NodeId, owner: Digest) {
    n in s.fleet.nodes && s.fleet.nodes[n].credential == owner
  }

  /** A claim on the request exists and its deadline has not come. */
  predicate Claimed(s: State, id: Identity, now: Time) {
    id in s.leases.claims && now < s.leases.claims[id].deadline
  }

  /** A renewal that continues stores the lease that it answers, the full time or to the deadline. */
  lemma ContinuedIsStored(c: Config, s: State, n: NodeId, owner: Digest, consumer: Digest, id: Identity, generation: nat,
                          acknowledge: bool, now: Time)
    requires Consistent(s)
    requires RenewClaimCall(c, s, n, owner, consumer, id, generation, acknowledge, now).outcome.value.Continued?
    ensures var d := RenewClaimCall(c, s, n, owner, consumer, id, generation, acknowledge, now);
            var lease := d.outcome.value.lease;
            && d.events == [RenewClaim(id, generation, now)] && Enabled(c, s, d.events[0]) && id in s.leases.claims
            && var t, k := Apply(c, s, d.events[0]), s.leases.claims[id];
            && t == s.(leases := s.leases.(claims := s.leases.claims[id := k.(lease := lease)]))
            && lease <= k.deadline && lease <= now + c.claimTtl && (lease == k.deadline || lease == now + c.claimTtl)
  {
    hide WorkInv, QueueInv, ClaimInv, FleetInv, HousedInv, OverInv, KeptInv, CursorInv;
    ContinuedIff(c, s, n, owner, consumer, id, generation, acknowledge, now);
  }

  /** Each of the three refusals, as a condition on tombstone, registration and claim. */
  lemma RenewalRefusedIff(c: Config, s: State, n: NodeId, owner: Digest, consumer: Digest, id: Identity, generation: nat,
                          acknowledge: bool, now: Time)
    requires Consistent(s)
    ensures var result := RenewClaimCall(c, s, n, owner, consumer, id, generation, acknowledge, now).outcome.value;
            var tomb, claims := s.kept.controls, s.leases.claims;
            var live := id !in tomb && Registered(s, n, owner);
            && (result.StaleGeneration? <==> live && Claimed(s, id, now) && claims[id].generation != generation)
            && (result.StaleGeneration? ==> result.current == claims[id].generation)
            && (result.MissingOrExpired? <==>
                  live && (!Claimed(s, id, now)
                           || (claims[id].generation == generation && claims[id].node == n && claims[id].consumer == consumer
                               && claims[id].lease <= now)))
            && (result.OwnerMismatch? <==>
                  if id in tomb then
                    !(tomb[id].node == n && tomb[id].generation == generation && tomb[id].credential == owner
                      && tomb[id].consumer == consumer)
                  else
                    !Registered(s, n, owner)
                    || (Claimed(s, id, now) && claims[id].generation == generation
                        && !(claims[id].node == n && claims[id].consumer == consumer)))
  {
    hide WorkInv, QueueInv, ClaimInv, FleetInv, HousedInv, OverInv, KeptInv, CursorInv;
  }

  // ----- Nodes -----

  /**
    After a registration the node has the capabilities it gave and a full lease: a new node in the
    initial scheduler state, one that was registered as it was but for these.
  */
  lemma RegisteredAs(c: Config, s: State, n: NodeId, caps: Capabilities, owner: Digest, now: Time)
    requires FleetInv(s.fleet) && RegisterCall(c, s, n, caps, owner, now).outcome.Ok?
    ensures var d := RegisterCall(c, s, n, caps, owner, now);
            && |d.events| == 1 && Enabled(c, s, d.events[0])
            && var t, record := Apply(c, s, d.events[0]), d.outcome.value;
            && t.fleet.nodes == s.fleet.nodes[n := record] && n in t.fleet.scheduler
            && record.capabilities == caps && record.credential == owner && record.leaseExpiry == now + c.leaseTtl
            && record.registeredAt == (if n in s.fleet.nodes then s.fleet.nodes[n].registeredAt else now)
            && t.fleet.scheduler[n] == (if n in s.fleet.nodes then s.fleet.scheduler[n] else SchedulerState(true, false, 0))
            && t == s.(fleet := t.fleet)
  {
    hide Enabled, Apply, FleetInv;
    RegisterDecides(c, s, n, caps, owner, now);
    if n in s.fleet.nodes {
      RenewEvent(c, s, n, caps, now);
    } else {
      RegisterEvent(c, s, n, caps, owner, now);
    }
    SameKeys(s.fleet);
  }

  lemma SameKeys(f: Fleet)
    requires FleetInv(f)
    ensures f.scheduler.Keys == f.nodes.Keys
  {
  }

  lemma RegisterDecides(c: Config, s: State, n: NodeId, caps: Capabilities, owner: Digest, now: Time)
    requires RegisterCall(c, s, n, caps, owner, now).outcome.Ok?
    ensures var d, f := RegisterCall(c, s, n, caps, owner, now), s.fleet;
            && n !in f.pending
            && if n in f.nodes then
                 d == Decision(Ok(f.nodes[n].(capabilities := caps, leaseExpiry := now + c.leaseTtl)), [Renew(n, caps, now)])
                 && f.nodes[n].credential == owner
               else
                 d == Decision(Ok(Registration(caps, owner, now, now + c.leaseTtl)), [Register(n, caps, owner, now)])
                 && |f.nodes| < c.maxNodes && FenceKey(n, owner) !in f.fences
  {
  }

  /** Registration is refused for a node being torn down, without room, or under an owner it does not have. */
  lemma RegistrationRefusedIff(c: Config, s: State, n: NodeId, caps: Capabilities, owner: Digest, now: Time)
    requires FleetInv(s.fleet)
    ensures var out := RegisterCall(c, s, n, caps, owner, now).outcome;
            var full := n !in s.fleet.nodes && |s.fleet.nodes| >= c.maxNodes;
            && (out == Raised(Conflict) <==> n in s.fleet.pending)
            && (out == Raised(CapacityExceeded) <==> n !in s.fleet.pending && full)
            && (out == Raised(CredentialMismatch) <==>
                  n !in s.fleet.pending && !full
                  && if n in s.fleet.nodes then s.fleet.nodes[n].credential != owner else FenceKey(n, owner) in s.fleet.fences)
  {
  }

  /** A renewal answers for the node's own owner, with the capabilities given or those it had. */
  lemma RenewedAs(c: Config, s: State, n: NodeId, owner: Digest, caps: Option<Capabilities>, now: Time)
    ensures var d := RenewCall(c, s, n, owner, caps, now);
            && (d.outcome == Ok(None) <==> n !in s.fleet.nodes)
            && (d.outcome == Raised(CredentialMismatch) <==> n in s.fleet.nodes && !Registered(s, n, owner))
            && (d.outcome.Ok? && d.outcome.value.Some? <==> Registered(s, n, owner))
            && (Registered(s, n, owner) ==>
                  && |d.events| == 1 && Enabled(c, s, d.events[0])
                  && var t, was, record := Apply(c, s, d.events[0]), s.fleet.nodes[n], d.outcome.value.value;
                  && t == s.(fleet := s.fleet.(nodes := s.fleet.nodes[n := record]))
                  && record == was.(capabilities := record.capabilities, leaseExpiry := now + c.leaseTtl)
                  && record.capabilities == if caps.Some? then caps.value else was.capabilities)
  {
  }

  /** A report is taken from the node's own owner and stored as it is. */
  lemma ReportedAs(c: Config, s: State, n: NodeId, owner: Digest, state: SchedulerState, now: Time)
    ensures var d := SetSchedulerCall(s, n, owner, state, now);
            && (d.outcome == Ok(false) <==> n !in s.fleet.nodes)
            && (d.outcome == Raised(CredentialMismatch) <==> n in s.fleet.nodes && !Registered(s, n, owner))
            && (d.outcome == Ok(true) <==> Registered(s, n, owner))
            && (Registered(s, n, owner) ==>
                  && |d.events| == 1 && Enabled(c, s, d.events[0])
                  && Apply(c, s, d.events[0]) == s.(fleet := s.fleet.(scheduler := s.fleet.scheduler[n := state])))
  {
  }

  // ----- Enqueueing -----

  /** The reservation stands, on a node that is registered with a live lease. */
  predicate Reserved(s: State, id: Identity, r: Reservation, now: Time) {
    && id in s.work.reservations && s.work.reservations[id] == r
    && r.node in s.fleet.nodes && now < s.fleet.nodes[r.node].leaseExpiry
  }

  /**
    A request is enqueued exactly against its own live reservation, with its parameters, its token and
    no other cancel token than it had, in time and with room in the store; the queue of the node
    always has room.
  */
  lemma EnqueuedIff(c: Config, s: State, id: Identity, token: Digest, node: NodeId, fp: Fingerprint, deadline: Time,
                    envelope: Envelope, cancel: Digest, now: Time)
    requires Consistent(s) && WorkBounds(c, s.work)
    ensures var d := EnqueueCall(c, s, id, token, node, fp, deadline, envelope, cancel, now);
            d.outcome.Ok? && d.outcome.value.created <==>
              && now < deadline <= now + c.maxRequestTtl
              && (exists expiry :: Reserved(s, id, Reservation(fp, node, deadline, expiry, token), now))
              && (id in s.work.cancelTokens ==> s.work.cancelTokens[id] == cancel)
              && |s.work.queued| < c.maxQueued && |OfClient(s.work.queued.Keys, id.client)| < c.maxQueuedPerClient
  {
    hide QueueInv, ClaimInv, HousedInv, KeptInv, CursorInv, QueueOf;
    if id in s.work.reservations {
      var r := s.work.reservations[id];
      assert Held(s.work, id);
      QueueDepthNeverRefuses(c, s.work, id);
      assert r == Reservation(r.fingerprint, r.node, r.deadline, r.expiry, r.token);
      assert Reserved(s, id, r, now) <==> r.node in s.fleet.nodes && now < s.fleet.nodes[r.node].leaseExpiry;
    }
  }

  /** Why a request that is neither over nor queued yet is not enqueued. */
  lemma EnqueueRefusedBy(c: Config, s: State, id: Identity, token: Digest, node: NodeId, fp: Fingerprint, deadline: Time,
                         envelope: Envelope, cancel: Digest, now: Time)
    requires WorkBounds(c, s.work) && id !in s.kept.terminals && id !in s.work.queued
    ensures var out := EnqueueCall(c, s, id, token, node, fp, deadline, envelope, cancel, now).outcome;
            var inTime := now < deadline <= now + c.maxRequestTtl;
            var stands := && id in s.work.reservations && s.work.reservations[id].node in s.fleet.nodes
                          && s.fleet.nodes[s.work.reservations[id].node].leaseExpiry > now
                          && s.work.reservations[id].node !in s.fleet.pending;
            var agrees := && stands && s.work.reservations[id].fingerprint == fp && s.work.reservations[id].deadline == deadline
                          && (id in s.work.cancelTokens ==> s.work.cancelTokens[id] == cancel);
            var ours := agrees && s.work.reservations[id].node == node && s.work.reservations[id].token == token;
            && (out == Raised(InvalidArgument) <==> deadline > now && !inTime)
            && (out == Raised(InvalidReservation) <==> deadline <= now || (inTime && (!stands || (agrees && !ours))))
            && (out == Raised(Conflict) <==> inTime && stands && !agrees)
            && (out == Raised(NoCapacity) <==> inTime && ours && !QueueRoom(c, s.work, id.client))
  {
    hide QueueRoom, QueueOf;
    if id in s.work.reservations {
      QueueDepthNeverRefuses(c, s.work, id);
    }
  }

  /** A request that is over, or queued under other parameters or secrets, is not enqueued again. */
  lemma EnqueueAgainRefusedBy(c: Config, s: State, id: Identity, token: Digest, node: NodeId, fp: Fingerprint, deadline: Time,
                              envelope: Envelope, cancel: Digest, now: Time)
    requires WorkInv(s.work) && now < deadline
    ensures var out := EnqueueCall(c, s, id, token, node, fp, deadline, envelope, cancel, now).outcome;
            && (id in s.kept.terminals ==> out == Raised(Conflict))
            && (id !in s.kept.terminals && id in s.work.queued ==>
                  var q := s.work.queued[id];
                  var same := q == q.(node := node, fingerprint := fp, deadline := deadline, envelope := envelope);
                  && (out == Raised(InvalidReservation) <==> same && s.work.queuedTokens[id] != token)
                  && (out == Raised(Conflict) <==> !same || (s.work.queuedTokens[id] == token && s.work.cancelTokens[id] != cancel))
                  && (out.Ok? <==> same && s.work.queuedTokens[id] == token && s.work.cancelTokens[id] == cancel))
  {
    hide QueueRoom, QueueOf;
  }

  // ----- Selecting a request that is known -----

  /** What a selection answers for a request that is live or over, or that comes at the wrong time. */
  lemma KnownIsAnswered(c: Config, s: State, id: Identity, fp: Fingerprint, deadline: Time, cancel: Option<Digest>, now: Time)
    requires Consistent(s)
    ensures var known := SelectKnown(c, s, id, fp, deadline, cancel, now);
            && (known == Some(Raised(InvalidReservation)) <==> deadline <= now)
            && (known == Some(Raised(InvalidArgument)) <==> now + c.maxRequestTtl < deadline && now < deadline)
            && (now < deadline <= now + c.maxRequestTtl && (id in s.kept.terminals || Held(s.work, id)) ==>
                  && known.Some?
                  && known.value == (if AgreesWith(s.work, id, fp, deadline, cancel) && id !in s.kept.terminals then
                                       Ok(Selection(NodeOf(s.work, id), fp, deadline,
                                                    if id in s.work.reservations then Some(s.work.reservations[id].expiry) else None,
                                                    None, false,
                                                    if id in s.work.reservations then StageReserved
                                                    else if id in s.leases.claims && s.leases.claims[id].lease > now then StageClaimed
                                                    else StageQueued))
                                     else Raised(Conflict)))
  {
    hide QueueInv, ClaimInv, FleetInv, HousedInv, KeptInv, CursorInv, LifecycleRoom;
  }

  /** A live request has these parameters; a queued one may be asked for without its cancel token. */
  predicate AgreesWith(w: Work, id: Identity, fp: Fingerprint, deadline: Time, cancel: Option<Digest>) {
    && Held(w, id) && DeadlineOf(w, id) == deadline
    && (if id in w.reservations then w.reservations[id].fingerprint else w.queued[id].fingerprint) == fp
    && (id in w.cancelTokens ==> cancel == Some(w.cancelTokens[id]) || (cancel == None && id in w.queued))
  }

  // ----- Responses and ends -----

  /** Why a response for a request without a record is not accepted. */
  lemma AcceptRefusedBy(c: Config, s: State, n: NodeId, owner: Digest, consumer: Digest, id: Identity, generation: nat,
                        envelope: Envelope, now: Time)
    requires Consistent(s) && id !in s.kept.terminals
    ensures var out := AcceptCall(c, s, n, owner, consumer, id, generation, envelope, now).outcome;
            var current := id in s.leases.claims && s.leases.claims[id].generation == generation;
            var mine := current && s.leases.claims[id].node == n && s.leases.claims[id].consumer == consumer;
            && (out == Raised(CredentialMismatch) <==> !Registered(s, n, owner) || (current && !mine))
            && (out == Raised(Conflict) <==> Registered(s, n, owner) && (!current || (mine && s.leases.claims[id].lease <= now)))
            && (out == Raised(CapacityExceeded) <==>
                  Registered(s, n, owner) && mine && now < s.leases.claims[id].lease && !ResponseRoom(c, s.kept, id.client))
  {
    hide WorkInv, QueueInv, ClaimInv, FleetInv, HousedInv, OverInv, KeptInv, CursorInv, ResponseRoom;
    if id in s.leases.claims {
      ClaimedIsQueuedOnItsNode(c, s, id);
    }
  }

  /** What the answer to an accepted response is, and that a retry of another response is refused. */
  lemma AcceptedIsAnswered(c: Config, s: State, n: NodeId, owner: Digest, consumer: Digest, id: Identity, generation: nat,
                           envelope: Envelope, now: Time)
    ensures var out := AcceptCall(c, s, n, owner, consumer, id, generation, envelope, now).outcome;
            && (out.Ok? && out.value.newOutcome ==> out.value == Acceptance(generation, now, now + c.replayTtl, true))
            && (id in s.kept.terminals ==>
                  var t := s.kept.terminals[id];
                  && (out.Ok? <==>
                        && t.node == n && t.generation == generation && t.credential == Some(owner)
                        && t.consumer == Some(consumer) && t.response == Some(envelope))
                  && (out.Raised? ==> out.error == Conflict))
  {
    hide ResponseRoom;
  }

  /** What asking for the end of a request without a record answers. */
  lemma EndIsAnswered(c: Config, s: State, id: Identity, token: Option<Digest>, expire: bool, now: Time)
    requires id !in s.kept.terminals
    ensures var out := CancelCall(c, s, id, token, expire, now).outcome;
            var proven := expire || (id in s.work.cancelTokens && token == Some(s.work.cancelTokens[id]));
            var verdict := if expire then Expired else Cancelled;
            && (out == Ok(InvalidProof) <==> !Held(s.work, id) || !proven)
            && (out == Ok(NotExpired) <==> Held(s.work, id) && expire && now < DeadlineOf(s.work, id))
            && (out == Raised(CapacityExceeded) <==>
                  && Held(s.work, id) && proven && (expire ==> DeadlineOf(s.work, id) <= now)
                  && !CanTerminalize(c, s, id, verdict, false, now))
            && (out.Ok? && out.value.Concluded? ==>
                  out.value == Concluded(verdict, if expire then DeadlineExpired else RequesterCancelled, true))
  {
    hide CanTerminalize, DeadlineOf;
  }
}
