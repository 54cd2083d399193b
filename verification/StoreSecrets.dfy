/**
  Which secret opens what: the token issued with a reservation opens the response to it, the cancel
  token given with the request speaks for its end, and neither stands in for the other.
*/
module StoreSecrets {
  import opened RelayTypes
  import opened StoreState
  import opened StoreInvariant
  import opened StoreRuns
  import opened StoreCalls
  import opened StoreDrain

  // ----- From the reservation to the response -----

  predicate ReservedAs(w: Work, id: Identity, r: Reservation) {
    id in w.reservations && w.reservations[id] == r
  }

  lemma ReservedFirst(c: Config, s: State, e: Event)
    requires Enabled(c, s, e) && e.Reserve?
    ensures ReservedAs(Apply(c, s, e).work, e.id, e.reservation)
  {
    hide LifecycleRoom, Selected, Evicts, AdvanceCursor;
  }

  lemma ReservedStep(c: Config, s: State, e: Event, id: Identity, r: Reservation)
    requires WorkInv(s.work) && Enabled(c, s, e) && ReservedAs(s.work, id, r)
    requires !Leaves(e, id) && !(e.Enqueue? && e.id == id)
    ensures ReservedAs(Apply(c, s, e).work, id, r)
  {
    hide CanTerminalize, TransitionRoom, ResponseRoom, ClaimRoom, QueueRoom, LifecycleRoom, Selected, Evicts,
         TerminalFor, Conclude, ReapKept, ReapFleet, StartFleet, CompleteFleet, RegisterFleet,
         AdvanceCursor, CompletedBy, ResponseTo, LiveOwnedClaim;
  }

  lemma {:induction false} ReservedStays(c: Config, r: Run, i: nat, j: nat, id: Identity, reservation: Reservation)
    requires IsRun(c, r) && i <= j < |r.states| && ReservedAs(r.states[i].work, id, reservation)
    requires forall m: nat | i <= m < j :: !Leaves(r.log[m], id) && !(r.log[m].Enqueue? && r.log[m].id == id)
    ensures ReservedAs(r.states[j].work, id, reservation)
  {
    hide Enabled, Apply, ReservedAs, Leaves, Consistent, Bounded, WorkInv;
    if i < j {
      ReservedStays(c, r, i, j - 1, id, reservation);
      RunWorkInv(c, r, j - 1);
      assert StepAt(c, r, j - 1);
      ReservedStep(c, r.states[j - 1], r.log[j - 1], id, reservation);
    }
  }

  lemma RunWorkInv(c: Config, r: Run, i: nat)
    requires IsRun(c, r) && i < |r.states|
    ensures Consistent(r.states[i]) && WorkInv(r.states[i].work)
  {
    hide StepAt, Bounded;
    RunInv(c, r, i);
  }

  lemma EnqueuedAs(c: Config, s: State, e: Event, r: Reservation)
    requires Enabled(c, s, e) && e.Enqueue? && ReservedAs(s.work, e.id, r)
    ensures QueuedAs(Apply(c, s, e).work, e.id,
                     QueuedRequest(e.id, r.node, r.fingerprint, r.deadline, e.envelope, e.now, s.work.nextSequence + 1),
                     r.token, e.cancelToken)
  {
    hide QueueRoom;
  }

  /** The record of a response names the reservation's token for retrieval and the cancel token for retries. */
  lemma AcceptedSecrets(c: Config, s: State, e: Event, q: QueuedRequest, token: Digest, cancel: Digest)
    requires Enabled(c, s, e) && e.Accept? && QueuedAs(s.work, e.id, q, token, cancel)
    ensures var k := Apply(c, s, e).kept;
            && e.id in k.terminals && e.id in k.responses
            && var t := k.terminals[e.id];
            && t.retrievalCredential == Some(token) && t.cancelToken == Some(cancel) && t.response == Some(e.envelope)
            && t.retrieval == ResponseReady && t.verdict == Completed && t.reason == ResponseCompleted
            && t.acceptedAt == e.now && t.replayExpiry == e.now + c.replayTtl && t.expiry == e.now + c.terminalRetention
  {
    hide ResponseRoom, RemoveWork;
  }

  /** The issued token, the cancel token and the record of a request that was reserved, enqueued and answered. */
  lemma AnsweredSecrets(c: Config, r: Run, i: nat, j: nat, k: nat, id: Identity)
    requires IsRun(c, r) && i < j < k < |r.log|
    requires r.log[i].Reserve? && r.log[i].id == id && r.log[j].Enqueue? && r.log[j].id == id
    requires r.log[k].Accept? && r.log[k].id == id
    requires forall m: nat | i < m < k :: !Leaves(r.log[m], id) && (m != j ==> !(r.log[m].Enqueue? && r.log[m].id == id))
    ensures var kept, at := r.states[k + 1].kept, r.log[k].now;
            && id in kept.terminals
            && var t := kept.terminals[id];
            && t.retrievalCredential == Some(r.log[i].reservation.token) && t.cancelToken == Some(r.log[j].cancelToken)
            && t.response == Some(r.log[k].envelope) && t.retrieval == ResponseReady
            && t.verdict == Completed && t.reason == ResponseCompleted
            && t.acceptedAt == at && t.replayExpiry == at + c.replayTtl && t.expiry == at + c.terminalRetention
  {
    hide Enabled, Apply, ReservedAs, QueuedAs, Leaves;
    var p := r.log[i].reservation;
    assert StepAt(c, r, i) && StepAt(c, r, j) && StepAt(c, r, k);
    ReservedFirst(c, r.states[i], r.log[i]);
    ReservedStays(c, r, i + 1, j, id, p);
    EnqueuedAs(c, r.states[j], r.log[j], p);
    var q := QueuedRequest(id, p.node, p.fingerprint, p.deadline, r.log[j].envelope, r.log[j].now, r.states[j].work.nextSequence + 1);
    NotConcluded(r, j + 1, k, id);
    QueuedStays(c, r, j + 1, k, id, q, p.token, r.log[j].cancelToken);
    AcceptedSecrets(c, r.states[k], r.log[k], q, p.token, r.log[j].cancelToken);
  }

  lemma NotConcluded(r: Run, i: nat, j: nat, id: Identity)
    requires i <= j <= |r.log| && forall m: nat | i <= m < j :: !Leaves(r.log[m], id)
    ensures forall m: nat | i <= m < j :: !(Concludes(r.log[m]) && r.log[m].id == id)
  {
    forall m: nat | i <= m < j
      ensures !(Concludes(r.log[m]) && r.log[m].id == id)
    {
      assert !Leaves(r.log[m], id);
    }
  }

  // ----- While the response is ready -----

  /** The event ends the retrieval of a response that is ready until `replay`. */
  predicate EndsRetrieval(e: Event, id: Identity, replay: Time) {
    (e.AckResponse? && e.id == id) || (e.Reap? && replay <= e.now)
  }

  lemma ReapedReady(k: Kept, id: Identity, now: Time)
    requires id in k.terminals && id in k.responses && k.terminals[id].retrieval == ResponseReady
    requires now < k.responses[id].replayExpiry && id in ReapKept(k, now).terminals
    ensures ReapKept(k, now).terminals[id] == k.terminals[id]
  {
  }

  /** Only a reap and an acknowledgement touch the record of a request that is over. */
  lemma RecordUntouched(c: Config, s: State, e: Event, id: Identity)
    requires Consistent(s) && Enabled(c, s, e) && id in s.kept.terminals && !e.Reap? && !(e.AckResponse? && e.id == id)
    ensures id in Apply(c, s, e).kept.terminals && Apply(c, s, e).kept.terminals[id] == s.kept.terminals[id]
  {
    hide WorkInv, QueueInv, ClaimInv, FleetInv, HousedInv, OverInv, KeptInv, CursorInv, CanTerminalize, TransitionRoom,
         ResponseRoom, ClaimRoom, QueueRoom, LifecycleRoom, Selected, Evicts, RemoveWork, ReserveWork, EnqueueWork,
         StartFleet, CompleteFleet, RegisterFleet, AdvanceCursor, TerminalFor, ControlOf, CompletedBy, ResponseTo,
         TombstoneClaim;
    if Concludes(e) {
      LiveUntilConcluded(c, s, e);
    }
  }

  lemma LiveUntilConcluded(c: Config, s: State, e: Event)
    requires Consistent(s) && Enabled(c, s, e) && Concludes(e)
    ensures e.id !in s.kept.terminals
  {
    hide Consistent, CanTerminalize, ResponseRoom, LiveOwnedClaim;
    if !e.Accept? {
      LiveIsNotOver(c, s, e.id);
    }
  }

  lemma ReadyStep(c: Config, s: State, e: Event, id: Identity)
    requires Consistent(s) && Enabled(c, s, e) && id in s.kept.terminals && s.kept.terminals[id].retrieval == ResponseReady
    requires id in Apply(c, s, e).kept.terminals && !EndsRetrieval(e, id, s.kept.terminals[id].replayExpiry)
    ensures Apply(c, s, e).kept.terminals[id] == s.kept.terminals[id]
  {
    hide Consistent, ReapFleet, ReapKept;
    if e.Reap? {
      ReadyHasResponse(c, s, id);
      ReapedReady(s.kept, id, e.now);
    } else {
      hide Apply, Enabled;
      RecordUntouched(c, s, e, id);
    }
  }

  lemma {:induction false} ReadyStays(c: Config, r: Run, i: nat, j: nat, id: Identity)
    requires IsRun(c, r) && i <= j < |r.states| && id in r.states[i].kept.terminals
    requires var t := r.states[i].kept.terminals[id];
             && t.retrieval == ResponseReady && t.replayExpiry <= t.expiry
             && forall m: nat | i <= m < j :: !EndsRetrieval(r.log[m], id, t.replayExpiry)
    ensures id in r.states[j].kept.terminals && r.states[j].kept.terminals[id] == r.states[i].kept.terminals[id]
  {
    hide Enabled, Apply, Consistent, Bounded;
    var t := r.states[i].kept.terminals[id];
    if i < j {
      ReadyStays(c, r, i, j - 1, id);
      RunWorkInv(c, r, j - 1);
      assert StepAt(c, r, j - 1);
      assert !EndsRetrieval(r.log[j - 1], id, t.replayExpiry);
      RecordsAreFinal(c, r.states[j - 1], r.log[j - 1], id);
      ReadyStep(c, r.states[j - 1], r.log[j - 1], id);
    }
  }

  lemma ReadyAnswer(c: Config, s: State, id: Identity, credential: Option<Digest>, now: Time)
    requires Consistent(s) && id in s.kept.terminals && s.kept.terminals[id].retrieval == ResponseReady
    ensures var t, d := s.kept.terminals[id], RetrieveCall(s, id, credential, NoAck, now);
            && t.response.Some?
            && d == Answer(if credential.Some? && t.retrievalCredential == credential
                           then Ready(t.response.value, AckToken(id, t.acceptedAt, t.response.value), t.replayExpiry)
                           else InvalidCredential)
  {
    hide WorkInv, QueueInv, ClaimInv, FleetInv, HousedInv, OverInv, KeptInv, CursorInv;
    ReadyHasResponse(c, s, id);
  }

  /**
    The token issued with the reservation, and no other, opens the accepted response from then until it
    is acknowledged or its replay time has been reaped; the cancel token given on enqueueing, and no
    other, is then told that the request was completed.
  */
  lemma TokenOpensResponse(c: Config, r: Run, i: nat, j: nat, k: nat, n: nat, id: Identity, credential: Option<Digest>,
                           cancel: Option<Digest>, now: Time)
    requires IsRun(c, r) && i < j < k < |r.log| && k < n < |r.states|
    requires r.log[i].Reserve? && r.log[i].id == id && r.log[j].Enqueue? && r.log[j].id == id
    requires r.log[k].Accept? && r.log[k].id == id
    requires forall m: nat | i < m < k :: !Leaves(r.log[m], id) && (m != j ==> !(r.log[m].Enqueue? && r.log[m].id == id))
    requires forall m: nat | k < m < n :: !EndsRetrieval(r.log[m], id, r.log[k].now + c.replayTtl)
    ensures var answer, at := r.log[k].envelope, r.log[k].now;
            && RetrieveCall(r.states[n], id, credential, NoAck, now)
                 == Answer(if credential == Some(r.log[i].reservation.token)
                           then Ready(answer, AckToken(id, at, answer), at + c.replayTtl) else InvalidCredential)
            && CancelCall(c, r.states[n], id, cancel, false, now)
                 == Answer(if cancel == Some(r.log[j].cancelToken)
                           then Concluded(Completed, ResponseCompleted, false) else InvalidProof)
  {
    hide StepAt, Consistent, Leaves, EndsRetrieval, RetrieveCall, Config.Valid;
    AnsweredSecrets(c, r, i, j, k, id);
    RetentionIsLonger(c);
    ReadyStays(c, r, k + 1, n, id);
    RunWorkInv(c, r, n);
    ReadyAnswer(c, r.states[n], id, credential, now);
  }

  lemma RetentionIsLonger(c: Config)
    requires c.Valid()
    ensures c.replayTtl <= c.terminalRetention
  {
  }

  /** Every answer to a retrieval, by the record of the request. */
  lemma RetrievalAnsweredBy(c: Config, s: State, id: Identity, credential: Option<Digest>, supplied: SuppliedAck, now: Time)
    requires Consistent(s)
    ensures var d := RetrieveCall(s, id, credential, supplied, now);
            if !(id in s.kept.terminals && credential.Some? && s.kept.terminals[id].retrievalCredential == credential) then
              d == Answer(InvalidCredential)
            else
              var t := s.kept.terminals[id];
              var answer := d.outcome.value;
              && t.response.Some?
              && var right := supplied == Ack(AckToken(id, t.acceptedAt, t.response.value));
              && (answer.Ready? <==> t.retrieval == ResponseReady && supplied.NoAck?)
              && (answer == Closed(Acknowledged) <==>
                    || (t.retrieval == ResponseReady && right)
                    || (t.retrieval == Acknowledged && (supplied.NoAck? || right)))
              && (answer == Closed(RetrievalExpired) <==> t.retrieval == RetrievalExpired)
              && (answer == InvalidAcknowledgement <==>
                    (t.retrieval == ResponseReady || t.retrieval == Acknowledged) && !supplied.NoAck? && !right)
              && answer != InvalidCredential
  {
    hide WorkInv, QueueInv, ClaimInv, FleetInv, HousedInv, OverInv, KeptInv, CursorInv;
    ReadyHasResponse(c, s, id);
  }

  /** How retrieval ends, for good: acknowledged, or expired. */
  lemma RetrievalEnds(c: Config, s: State, e: Event, id: Identity)
    requires Consistent(s) && Enabled(c, s, e) && id in s.kept.terminals && s.kept.terminals[id].retrieval == ResponseReady
    requires id in Apply(c, s, e).kept.terminals && EndsRetrieval(e, id, s.kept.terminals[id].replayExpiry)
    ensures var t := Apply(c, s, e).kept;
            && t.terminals[id] == s.kept.terminals[id].(retrieval := if e.Reap? then RetrievalExpired else Acknowledged)
            && id !in t.responses
  {
    hide WorkInv, QueueInv, ClaimInv, FleetInv, HousedInv, OverInv, KeptInv, CursorInv, ReapFleet;
    ReadyHasResponse(c, s, id);
  }

  // ----- What is told of a request that is over -----

  function VerdictOf(e: Event): Verdict
    requires Concludes(e)
  {
    if e.Accept? then Completed else if e.Expire? then Expired else Cancelled
  }

  function ReasonOf(e: Event): Reason
    requires Concludes(e)
  {
    if e.Accept? then ResponseCompleted
    else if e.Expire? then DeadlineExpired
    else if e.Teardown? then ServerUnregistered
    else RequesterCancelled
  }

  function CancelTokenOf(w: Work, id: Identity): Option<Digest> {
    if id in w.cancelTokens then Some(w.cancelTokens[id]) else None
  }

  /** What the record of a conclusion says, and for how long it is kept. */
  lemma ConclusionRecord(c: Config, s: State, e: Event)
    requires c.Valid() && Enabled(c, s, e) && Concludes(e)
    ensures var k := Apply(c, s, e).kept;
            && e.id in k.terminals
            && var t := k.terminals[e.id];
            && t.verdict == VerdictOf(e) && t.reason == ReasonOf(e) && t.cancelToken == CancelTokenOf(s.work, e.id)
            && t.acceptedAt == e.now && t.expiry == e.now + c.terminalRetention
            && (e.id in k.controls && e.id !in s.kept.controls ==>
                  && k.controls[e.id].reason == ReasonOf(e) && k.controls[e.id].verdict == VerdictOf(e)
                  && k.controls[e.id].expiry == e.now + c.controlTtl && e.id in s.leases.claims
                  && k.controls[e.id].deadline == s.leases.claims[e.id].deadline)
  {
    hide CanTerminalize, ResponseRoom, RemoveWork;
  }

  lemma RecordAnswer(c: Config, s: State, id: Identity, token: Option<Digest>, expire: bool, now: Time)
    requires id in s.kept.terminals
    ensures var t := s.kept.terminals[id];
            CancelCall(c, s, id, token, expire, now)
              == Answer(if expire || (token.Some? && token == t.cancelToken) then Concluded(t.verdict, t.reason, false)
                        else InvalidProof)
  {
  }

  /**
    For as long as the record is retained, whoever holds the request's cancel token, and whoever asks
    for its expiry, is told exactly how it ended; nobody else is, and nothing changes.
  */
  lemma ConclusionIsTold(c: Config, r: Run, i: nat, n: nat, token: Option<Digest>, expire: bool, now: Time)
    requires IsRun(c, r) && i < |r.log| && i < n < |r.states| && Concludes(r.log[i])
    requires NotReapedAt(r, i + 1, n, r.log[i].now + c.terminalRetention)
    ensures var e := r.log[i];
            CancelCall(c, r.states[n], e.id, token, expire, now)
              == Answer(if expire || (token.Some? && token == CancelTokenOf(r.states[i].work, e.id))
                        then Concluded(VerdictOf(e), ReasonOf(e), false) else InvalidProof)
  {
    hide Enabled, Apply, CancelCall, Config.Valid;
    assert StepAt(c, r, i);
    ConclusionRecord(c, r.states[i], r.log[i]);
    RecordStays(c, r, i + 1, n, r.log[i].id);
    RecordAnswer(c, r.states[n], r.log[i].id, token, expire, now);
  }

  lemma EnqueuedPlace(c: Config, s: State, e: Event)
    requires Enabled(c, s, e) && e.Enqueue? && WorkInv(s.work)
    ensures var w := Apply(c, s, e).work;
            && e.id in w.queued
            && PlacedAs(w, e.id, w.queued[e.id].node, w.queued[e.id].fingerprint, w.queued[e.id].deadline, Some(e.cancelToken))
  {
    hide QueueRoom;
  }

  lemma PlacedToken(w: Work, id: Identity, node: NodeId, fp: Fingerprint, deadline: Time, cancel: Option<Digest>)
    requires Held(w, id) && PlacedAs(w, id, node, fp, deadline, cancel) && cancel.Some?
    ensures CancelTokenOf(w, id) == cancel
  {
  }

  /** The cancel token of a request is the one given with its reservation or when it was enqueued. */
  lemma GivenToken(c: Config, r: Run, i: nat, k: nat, id: Identity, cancel: Digest)
    requires IsRun(c, r) && i < |r.log| && i < k < |r.states|
    requires (r.log[i].Reserve? && r.log[i].cancel == Some(cancel)) || (r.log[i].Enqueue? && r.log[i].cancelToken == cancel)
    requires r.log[i].id == id && forall m: nat | i < m < k :: !Leaves(r.log[m], id)
    ensures CancelTokenOf(r.states[k].work, id) == Some(cancel)
  {
    hide Enabled, Apply, PlacedAs, Held, Leaves, Consistent, Bounded, CancelTokenOf;
    assert StepAt(c, r, i);
    RunWorkInv(c, r, i);
    var w := r.states[i + 1].work;
    if r.log[i].Reserve? {
      var p := r.log[i].reservation;
      ReservedPlaced(c, r.states[i], r.log[i]);
      PlacedStays(c, r, i + 1, k, id, p.node, p.fingerprint, p.deadline, Some(cancel));
      PlacedToken(r.states[k].work, id, p.node, p.fingerprint, p.deadline, Some(cancel));
    } else {
      EnqueuedPlace(c, r.states[i], r.log[i]);
      QueuedIsHeld(w, id);
      var q := w.queued[id];
      PlacedStays(c, r, i + 1, k, id, q.node, q.fingerprint, q.deadline, Some(cancel));
      PlacedToken(r.states[k].work, id, q.node, q.fingerprint, q.deadline, Some(cancel));
    }
  }

  lemma QueuedIsHeld(w: Work, id: Identity)
    requires id in w.queued
    ensures Held(w, id)
  {
  }

  // ----- What is told of a node that is gone -----

  /** The fence tells when and why the node was removed. */
  predicate Remembers(f: Fleet, k: FenceKey, cause: Cause, at: Time) {
    k in f.fences && f.fences[k].cause == cause && f.fences[k].transitionAt == at
  }

  lemma RemovalRemembered(c: Config, s: State, e: Event)
    requires Enabled(c, s, e) && e.StartTransition?
    ensures e.node in s.fleet.nodes
    ensures Remembers(Apply(c, s, e).fleet, FenceKey(e.node, s.fleet.nodes[e.node].credential), e.cause, e.now)
  {
    hide TransitionRoom, CursorsWithout;
  }

  lemma RemembersStep(c: Config, s: State, e: Event, k: FenceKey, cause: Cause, at: Time)
    requires FleetInv(s.fleet) && Enabled(c, s, e) && Remembers(s.fleet, k, cause, at) && k in Apply(c, s, e).fleet.fences
    ensures Remembers(Apply(c, s, e).fleet, k, cause, at)
  {
    hide CanTerminalize, TransitionRoom, ResponseRoom, ClaimRoom, QueueRoom, LifecycleRoom, Selected, Evicts,
         TerminalFor, Conclude, ReapKept, RemoveWork, ReserveWork, EnqueueWork, AdvanceCursor, CompletedBy, ResponseTo,
         LiveOwnedClaim, CursorsWithout;
  }

  lemma {:induction false} RemembersStays(c: Config, r: Run, i: nat, j: nat, k: FenceKey, cause: Cause, at: Time)
    requires IsRun(c, r) && i <= j < |r.states| && Remembers(r.states[i].fleet, k, cause, at)
    requires forall m | i <= m <= j :: k in r.states[m].fleet.fences
    ensures Remembers(r.states[j].fleet, k, cause, at)
  {
    hide Enabled, Apply, Consistent, Bounded, Remembers, FleetInv;
    if i < j {
      RemembersStays(c, r, i, j - 1, k, cause, at);
      RunInv(c, r, j - 1);
      InvSaysFleet(c, r.states[j - 1]);
      assert StepAt(c, r, j - 1);
      RemembersStep(c, r.states[j - 1], r.log[j - 1], k, cause, at);
    }
  }

  /** The tombstone of the node, while it has one, tells the same, and no other owner's removal. */
  predicate Marks(f: Fleet, n: NodeId, owner: Digest, cause: Cause, at: Time) {
    n in f.nodeTombstones ==>
      var t := f.nodeTombstones[n];
      t.credential == owner && t.cause == cause && t.transitionAt == at
  }

  lemma RemovalMarked(c: Config, s: State, e: Event)
    requires Enabled(c, s, e) && e.StartTransition?
    ensures e.node in s.fleet.nodes && Marks(Apply(c, s, e).fleet, e.node, s.fleet.nodes[e.node].credential, e.cause, e.now)
  {
    hide TransitionRoom, CursorsWithout;
  }

  lemma MarksStep(c: Config, s: State, e: Event, n: NodeId, owner: Digest, cause: Cause, at: Time)
    requires Enabled(c, s, e) && Marks(s.fleet, n, owner, cause, at) && !(e.StartTransition? && e.node == n)
    ensures Marks(Apply(c, s, e).fleet, n, owner, cause, at)
  {
    hide CanTerminalize, TransitionRoom, ResponseRoom, ClaimRoom, QueueRoom, LifecycleRoom, Selected, Evicts,
         TerminalFor, Conclude, ReapKept, RemoveWork, ReserveWork, EnqueueWork, AdvanceCursor, CompletedBy, ResponseTo,
         LiveOwnedClaim, CursorsWithout;
  }

  lemma {:induction false} MarksStays(c: Config, r: Run, i: nat, j: nat, n: NodeId, owner: Digest, cause: Cause, at: Time)
    requires IsRun(c, r) && i <= j < |r.states| && Marks(r.states[i].fleet, n, owner, cause, at)
    requires forall m: nat | i <= m < j :: !(r.log[m].StartTransition? && r.log[m].node == n)
    ensures Marks(r.states[j].fleet, n, owner, cause, at)
  {
    hide Enabled, Apply, Marks;
    if i < j {
      MarksStays(c, r, i, j - 1, n, owner, cause, at);
      assert StepAt(c, r, j - 1);
      MarksStep(c, r.states[j - 1], r.log[j - 1], n, owner, cause, at);
    }
  }

  /** With the node neither registered nor pending, its former owner is answered from tombstone or fence. */
  lemma FormerOwnerGate(c: Config, f: Fleet, n: NodeId, owner: Digest, cause: Cause, at: Time, now: Time,
                        answer: Option<Outcome<Transition>>)
    requires n !in f.pending && n !in f.nodes
    requires Remembers(f, FenceKey(n, owner), cause, at) && Marks(f, n, owner, cause, at)
    ensures Gate(c, f, n, Some(owner), ExplicitUnregister, now, answer) ==> answer == Some(Ok(AlreadyComplete(cause, at)))
  {
    assert FenceMatches(f, n, Some(owner), ExplicitUnregister, FenceKey(n, owner));
  }

  /** Anybody else is refused while the node has its tombstone. */
  lemma StrangerGate(c: Config, f: Fleet, n: NodeId, supplied: Option<Digest>, now: Time, answer: Option<Outcome<Transition>>)
    requires n !in f.pending && n !in f.nodes && n in f.nodeTombstones && supplied != Some(f.nodeTombstones[n].credential)
    ensures Gate(c, f, n, supplied, ExplicitUnregister, now, answer) ==> answer == Some(Raised(CredentialMismatch))
  {
  }

  lemma GateAnswers(c: Config, s: State, n: NodeId, supplied: Option<Digest>, cause: Cause, batch: seq<Identity>, now: Time,
                    t: State, events: seq<Event>, out: Outcome<Transition>)
    requires TransitionCall(c, s, n, supplied, cause, batch, now, t, events, out) && n !in s.fleet.pending && n !in s.fleet.nodes
    ensures Gate(c, s.fleet, n, supplied, cause, now, Some(out)) && t == s && events == []
  {
    hide LatestFence, FenceMatches, IsBatch, AdvanceReport;
  }

  /**
    While its fence stands, the former owner of a node that is gone is told when and why it was
    removed, however often it asks, and nothing changes; another owner is refused or finds nothing.
  */
  lemma FormerOwnerIsTold(c: Config, r: Run, i: nat, j: nat, supplied: Option<Digest>, batch: seq<Identity>, now: Time, t: State,
                          events: seq<Event>, out: Outcome<Transition>)
    requires IsRun(c, r) && i < |r.log| && i < j < |r.states| && r.log[i].StartTransition?
    requires var n := r.log[i].node;
             && n in r.states[i].fleet.nodes && n !in r.states[j].fleet.nodes && n !in r.states[j].fleet.pending
             && (forall m | i < m <= j :: FenceKey(n, r.states[i].fleet.nodes[n].credential) in r.states[m].fleet.fences)
             && (forall m: nat | i < m < j :: !(r.log[m].StartTransition? && r.log[m].node == n))
             && TransitionCall(c, r.states[j], n, supplied, ExplicitUnregister, batch, now, t, events, out)
    ensures var n := r.log[i].node;
            var owner := r.states[i].fleet.nodes[n].credential;
            && t == r.states[j] && events == []
            && (supplied == Some(owner) ==> out == Ok(AlreadyComplete(r.log[i].cause, r.log[i].now)))
            && (supplied != Some(owner) && n in r.states[j].fleet.nodeTombstones ==> out == Raised(CredentialMismatch))
  {
    hide Enabled, Apply, Remembers, Consistent, Bounded, Gate, TransitionCall;
    var e, f := r.log[i], r.states[j].fleet;
    var owner := r.states[i].fleet.nodes[e.node].credential;
    assert StepAt(c, r, i);
    RemovalRemembered(c, r.states[i], e);
    RemembersStays(c, r, i + 1, j, FenceKey(e.node, owner), e.cause, e.now);
    RemovalMarked(c, r.states[i], e);
    MarksStays(c, r, i + 1, j, e.node, owner, e.cause, e.now);
    GateAnswers(c, r.states[j], e.node, supplied, ExplicitUnregister, batch, now, t, events, out);
    if supplied == Some(owner) {
      FormerOwnerGate(c, f, e.node, owner, e.cause, e.now, now, Some(out));
    } else if e.node in f.nodeTombstones {
      StrangerGate(c, f, e.node, supplied, now, Some(out));
    }
  }
}
