/**
  The representation invariant of the store, group by group, and the proof that every event keeps
  it.  Nothing here assumes anything about the clock: it may even run backwards.
*/
module StoreInvariant {
  import opened RelayTypes
  import opened StoreState

  // ----- The invariant -----

  predicate Sorted(q: seq<QueuedRequest>) {
    forall i, j | 0 <= i < j < |q| :: q[i].sequence < q[j].sequence
  }

  /** Reserved and queued identities are disjoint and every index agrees with them. */
  ghost predicate WorkInv(w: Work) {
    && (forall id :: !(id in w.reservations && id in w.queued))
    && (forall id | id in w.queued :: w.queued[id].id == id && w.queued[id].sequence <= w.nextSequence)
    && (forall n | n in w.nodeWork :: w.nodeWork[n] != {})
    && (forall n, id :: id in WorkOf(w, n) <==> Held(w, id) && NodeOf(w, id) == n)
    && w.queuedTokens.Keys == w.queued.Keys
    && w.queued.Keys <= w.cancelTokens.Keys
    && (forall id | id in w.cancelTokens :: Held(w, id))
  }

  /** The per-node queues partition the queued map, each in strictly increasing sequence. */
  ghost predicate QueueInv(w: Work) {
    && (forall n | n in w.nodeQueues :: w.nodeQueues[n] != [])
    && (forall n, q :: q in QueueOf(w, n) <==> q.id in w.queued && w.queued[q.id] == q && q.node == n)
    && (forall n :: Sorted(QueueOf(w, n)))
  }

  predicate OwnerIs(f: Fleet, n: NodeId, owner: Digest) {
    || (n in f.nodes && f.nodes[n].credential == owner)
    || (n in f.pending && f.pending[n].credential == owner)
  }

  predicate ClaimAgrees(k: Claim, q: QueuedRequest) {
    && k.node == q.node && k.deadline == q.deadline
    && k.sequence == q.sequence && k.envelope == q.envelope
    && k.lease <= k.deadline
  }

  /** Claims sit on queued work, agree with it and its node's owner, and never share a generation. */
  ghost predicate ClaimInv(l: Leases, w: Work, f: Fleet) {
    && (forall id | id in l.claims ::
          && id in w.queued
          && ClaimAgrees(l.claims[id], w.queued[id])
          && 1 <= l.claims[id].generation <= l.nextGeneration
          && OwnerIs(f, l.claims[id].node, l.claims[id].credential))
    && (forall i, j | i in l.claims && j in l.claims && l.claims[i].generation == l.claims[j].generation ::
          i == j)
  }

  /** Owners, their fences and their pending transitions never overlap. */
  ghost predicate FleetInv(f: Fleet) {
    && f.scheduler.Keys == f.nodes.Keys
    && f.order.Keys == f.nodes.Keys
    && (forall n | n in f.order :: f.order[n] < f.nextOrder)
    && (forall m, n | m in f.order && n in f.order && f.order[m] == f.order[n] :: m == n)
    && (forall n | n in f.nodes :: n !in f.pending)
    && (forall n | n in f.pending :: FenceKey(n, f.pending[n].credential) in f.fences)
    && (forall n | n in f.nodes :: FenceKey(n, f.nodes[n].credential) !in f.fences)
  }

  /** Work sits only on registered nodes or on nodes being torn down. */
  ghost predicate HousedInv(w: Work, f: Fleet) {
    forall id | Held(w, id) :: NodeOf(w, id) in f.nodes || NodeOf(w, id) in f.pending
  }

  /** A request that has a terminal record is no longer live work. */
  ghost predicate OverInv(w: Work, k: Kept) {
    forall id | Held(w, id) :: id !in k.terminals
  }

  predicate TerminalShape(id: Identity, t: Terminal, nextGeneration: nat) {
    && t.generation <= nextGeneration
    && (t.verdict == Completed <==> t.retrieval != CompletedUnavailable)
    && (t.verdict == Completed <==> t.response.Some?)
    && (t.verdict == Completed <==> t.retrievalCredential.Some?)
    && (t.verdict == Completed ==>
          && t.generation >= 1 && t.credential.Some? && t.consumer.Some? && t.cancelToken.Some?
          && t.acknowledgement == Some(AckToken(id, t.acceptedAt, t.response.value))
          && t.replayExpiry <= t.expiry)
  }

  predicate ResponseMatches(r: Response, t: Terminal) {
    && t.retrieval == ResponseReady
    && t.response == Some(r.envelope)
    && t.node == r.node && t.consumer == Some(r.consumer) && t.generation == r.generation
    && t.acceptedAt == r.acceptedAt && t.replayExpiry == r.replayExpiry
  }

  predicate ControlMatches(k: ControlTombstone, t: Terminal) {
    && t.verdict != Completed && k.verdict == t.verdict && k.reason == t.reason
    && t.credential == Some(k.credential) && t.consumer == Some(k.consumer)
    && k.node == t.node && k.generation == t.generation && 1 <= k.generation
    && k.expiry <= t.expiry
  }

  /** Responses and control tombstones are nested inside the retention of their terminals. */
  ghost predicate KeptInv(k: Kept, nextGeneration: nat) {
    && (forall id | id in k.terminals :: TerminalShape(id, k.terminals[id], nextGeneration))
    && (forall id | id in k.terminals && k.terminals[id].retrieval == ResponseReady :: id in k.responses)
    && (forall id | id in k.responses :: id in k.terminals && ResponseMatches(k.responses[id], k.terminals[id]))
    && (forall id | id in k.controls :: id in k.terminals && ControlMatches(k.controls[id], k.terminals[id]))
  }

  ghost predicate CursorInv(a: Fairness, f: Fleet) {
    && (forall g | g in a.cursors :: a.cursors[g].node in f.nodes && a.cursors[g].activity <= a.activity)
    && (forall g, h | g in a.cursors && h in a.cursors && a.cursors[g].activity == a.cursors[h].activity ::
          g == h)
  }

  ghost predicate WorkBounds(c: Config, w: Work) {
    && |w.reservations| <= c.maxReservations
    && |w.reservations| + |w.queued| <= c.maxLifecycles
    && |w.queued| <= c.maxQueued
    && (forall k :: |OfClient(w.reservations.Keys, k)| + |OfClient(w.queued.Keys, k)| <= c.maxReservationsPerClient)
    && (forall k :: |OfClient(w.queued.Keys, k)| <= c.maxQueuedPerClient)
    && (forall n :: |ReservedOn(w.reservations, n)| <= c.maxReservationsPerNode)
    && (forall n :: |ReservedOn(w.reservations, n)| + |QueueOf(w, n)| <= c.maxQueueDepthPerNode)
  }

  ghost predicate KeptBounds(c: Config, k: Kept) {
    && |k.responses| <= c.maxResponses
    && |k.terminals| <= c.maxTerminals
    && |k.controls| <= c.maxControls
    && (forall i :: |OfClient(k.responses.Keys, i)| <= c.maxResponsesPerClient)
    && (forall i :: |OfClient(k.terminals.Keys, i)| <= c.maxTerminalsPerClient)
    && (forall n :: |ControlsOn(k.controls, n)| <= c.maxControlsPerNode)
  }

  ghost predicate FleetBounds(c: Config, f: Fleet) {
    && |f.nodes| <= c.maxNodes
    && |f.pending| <= c.maxPending
    && |f.fences| <= c.maxFences
    && |f.nodeTombstones| <= c.maxNodeTombstones
  }

  /** All maps and indexes of the store agree with each other. */
  ghost predicate Consistent(s: State) {
    && WorkInv(s.work) && QueueInv(s.work)
    && ClaimInv(s.leases, s.work, s.fleet)
    && FleetInv(s.fleet) && HousedInv(s.work, s.fleet)
    && OverInv(s.work, s.kept)
    && KeptInv(s.kept, s.leases.nextGeneration)
    && CursorInv(s.fairness, s.fleet)
  }

  /** Nothing exceeds its configured bound. */
  ghost predicate Bounded(c: Config, s: State) {
    && WorkBounds(c, s.work) && FleetBounds(c, s.fleet) && KeptBounds(c, s.kept)
    && |s.fairness.cursors| <= c.maxFingerprints
  }

  ghost predicate Inv(c: Config, s: State) {
    Consistent(s) && Bounded(c, s)
  }

  lemma InitInv(c: Config)
    ensures Inv(c, Init())
  {
    var s := Init();
    forall k: Digest
      ensures OfClient(s.work.reservations.Keys, k) == {} && OfClient(s.work.queued.Keys, k) == {}
      ensures OfClient(s.kept.responses.Keys, k) == {} && OfClient(s.kept.terminals.Keys, k) == {}
    {
    }
    forall n: NodeId
      ensures ReservedOn(s.work.reservations, n) == {} && QueueOf(s.work, n) == []
      ensures ControlsOn(s.kept.controls, n) == {}
    {
    }
  }

  // ----- Finite sets -----

  lemma SubsetSize<T>(a: set<T>, b: set<T>)
    requires a <= b
    ensures |a| <= |b|
  {
    if a != b {
      assert b == a + (b - a);
    }
  }

  lemma OneMore<T>(a: set<T>, b: set<T>, x: T)
    requires a <= b + {x}
    ensures |a| <= |b| + 1
  {
    SubsetSize(a, b + {x});
  }

  lemma OneMoreOfClient(a: set<Identity>, b: set<Identity>, id: Identity, k: Digest)
    requires a <= b + {id}
    ensures |OfClient(a, k)| <= |OfClient(b, k)| + (if id.client == k then 1 else 0)
  {
    if id.client == k {
      OneMore(OfClient(a, k), OfClient(b, k), id);
    } else {
      SubsetSize(OfClient(a, k), OfClient(b, k));
    }
  }

  // ----- Queues -----

  lemma {:induction false} WithoutAbsent(q: seq<QueuedRequest>, x: QueuedRequest)
    requires x !in q
    ensures Without(q, x) == q
  {
    if q != [] {
      assert q == [q[0]] + q[1..];
      WithoutAbsent(q[1..], x);
    }
  }

  lemma SortedTail(q: seq<QueuedRequest>)
    requires Sorted(q) && q != []
    ensures Sorted(q[1..]) && q == [q[0]] + q[1..]
    ensures forall y | y in q[1..] :: q[0].sequence < y.sequence
  {
    forall y | y in q[1..]
      ensures q[0].sequence < y.sequence
    {
      var i :| 0 <= i < |q[1..]| && q[1..][i] == y;
      assert q[i + 1] == y;
    }
  }

  lemma SortedCons(x: QueuedRequest, q: seq<QueuedRequest>)
    requires Sorted(q) && forall y | y in q :: x.sequence < y.sequence
    ensures Sorted([x] + q)
  {
  }

  lemma {:induction false} WithoutSorted(q: seq<QueuedRequest>, x: QueuedRequest)
    requires Sorted(q)
    ensures Sorted(Without(q, x))
    ensures x in q ==> |Without(q, x)| == |q| - 1
  {
    if q != [] {
      SortedTail(q);
      WithoutSorted(q[1..], x);
      if q[0] == x {
        WithoutAbsent(q[1..], x);
      } else {
        SortedCons(q[0], Without(q[1..], x));
      }
    }
  }

  // ----- Removing one lifecycle from the work maps -----

  lemma RemovedHeld(w: Work, id: Identity)
    requires WorkInv(w) && Held(w, id)
    ensures var v := RemoveWork(w, id);
            && (forall i :: Held(v, i) <==> Held(w, i) && i != id)
            && (forall i | Held(v, i) :: NodeOf(v, i) == NodeOf(w, i) && DeadlineOf(v, i) == DeadlineOf(w, i))
            && (forall n :: WorkOf(v, n) == WorkOf(w, n) - {id})
  {
    var v := RemoveWork(w, id);
    forall n
      ensures WorkOf(v, n) == WorkOf(w, n) - {id}
    {
      assert n != NodeOf(w, id) ==> id !in WorkOf(w, n);
    }
  }

  lemma RemovedWorkInv(w: Work, id: Identity)
    requires WorkInv(w) && Held(w, id)
    ensures WorkInv(RemoveWork(w, id))
  {
    var v := RemoveWork(w, id);
    RemovedHeld(w, id);
    forall n, i
      ensures i in WorkOf(v, n) <==> Held(v, i) && NodeOf(v, i) == n
    {
      assert i in WorkOf(v, n) <==> i in WorkOf(w, n) && i != id;
    }
  }

  lemma RemovedQueue(w: Work, id: Identity, n: NodeId)
    requires WorkInv(w) && QueueInv(w) && Held(w, id)
    ensures var q := QueueOf(RemoveWork(w, id), n);
            && (id in w.queued ==> q == Without(QueueOf(w, n), w.queued[id]))
            && (id !in w.queued ==> q == QueueOf(w, n))
            && Sorted(q) && |q| <= |QueueOf(w, n)|
            && (forall x :: x in q <==> x in QueueOf(w, n) && x.id != id)
  {
    if id in w.queued {
      var x := w.queued[id];
      if n != x.node {
        assert x !in QueueOf(w, n);
        WithoutAbsent(QueueOf(w, n), x);
      }
      WithoutSorted(QueueOf(w, n), x);
    }
  }

  lemma RemovedQueueInv(w: Work, id: Identity)
    requires WorkInv(w) && QueueInv(w) && Held(w, id)
    ensures QueueInv(RemoveWork(w, id))
  {
    var v := RemoveWork(w, id);
    forall n
      ensures Sorted(QueueOf(v, n))
    {
      RemovedQueue(w, id, n);
    }
    forall n, q
      ensures q in QueueOf(v, n) <==> q.id in v.queued && v.queued[q.id] == q && q.node == n
    {
      RemovedQueue(w, id, n);
    }
  }

  lemma RemovedWorkBounds(c: Config, w: Work, id: Identity)
    requires WorkInv(w) && QueueInv(w) && WorkBounds(c, w) && Held(w, id)
    ensures WorkBounds(c, RemoveWork(w, id))
  {
    var v := RemoveWork(w, id);
    SubsetSize(v.reservations.Keys, w.reservations.Keys);
    SubsetSize(v.queued.Keys, w.queued.Keys);
    forall k: Digest
      ensures |OfClient(v.reservations.Keys, k)| <= |OfClient(w.reservations.Keys, k)|
      ensures |OfClient(v.queued.Keys, k)| <= |OfClient(w.queued.Keys, k)|
    {
      SubsetSize(OfClient(v.reservations.Keys, k), OfClient(w.reservations.Keys, k));
      SubsetSize(OfClient(v.queued.Keys, k), OfClient(w.queued.Keys, k));
    }
    forall n: NodeId
      ensures |ReservedOn(v.reservations, n)| <= |ReservedOn(w.reservations, n)|
      ensures |QueueOf(v, n)| <= |QueueOf(w, n)|
    {
      SubsetSize(ReservedOn(v.reservations, n), ReservedOn(w.reservations, n));
      RemovedQueue(w, id, n);
    }
  }

  lemma RemovedClaims(l: Leases, w: Work, f: Fleet, id: Identity)
    requires ClaimInv(l, w, f) && Held(w, id)
    ensures ClaimInv(l.(claims := l.claims - {id}), RemoveWork(w, id), f)
  {
  }

  lemma RemovedElsewhere(w: Work, f: Fleet, k: Kept, m: Kept, id: Identity)
    requires WorkInv(w) && Held(w, id) && HousedInv(w, f) && OverInv(w, k)
    requires m.terminals.Keys <= k.terminals.Keys + {id}
    ensures HousedInv(RemoveWork(w, id), f) && OverInv(RemoveWork(w, id), m)
  {
    RemovedHeld(w, id);
  }

  /** The groups that concern live work survive the removal of `id`. */
  lemma RemovedInv(c: Config, s: State, id: Identity, m: Kept)
    requires Consistent(s) && Held(s.work, id)
    requires m.terminals.Keys <= s.kept.terminals.Keys + {id}
    ensures var w := RemoveWork(s.work, id);
            && WorkInv(w) && QueueInv(w) && (WorkBounds(c, s.work) ==> WorkBounds(c, w))
            && ClaimInv(s.leases.(claims := s.leases.claims - {id}), w, s.fleet)
            && HousedInv(w, s.fleet) && OverInv(w, m)
  {
    hide WorkInv, QueueInv, WorkBounds, ClaimInv, FleetInv, FleetBounds, HousedInv, OverInv, KeptInv,
         KeptBounds, CursorInv;
    RemovedWorkInv(s.work, id);
    RemovedQueueInv(s.work, id);
    if WorkBounds(c, s.work) {
      RemovedWorkBounds(c, s.work, id);
    }
    RemovedClaims(s.leases, s.work, s.fleet, id);
    RemovedElsewhere(s.work, s.fleet, s.kept, m, id);
  }

  // ----- Terminal records -----

  lemma AddedTerminal(c: Config, k: Kept, id: Identity, t: Terminal)
    requires KeptBounds(c, k) && TerminalRoom(c, k, id.client)
    ensures KeptBounds(c, k.(terminals := k.terminals[id := t]))
  {
    var after := k.terminals[id := t].Keys;
    OneMore(after, k.terminals.Keys, id);
    forall i: Digest
      ensures |OfClient(after, i)| <= c.maxTerminalsPerClient
    {
      OneMoreOfClient(after, k.terminals.Keys, id, i);
    }
  }

  lemma AddedControl(c: Config, k: Kept, id: Identity, t: ControlTombstone)
    requires KeptBounds(c, k) && id !in k.controls && ControlRoom(c, k, t.node)
    ensures KeptBounds(c, k.(controls := k.controls[id := t]))
  {
    var after := k.controls[id := t];
    OneMore(after.Keys, k.controls.Keys, id);
    forall n: NodeId
      ensures |ControlsOn(after, n)| <= c.maxControlsPerNode
    {
      if n == t.node {
        OneMore(ControlsOn(after, n), ControlsOn(k.controls, n), id);
      } else {
        SubsetSize(ControlsOn(after, n), ControlsOn(k.controls, n));
      }
    }
  }

  lemma AddedResponse(c: Config, k: Kept, id: Identity, r: Response)
    requires KeptBounds(c, k) && ResponseRoom(c, k, id.client)
    ensures KeptBounds(c, k.(responses := k.responses[id := r]))
  {
    var after := k.responses[id := r].Keys;
    OneMore(after, k.responses.Keys, id);
    forall i: Digest
      ensures |OfClient(after, i)| <= c.maxResponsesPerClient
    {
      OneMoreOfClient(after, k.responses.Keys, id, i);
    }
  }

  lemma ConcludeBounds(c: Config, k: Kept, id: Identity, t: Terminal, control: Option<ControlTombstone>)
    requires KeptBounds(c, k) && TerminalRoom(c, k, id.client) && id !in k.controls
    requires control.Some? ==> ControlRoom(c, k, control.value.node)
    ensures KeptBounds(c, Conclude(k, id, t, control))
  {
    hide KeptBounds;
    AddedTerminal(c, k, id, t);
    if control.Some? {
      AddedControl(c, k.(terminals := k.terminals[id := t]), id, control.value);
    }
  }

  lemma ConcludeInv(k: Kept, id: Identity, t: Terminal, control: Option<ControlTombstone>, nextGeneration: nat)
    requires KeptInv(k, nextGeneration) && id !in k.terminals
    requires TerminalShape(id, t, nextGeneration) && t.verdict != Completed
    requires control.Some? ==> ControlMatches(control.value, t)
    ensures KeptInv(Conclude(k, id, t, control), nextGeneration)
  {
    assert id !in k.controls && id !in k.responses;
  }

  lemma ConcludedRecords(c: Config, s: State, id: Identity, verdict: Verdict, reason: Reason,
                         force: bool, now: Time)
    requires c.Valid() && Held(s.work, id) && verdict != Completed
    requires id in s.leases.claims ==>
               && s.leases.claims[id].node == NodeOf(s.work, id)
               && 1 <= s.leases.claims[id].generation <= s.leases.nextGeneration
    ensures var claim := TombstoneClaim(s, id, verdict, force, now);
            var t := TerminalFor(c, s.work, id, claim, verdict, reason, now);
            && t.verdict == verdict
            && TerminalShape(id, t, s.leases.nextGeneration)
            && (claim.Some? ==> ControlMatches(ControlOf(c, claim.value, verdict, reason, now), t))
  {
  }

  /** Live work has no terminal record, no tombstone, and claims only on its own node. */
  lemma LiveIsNotOver(c: Config, s: State, id: Identity)
    requires Consistent(s) && Held(s.work, id)
    ensures id !in s.kept.terminals && id !in s.kept.controls && id !in s.kept.responses
    ensures id in s.leases.claims ==>
              && id in s.work.queued && id !in s.work.reservations
              && s.leases.claims[id].node == NodeOf(s.work, id)
              && s.leases.claims[id].lease <= DeadlineOf(s.work, id)
              && 1 <= s.leases.claims[id].generation <= s.leases.nextGeneration
  {
  }

  lemma TerminalizeInv(c: Config, s: State, id: Identity, verdict: Verdict, reason: Reason,
                       force: bool, now: Time)
    requires c.Valid() && Consistent(s) && Held(s.work, id) && verdict != Completed
    requires CanTerminalize(c, s, id, verdict, force, now)
    ensures Consistent(Terminalize(c, s, id, verdict, reason, force, now))
    ensures Bounded(c, s) ==> Bounded(c, Terminalize(c, s, id, verdict, reason, force, now))
  {
    hide WorkInv, QueueInv, WorkBounds, ClaimInv, FleetInv, FleetBounds, HousedInv, OverInv, KeptInv,
         KeptBounds, CursorInv, TerminalFor, ControlMatches, TerminalShape, TerminalRoom;
    var claim := TombstoneClaim(s, id, verdict, force, now);
    var t := TerminalFor(c, s.work, id, claim, verdict, reason, now);
    var control := if claim.Some? then Some(ControlOf(c, claim.value, verdict, reason, now)) else None;
    LiveIsNotOver(c, s, id);
    RemovedInv(c, s, id, Conclude(s.kept, id, t, control));
    ConcludedRecords(c, s, id, verdict, reason, force, now);
    ConcludeInv(s.kept, id, t, control, s.leases.nextGeneration);
    if Bounded(c, s) {
      ConcludeBounds(c, s.kept, id, t, control);
    }
  }

  lemma AcceptKept(c: Config, k: Kept, w: Work, id: Identity, claim: Claim, envelope: Envelope,
                   now: Time, nextGeneration: nat)
    requires c.Valid() && KeptInv(k, nextGeneration) && id !in k.terminals
    requires id in w.queuedTokens && id in w.cancelTokens && 1 <= claim.generation <= nextGeneration
    ensures KeptInv(k.(responses := k.responses[id := ResponseTo(c, claim, envelope, now)],
                       terminals := k.terminals[id := CompletedBy(c, w, id, claim, envelope, now)]),
                    nextGeneration)
  {
  }

  lemma AcceptInv(c: Config, s: State, e: Event)
    requires c.Valid() && Consistent(s) && e.Accept? && Enabled(c, s, e)
    ensures Consistent(Apply(c, s, e))
    ensures Bounded(c, s) ==> Bounded(c, Apply(c, s, e))
  {
    hide WorkInv, QueueInv, WorkBounds, ClaimInv, FleetInv, FleetBounds, HousedInv, OverInv, KeptInv,
         KeptBounds, CursorInv;
    var k := Apply(c, s, e).kept;
    LiveIsNotOver(c, s, e.id);
    RemovedInv(c, s, e.id, k);
    AcceptKept(c, s.kept, s.work, e.id, s.leases.claims[e.id], e.envelope, e.now, s.leases.nextGeneration);
    if Bounded(c, s) {
      AddedResponse(c, s.kept, e.id, k.responses[e.id]);
      AddedTerminal(c, s.kept.(responses := k.responses), e.id, k.terminals[e.id]);
    }
  }

  lemma DropReservationInv(c: Config, s: State, e: Event)
    requires Consistent(s) && e.DropReservation? && Enabled(c, s, e)
    ensures Consistent(Apply(c, s, e))
    ensures Bounded(c, s) ==> Bounded(c, Apply(c, s, e))
  {
    hide WorkInv, QueueInv, WorkBounds, ClaimInv, FleetInv, FleetBounds, HousedInv, OverInv, KeptInv,
         KeptBounds, CursorInv;
    LiveIsNotOver(c, s, e.id);
    RemovedInv(c, s, e.id, s.kept);
    assert s.leases.claims - {e.id} == s.leases.claims;
  }

  // ----- Housekeeping and the fleet -----

  lemma ReapKeptInv(k: Kept, nextGeneration: nat, now: Time)
    requires KeptInv(k, nextGeneration)
    ensures KeptInv(ReapKept(k, now), nextGeneration)
  {
    var m := ReapKept(k, now);
    forall id | id in m.terminals
      ensures TerminalShape(id, m.terminals[id], nextGeneration)
    {
      assert TerminalShape(id, k.terminals[id], nextGeneration);
    }
    forall id | id in m.controls
      ensures id in m.terminals && ControlMatches(m.controls[id], m.terminals[id])
    {
      assert ControlMatches(k.controls[id], k.terminals[id]);
    }
  }

  lemma ReapKeptBounds(c: Config, k: Kept, now: Time)
    requires KeptBounds(c, k)
    ensures KeptBounds(c, ReapKept(k, now))
  {
    var m := ReapKept(k, now);
    SubsetSize(m.responses.Keys, k.responses.Keys);
    SubsetSize(m.terminals.Keys, k.terminals.Keys);
    SubsetSize(m.controls.Keys, k.controls.Keys);
    forall i: Digest
      ensures |OfClient(m.responses.Keys, i)| <= |OfClient(k.responses.Keys, i)|
      ensures |OfClient(m.terminals.Keys, i)| <= |OfClient(k.terminals.Keys, i)|
    {
      SubsetSize(OfClient(m.responses.Keys, i), OfClient(k.responses.Keys, i));
      SubsetSize(OfClient(m.terminals.Keys, i), OfClient(k.terminals.Keys, i));
    }
    forall n: NodeId
      ensures |ControlsOn(m.controls, n)| <= |ControlsOn(k.controls, n)|
    {
      SubsetSize(ControlsOn(m.controls, n), ControlsOn(k.controls, n));
    }
  }

  lemma ReapFleetInv(c: Config, f: Fleet, now: Time)
    ensures FleetInv(f) ==> FleetInv(ReapFleet(f, now))
    ensures FleetBounds(c, f) ==> FleetBounds(c, ReapFleet(f, now))
  {
    var g := ReapFleet(f, now);
    SubsetSize(g.fences.Keys, f.fences.Keys);
    SubsetSize(g.nodeTombstones.Keys, f.nodeTombstones.Keys);
  }

  lemma ReapElsewhere(l: Leases, w: Work, f: Fleet, k: Kept, a: Fairness, now: Time)
    ensures ClaimInv(l, w, f) ==> ClaimInv(l, w, ReapFleet(f, now))
    ensures HousedInv(w, f) ==> HousedInv(w, ReapFleet(f, now))
    ensures CursorInv(a, f) ==> CursorInv(a, ReapFleet(f, now))
    ensures OverInv(w, k) ==> OverInv(w, ReapKept(k, now))
  {
  }

  lemma ReapInv(c: Config, s: State, now: Time)
    requires Consistent(s)
    ensures Consistent(Apply(c, s, Reap(now)))
    ensures Bounded(c, s) ==> Bounded(c, Apply(c, s, Reap(now)))
  {
    hide WorkInv, QueueInv, WorkBounds, ClaimInv, FleetInv, FleetBounds, HousedInv, OverInv, KeptInv,
         KeptBounds, CursorInv;
    ReapElsewhere(s.leases, s.work, s.fleet, s.kept, s.fairness, now);
    ReapKeptInv(s.kept, s.leases.nextGeneration, now);
    if Bounded(c, s) {
      ReapKeptBounds(c, s.kept, now);
    }
    ReapFleetInv(c, s.fleet, now);
  }

  lemma PutSize<K, V>(m: map<K, V>, k: K, v: V)
    ensures |m[k := v]| == if k in m then |m| else |m| + 1
  {
    if k in m {
      assert m[k := v].Keys == m.Keys;
      assert |m[k := v]| == |m[k := v].Keys|;
    }
  }

  lemma StartFleetBounds(c: Config, f: Fleet, n: NodeId, cause: Cause, idle: bool, now: Time)
    requires FleetBounds(c, f) && n in f.nodes && TransitionRoom(c, f, n)
    ensures FleetBounds(c, StartFleet(c, f, n, cause, idle, now))
  {
    var g := StartFleet(c, f, n, cause, idle, now);
    var fence := FenceKey(n, f.nodes[n].credential);
    SubsetSize(g.nodes.Keys, f.nodes.Keys);
    PutSize(f.pending, n, g.pending[n]);
    PutSize(f.fences, fence, g.fences[fence]);
    PutSize(f.nodeTombstones, n, g.nodeTombstones[n]);
  }

  lemma StartFleetInv(c: Config, f: Fleet, n: NodeId, cause: Cause, idle: bool, now: Time)
    requires FleetInv(f) && n in f.nodes
    ensures FleetInv(StartFleet(c, f, n, cause, idle, now))
  {
  }

  lemma StartElsewhere(c: Config, l: Leases, w: Work, f: Fleet, a: Fairness, n: NodeId, cause: Cause,
                       idle: bool, now: Time)
    requires n in f.nodes && n !in f.pending
    ensures var g := StartFleet(c, f, n, cause, idle, now);
            && (ClaimInv(l, w, f) ==> ClaimInv(l, w, g))
            && (HousedInv(w, f) ==> HousedInv(w, g))
  {
  }

  lemma StartCursors(c: Config, a: Fairness, f: Fleet, n: NodeId, cause: Cause, idle: bool, now: Time)
    requires n in f.nodes && CursorInv(a, f)
    ensures var b := a.(cursors := CursorsWithout(a.cursors, n));
            CursorInv(b, StartFleet(c, f, n, cause, idle, now)) && |b.cursors| <= |a.cursors|
  {
    SubsetSize(CursorsWithout(a.cursors, n).Keys, a.cursors.Keys);
  }

  lemma RegisteredIsNotPending(f: Fleet, n: NodeId)
    requires FleetInv(f) && n in f.nodes
    ensures n !in f.pending && FenceKey(n, f.nodes[n].credential) !in f.fences
  {
  }

  lemma StartTransitionInv(c: Config, s: State, e: Event)
    requires Consistent(s) && e.StartTransition? && Enabled(c, s, e)
    ensures Consistent(Apply(c, s, e))
    ensures Bounded(c, s) ==> Bounded(c, Apply(c, s, e))
  {
    hide WorkInv, QueueInv, WorkBounds, ClaimInv, FleetInv, FleetBounds, HousedInv, OverInv, KeptInv,
         KeptBounds, CursorInv;
    var idle := WorkOf(s.work, e.node) == {};
    RegisteredIsNotPending(s.fleet, e.node);
    StartFleetInv(c, s.fleet, e.node, e.cause, idle, e.now);
    if Bounded(c, s) {
      StartFleetBounds(c, s.fleet, e.node, e.cause, idle, e.now);
    }
    StartElsewhere(c, s.leases, s.work, s.fleet, s.fairness, e.node, e.cause, idle, e.now);
    StartCursors(c, s.fairness, s.fleet, e.node, e.cause, idle, e.now);
  }

  lemma CompleteFleetInv(c: Config, f: Fleet, n: NodeId, now: Time)
    requires n in f.pending && FenceKey(n, f.pending[n].credential) in f.fences
    ensures FleetInv(f) ==> FleetInv(CompleteFleet(c, f, n, now))
    ensures FleetBounds(c, f) ==> FleetBounds(c, CompleteFleet(c, f, n, now))
  {
    var g := CompleteFleet(c, f, n, now);
    SubsetSize(g.pending.Keys, f.pending.Keys);
    assert g.fences.Keys == f.fences.Keys;
    assert g.nodeTombstones.Keys == f.nodeTombstones.Keys;
  }

  lemma IdleNodeHoldsNothing(w: Work, n: NodeId)
    requires WorkInv(w) && WorkOf(w, n) == {}
    ensures forall id | Held(w, id) :: NodeOf(w, id) != n
  {
    forall id | Held(w, id)
      ensures NodeOf(w, id) != n
    {
      assert id in WorkOf(w, NodeOf(w, id));
    }
  }

  lemma CompleteClaims(c: Config, l: Leases, w: Work, f: Fleet, n: NodeId, now: Time)
    requires n in f.pending && FenceKey(n, f.pending[n].credential) in f.fences
    requires ClaimInv(l, w, f) && forall id | id in l.claims :: l.claims[id].node != n
    ensures ClaimInv(l, w, CompleteFleet(c, f, n, now))
  {
  }

  lemma CompleteElsewhere(c: Config, l: Leases, w: Work, f: Fleet, a: Fairness, n: NodeId, now: Time)
    requires n in f.pending && FenceKey(n, f.pending[n].credential) in f.fences
    requires WorkInv(w) && WorkOf(w, n) == {} && HousedInv(w, f)
    ensures var g := CompleteFleet(c, f, n, now);
            HousedInv(w, g) && (CursorInv(a, f) ==> CursorInv(a, g))
  {
    IdleNodeHoldsNothing(w, n);
  }

  lemma ClaimedIsHeld(l: Leases, w: Work, f: Fleet, n: NodeId)
    requires WorkInv(w) && WorkOf(w, n) == {} && ClaimInv(l, w, f)
    ensures forall id | id in l.claims :: l.claims[id].node != n
  {
    IdleNodeHoldsNothing(w, n);
    forall id | id in l.claims
      ensures l.claims[id].node != n
    {
      assert Held(w, id) && NodeOf(w, id) == l.claims[id].node;
    }
  }

  lemma CompleteTransitionInv(c: Config, s: State, e: Event)
    requires Consistent(s) && e.CompleteTransition? && Enabled(c, s, e)
    ensures Consistent(Apply(c, s, e))
    ensures Bounded(c, s) ==> Bounded(c, Apply(c, s, e))
  {
    hide WorkInv, QueueInv, WorkBounds, ClaimInv, FleetInv, FleetBounds, HousedInv, OverInv, KeptInv,
         KeptBounds, CursorInv;
    CompleteFleetInv(c, s.fleet, e.node, e.now);
    ClaimedIsHeld(s.leases, s.work, s.fleet, e.node);
    CompleteClaims(c, s.leases, s.work, s.fleet, e.node, e.now);
    CompleteElsewhere(c, s.leases, s.work, s.fleet, s.fairness, e.node, e.now);
  }

  lemma RegisterFleetInv(c: Config, f: Fleet, n: NodeId, caps: Capabilities, owner: Digest, now: Time)
    requires n !in f.pending && n !in f.nodes && FenceKey(n, owner) !in f.fences
    ensures FleetInv(f) ==> FleetInv(RegisterFleet(c, f, n, caps, owner, now))
  {
  }

  lemma RegisterClaims(c: Config, l: Leases, w: Work, f: Fleet, n: NodeId, caps: Capabilities,
                       owner: Digest, now: Time)
    requires n !in f.nodes && ClaimInv(l, w, f)
    ensures ClaimInv(l, w, RegisterFleet(c, f, n, caps, owner, now))
  {
  }

  lemma RegisterElsewhere(c: Config, w: Work, f: Fleet, a: Fairness, n: NodeId,
                          caps: Capabilities, owner: Digest, now: Time)
    requires n !in f.nodes
    ensures var g := RegisterFleet(c, f, n, caps, owner, now);
            && (HousedInv(w, f) ==> HousedInv(w, g))
            && (CursorInv(a, f) ==> CursorInv(a, g))
            && (FleetBounds(c, f) && |f.nodes| < c.maxNodes ==> FleetBounds(c, g))
  {
    OneMore(RegisterFleet(c, f, n, caps, owner, now).nodes.Keys, f.nodes.Keys, n);
  }

  lemma RegisterInv(c: Config, s: State, e: Event)
    requires Consistent(s) && e.Register? && Enabled(c, s, e)
    ensures Consistent(Apply(c, s, e))
    ensures Bounded(c, s) ==> Bounded(c, Apply(c, s, e))
  {
    hide WorkInv, QueueInv, WorkBounds, ClaimInv, FleetInv, FleetBounds, HousedInv, OverInv, KeptInv,
         KeptBounds, CursorInv;
    RegisterFleetInv(c, s.fleet, e.node, e.capabilities, e.credential, e.now);
    RegisterClaims(c, s.leases, s.work, s.fleet, e.node, e.capabilities, e.credential, e.now);
    RegisterElsewhere(c, s.work, s.fleet, s.fairness, e.node, e.capabilities, e.credential, e.now);
  }

  /** Same nodes, same owners: only leases, capabilities or scheduler facts differ. */
  ghost predicate SameOwners(f: Fleet, g: Fleet) {
    && g == f.(nodes := g.nodes, scheduler := g.scheduler)
    && g.nodes.Keys == f.nodes.Keys && g.scheduler.Keys == f.scheduler.Keys
    && forall n | n in f.nodes :: g.nodes[n].credential == f.nodes[n].credential
  }

  lemma SameOwnersFleet(c: Config, f: Fleet, g: Fleet)
    requires SameOwners(f, g)
    ensures FleetInv(f) ==> FleetInv(g)
  {
  }

  lemma SameOwnersElsewhere(c: Config, l: Leases, w: Work, f: Fleet, g: Fleet, a: Fairness)
    requires SameOwners(f, g)
    ensures ClaimInv(l, w, f) ==> ClaimInv(l, w, g)
    ensures HousedInv(w, f) ==> HousedInv(w, g)
    ensures CursorInv(a, f) ==> CursorInv(a, g)
    ensures FleetBounds(c, f) ==> FleetBounds(c, g)
  {
    assert |g.nodes| == |g.nodes.Keys|;
  }

  lemma SameFleetKeys(f: Fleet)
    requires FleetInv(f)
    ensures f.scheduler.Keys == f.nodes.Keys && f.order.Keys == f.nodes.Keys
  {
  }

  lemma RenewInv(c: Config, s: State, e: Event)
    requires Consistent(s) && (e.Renew? || e.SetScheduler?) && Enabled(c, s, e)
    ensures Consistent(Apply(c, s, e))
    ensures Bounded(c, s) ==> Bounded(c, Apply(c, s, e))
  {
    hide WorkInv, QueueInv, WorkBounds, ClaimInv, FleetInv, FleetBounds, HousedInv, OverInv, KeptInv,
         KeptBounds, CursorInv;
    var g := Apply(c, s, e).fleet;
    SameFleetKeys(s.fleet);
    assert g.nodes.Keys == s.fleet.nodes.Keys && g.scheduler.Keys == s.fleet.scheduler.Keys;
    SameOwnersFleet(c, s.fleet, g);
    SameOwnersElsewhere(c, s.leases, s.work, s.fleet, g, s.fairness);
  }

  // ----- Requests -----

  lemma ReservedHeld(w: Work, id: Identity, r: Reservation, cancel: Option<Digest>)
    requires !Held(w, id)
    ensures var v := ReserveWork(w, id, r, cancel);
            && (forall i :: Held(v, i) <==> Held(w, i) || i == id)
            && (forall i | Held(v, i) :: NodeOf(v, i) == if i == id then r.node else NodeOf(w, i))
            && (forall n :: WorkOf(v, n) == if n == r.node then WorkOf(w, n) + {id} else WorkOf(w, n))
            && (forall n :: QueueOf(v, n) == QueueOf(w, n))
  {
  }

  lemma ReservedWorkInv(w: Work, id: Identity, r: Reservation, cancel: Option<Digest>)
    requires WorkInv(w) && QueueInv(w) && !Held(w, id)
    ensures WorkInv(ReserveWork(w, id, r, cancel))
    ensures QueueInv(ReserveWork(w, id, r, cancel))
  {
    var v := ReserveWork(w, id, r, cancel);
    ReservedHeld(w, id, r, cancel);
    assert v.nodeQueues == w.nodeQueues && v.queued == w.queued;
  }

  lemma ReservedBounds(c: Config, w: Work, id: Identity, r: Reservation, cancel: Option<Digest>)
    requires WorkBounds(c, w) && !Held(w, id) && LifecycleRoom(c, w, id.client)
    requires |ReservedOn(w.reservations, r.node)| < c.maxReservationsPerNode
    requires |ReservedOn(w.reservations, r.node)| + |QueueOf(w, r.node)| < c.maxQueueDepthPerNode
    ensures WorkBounds(c, ReserveWork(w, id, r, cancel))
  {
    var v := ReserveWork(w, id, r, cancel);
    ReservedHeld(w, id, r, cancel);
    OneMore(v.reservations.Keys, w.reservations.Keys, id);
    forall k: Digest
      ensures |OfClient(v.reservations.Keys, k)| <= |OfClient(w.reservations.Keys, k)| + (if id.client == k then 1 else 0)
    {
      OneMoreOfClient(v.reservations.Keys, w.reservations.Keys, id, k);
    }
    forall n: NodeId
      ensures |ReservedOn(v.reservations, n)| <= |ReservedOn(w.reservations, n)| + (if n == r.node then 1 else 0)
    {
      if n == r.node {
        OneMore(ReservedOn(v.reservations, n), ReservedOn(w.reservations, n), id);
      } else {
        SubsetSize(ReservedOn(v.reservations, n), ReservedOn(w.reservations, n));
      }
    }
  }

  lemma AdvancedCursors(a: Fairness, f: Fleet, fp: Fingerprint, n: NodeId, victim: Option<Fingerprint>)
    requires CursorInv(a, f) && n in f.nodes
    ensures CursorInv(AdvanceCursor(a, fp, n, victim), f)
  {
  }

  lemma AdvancedCount(c: Config, s: State, fp: Fingerprint, n: NodeId, victim: Option<Fingerprint>)
    requires |s.fairness.cursors| <= c.maxFingerprints && Evicts(c, s, fp, victim)
    ensures |AdvanceCursor(s.fairness, fp, n, victim).cursors| <= c.maxFingerprints
  {
    hide ActiveFingerprint;
    var before := s.fairness.cursors.Keys;
    var after := AdvanceCursor(s.fairness, fp, n, victim).cursors.Keys;
    if victim.Some? {
      assert after == before - {victim.value} + {fp};
      OneMore(after, before - {victim.value}, fp);
    } else if fp in before {
      assert after == before;
    } else {
      OneMore(after, before, fp);
    }
  }

  lemma EnqueuedHeld(w: Work, id: Identity, cancelToken: Digest, envelope: Envelope, now: Time)
    requires id in w.reservations && id !in w.queued
    ensures var v := EnqueueWork(w, id, cancelToken, envelope, now);
            && (forall i :: Held(v, i) <==> Held(w, i))
            && (forall i | Held(v, i) :: NodeOf(v, i) == NodeOf(w, i) && DeadlineOf(v, i) == DeadlineOf(w, i))
            && (forall n :: WorkOf(v, n) == WorkOf(w, n))
            && (forall n :: QueueOf(v, n) == if n == w.reservations[id].node then QueueOf(w, n) + [v.queued[id]] else QueueOf(w, n))
  {
  }

  lemma EnqueuedWorkInv(w: Work, id: Identity, cancelToken: Digest, envelope: Envelope, now: Time)
    requires WorkInv(w) && id in w.reservations
    ensures WorkInv(EnqueueWork(w, id, cancelToken, envelope, now))
  {
    EnqueuedHeld(w, id, cancelToken, envelope, now);
  }

  lemma EnqueuedSorted(w: Work, n: NodeId, q: QueuedRequest)
    requires WorkInv(w) && QueueInv(w) && q.sequence == w.nextSequence + 1
    ensures Sorted(QueueOf(w, n) + [q])
  {
    forall i | 0 <= i < |QueueOf(w, n)|
      ensures QueueOf(w, n)[i].sequence <= w.nextSequence
    {
      assert QueueOf(w, n)[i] in QueueOf(w, n);
    }
  }

  lemma EnqueuedQueueInv(w: Work, id: Identity, cancelToken: Digest, envelope: Envelope, now: Time)
    requires WorkInv(w) && QueueInv(w) && id in w.reservations
    ensures QueueInv(EnqueueWork(w, id, cancelToken, envelope, now))
  {
    var v := EnqueueWork(w, id, cancelToken, envelope, now);
    forall n
      ensures Sorted(QueueOf(v, n))
    {
      EnqueuedSorted(w, n, v.queued[id]);
    }
    EnqueuedMembers(w, id, cancelToken, envelope, now);
  }

  lemma EnqueuedMembers(w: Work, id: Identity, cancelToken: Digest, envelope: Envelope, now: Time)
    requires id in w.reservations && id !in w.queued
    requires forall n, q :: q in QueueOf(w, n) <==> q.id in w.queued && w.queued[q.id] == q && q.node == n
    ensures var v := EnqueueWork(w, id, cancelToken, envelope, now);
            forall n, q :: q in QueueOf(v, n) <==> q.id in v.queued && v.queued[q.id] == q && q.node == n
  {
    EnqueuedHeld(w, id, cancelToken, envelope, now);
  }

  lemma EnqueuedTotals(c: Config, w: Work, id: Identity, cancelToken: Digest, envelope: Envelope, now: Time)
    requires id in w.reservations && id !in w.queued
    ensures var v := EnqueueWork(w, id, cancelToken, envelope, now);
            |v.reservations| == |w.reservations| - 1 && |v.queued| == |w.queued| + 1
  {
    var v := EnqueueWork(w, id, cancelToken, envelope, now);
    assert v.reservations.Keys == w.reservations.Keys - {id};
    assert v.queued.Keys == w.queued.Keys + {id};
    assert |v.reservations.Keys| == |v.reservations| && |v.queued.Keys| == |v.queued|;
    assert |w.reservations.Keys| == |w.reservations| && |w.queued.Keys| == |w.queued|;
  }

  lemma EnqueuedOnNode(w: Work, id: Identity, cancelToken: Digest, envelope: Envelope, now: Time, n: NodeId)
    requires id in w.reservations && id !in w.queued
    ensures var v := EnqueueWork(w, id, cancelToken, envelope, now);
            var moved := if n == w.reservations[id].node then 1 else 0;
            && |ReservedOn(v.reservations, n)| == |ReservedOn(w.reservations, n)| - moved
            && |QueueOf(v, n)| == |QueueOf(w, n)| + moved
  {
    var v := EnqueueWork(w, id, cancelToken, envelope, now);
    if n == w.reservations[id].node {
      assert ReservedOn(v.reservations, n) == ReservedOn(w.reservations, n) - {id};
    } else {
      assert ReservedOn(v.reservations, n) == ReservedOn(w.reservations, n);
    }
  }

  lemma EnqueuedOfClient(w: Work, id: Identity, cancelToken: Digest, envelope: Envelope, now: Time, k: Digest)
    requires id in w.reservations && id !in w.queued
    ensures var v := EnqueueWork(w, id, cancelToken, envelope, now);
            var moved := if id.client == k then 1 else 0;
            && |OfClient(v.reservations.Keys, k)| == |OfClient(w.reservations.Keys, k)| - moved
            && |OfClient(v.queued.Keys, k)| == |OfClient(w.queued.Keys, k)| + moved
  {
    var v := EnqueueWork(w, id, cancelToken, envelope, now);
    assert v.reservations.Keys == w.reservations.Keys - {id};
    assert v.queued.Keys == w.queued.Keys + {id};
    MovedOfClient(w.reservations.Keys, w.queued.Keys, id, k);
  }

  lemma EnqueuedBounds(c: Config, w: Work, id: Identity, cancelToken: Digest, envelope: Envelope, now: Time)
    requires WorkBounds(c, w) && id in w.reservations && id !in w.queued && QueueRoom(c, w, id.client)
    ensures WorkBounds(c, EnqueueWork(w, id, cancelToken, envelope, now))
  {
    hide EnqueueWork, OfClient, ReservedOn, QueueOf;
    EnqueuedTotals(c, w, id, cancelToken, envelope, now);
    forall k: Digest {
      EnqueuedOfClient(w, id, cancelToken, envelope, now, k);
    }
    forall n: NodeId {
      EnqueuedOnNode(w, id, cancelToken, envelope, now, n);
    }
  }

  lemma MovedOfClient(a: set<Identity>, b: set<Identity>, id: Identity, k: Digest)
    requires id in a && id !in b
    ensures |OfClient(a - {id}, k)| == |OfClient(a, k)| - (if id.client == k then 1 else 0)
    ensures |OfClient(b + {id}, k)| == |OfClient(b, k)| + (if id.client == k then 1 else 0)
  {
    if id.client == k {
      assert OfClient(a - {id}, k) == OfClient(a, k) - {id};
      assert OfClient(b + {id}, k) == OfClient(b, k) + {id};
    } else {
      assert OfClient(a - {id}, k) == OfClient(a, k);
      assert OfClient(b + {id}, k) == OfClient(b, k);
    }
  }

  lemma ReservedElsewhere(l: Leases, w: Work, f: Fleet, k: Kept, id: Identity, r: Reservation,
                          cancel: Option<Digest>)
    requires !Held(w, id) && r.node in f.nodes && id !in k.terminals
    ensures var v := ReserveWork(w, id, r, cancel);
            && (ClaimInv(l, w, f) ==> ClaimInv(l, v, f))
            && (HousedInv(w, f) ==> HousedInv(v, f))
            && (OverInv(w, k) ==> OverInv(v, k))
  {
    ReservedHeld(w, id, r, cancel);
  }

  lemma ReserveInv(c: Config, s: State, e: Event)
    requires Consistent(s) && e.Reserve? && Enabled(c, s, e)
    ensures Consistent(Apply(c, s, e))
    ensures Bounded(c, s) ==> Bounded(c, Apply(c, s, e))
  {
    hide WorkInv, QueueInv, WorkBounds, ClaimInv, FleetInv, FleetBounds, HousedInv, OverInv, KeptInv,
         KeptBounds, CursorInv, LifecycleRoom, Evicts;
    var r := e.reservation;
    assert Eligible(c, s, r.fingerprint, r.node);
    ReservedWorkInv(s.work, e.id, r, e.cancel);
    if Bounded(c, s) {
      ReservedBounds(c, s.work, e.id, r, e.cancel);
    }
    ReservedElsewhere(s.leases, s.work, s.fleet, s.kept, e.id, r, e.cancel);
    AdvancedCursors(s.fairness, s.fleet, r.fingerprint, r.node, e.victim);
    if Bounded(c, s) {
      AdvancedCount(c, s, r.fingerprint, r.node, e.victim);
    }
  }

  lemma EnqueuedElsewhere(l: Leases, w: Work, f: Fleet, k: Kept, id: Identity, cancelToken: Digest,
                          envelope: Envelope, now: Time)
    requires id in w.reservations && id !in w.queued
    ensures var v := EnqueueWork(w, id, cancelToken, envelope, now);
            && (ClaimInv(l, w, f) ==> ClaimInv(l, v, f))
            && (HousedInv(w, f) ==> HousedInv(v, f))
            && (OverInv(w, k) ==> OverInv(v, k))
  {
    EnqueuedHeld(w, id, cancelToken, envelope, now);
  }

  lemma ReservedIsNotQueued(w: Work, id: Identity)
    requires WorkInv(w) && id in w.reservations
    ensures id !in w.queued
  {
  }

  lemma EnqueueInv(c: Config, s: State, e: Event)
    requires Consistent(s) && e.Enqueue? && Enabled(c, s, e)
    ensures Consistent(Apply(c, s, e))
    ensures Bounded(c, s) ==> Bounded(c, Apply(c, s, e))
  {
    hide WorkInv, QueueInv, WorkBounds, ClaimInv, FleetInv, FleetBounds, HousedInv, OverInv, KeptInv,
         KeptBounds, CursorInv, QueueRoom;
    ReservedIsNotQueued(s.work, e.id);
    EnqueuedWorkInv(s.work, e.id, e.cancelToken, e.envelope, e.now);
    EnqueuedQueueInv(s.work, e.id, e.cancelToken, e.envelope, e.now);
    if Bounded(c, s) {
      EnqueuedBounds(c, s.work, e.id, e.cancelToken, e.envelope, e.now);
    }
    EnqueuedElsewhere(s.leases, s.work, s.fleet, s.kept, e.id, e.cancelToken, e.envelope, e.now);
  }

  // ----- Claims and acknowledgements -----

  lemma TakenClaimInv(c: Config, l: Leases, w: Work, f: Fleet, id: Identity, consumer: Digest, now: Time)
    requires ClaimInv(l, w, f) && id in w.queued && w.queued[id].node in f.nodes
    ensures var q := w.queued[id];
            var k := ClaimOn(c, q, f.nodes[q.node].credential, consumer, l.nextGeneration + 1, now);
            ClaimInv(Leases(l.claims[id := k], l.nextGeneration + 1), w, f)
  {
  }

  lemma KeptLaterGeneration(k: Kept, generation: nat, later: nat)
    requires KeptInv(k, generation) && generation <= later
    ensures KeptInv(k, later)
  {
  }

  lemma TakeClaimInv(c: Config, s: State, e: Event)
    requires Consistent(s) && e.TakeClaim? && Enabled(c, s, e)
    ensures Consistent(Apply(c, s, e))
    ensures Bounded(c, s) ==> Bounded(c, Apply(c, s, e))
  {
    hide WorkInv, QueueInv, WorkBounds, ClaimInv, FleetInv, FleetBounds, HousedInv, OverInv, KeptInv,
         KeptBounds, CursorInv;
    TakenClaimInv(c, s.leases, s.work, s.fleet, e.id, e.consumer, e.now);
    KeptLaterGeneration(s.kept, s.leases.nextGeneration, s.leases.nextGeneration + 1);
  }

  lemma RenewedClaimInv(l: Leases, w: Work, f: Fleet, id: Identity, lease: Time)
    requires ClaimInv(l, w, f) && id in l.claims && lease <= l.claims[id].deadline
    ensures ClaimInv(l.(claims := l.claims[id := l.claims[id].(lease := lease)]), w, f)
  {
    var m := l.claims[id := l.claims[id].(lease := lease)];
    forall i | i in m
      ensures m[i].generation == l.claims[i].generation
    {
    }
  }

  lemma RenewClaimInv(c: Config, s: State, e: Event)
    requires Consistent(s) && e.RenewClaim? && Enabled(c, s, e)
    ensures Consistent(Apply(c, s, e))
    ensures Bounded(c, s) ==> Bounded(c, Apply(c, s, e))
  {
    hide WorkInv, QueueInv, WorkBounds, ClaimInv, FleetInv, FleetBounds, HousedInv, OverInv, KeptInv,
         KeptBounds, CursorInv;
    RenewedClaimInv(s.leases, s.work, s.fleet, e.id, Min(e.now + c.claimTtl, s.leases.claims[e.id].deadline));
  }

  lemma AckedControlInv(c: Config, k: Kept, id: Identity, nextGeneration: nat)
    requires KeptInv(k, nextGeneration) && id in k.controls
    ensures KeptInv(k.(controls := k.controls[id := k.controls[id].(acknowledged := true)]), nextGeneration)
  {
  }

  lemma AckedControlBounds(c: Config, k: Kept, id: Identity)
    requires KeptBounds(c, k) && id in k.controls
    ensures KeptBounds(c, k.(controls := k.controls[id := k.controls[id].(acknowledged := true)]))
  {
    var after := k.controls[id := k.controls[id].(acknowledged := true)];
    assert after.Keys == k.controls.Keys;
    forall n: NodeId
      ensures ControlsOn(after, n) == ControlsOn(k.controls, n)
    {
    }
  }

  lemma AckControlInv(c: Config, s: State, e: Event)
    requires Consistent(s) && e.AckControl? && Enabled(c, s, e)
    ensures Consistent(Apply(c, s, e))
    ensures Bounded(c, s) ==> Bounded(c, Apply(c, s, e))
  {
    hide WorkInv, QueueInv, WorkBounds, ClaimInv, FleetInv, FleetBounds, HousedInv, OverInv, KeptInv,
         KeptBounds, CursorInv;
    AckedControlInv(c, s.kept, e.id, s.leases.nextGeneration);
    if Bounded(c, s) {
      AckedControlBounds(c, s.kept, e.id);
    }
    OverSameTerminals(s.work, s.kept, Apply(c, s, e).kept);
  }

  lemma AckedResponseInv(k: Kept, id: Identity, nextGeneration: nat)
    requires KeptInv(k, nextGeneration) && id in k.terminals && k.terminals[id].retrieval == ResponseReady
    ensures KeptInv(k.(responses := k.responses - {id},
                       terminals := k.terminals[id := k.terminals[id].(retrieval := Acknowledged)]),
                    nextGeneration)
  {
  }

  lemma AckedResponseBounds(c: Config, k: Kept, id: Identity, t: Terminal)
    requires KeptBounds(c, k) && id in k.terminals
    ensures KeptBounds(c, k.(responses := k.responses - {id}, terminals := k.terminals[id := t]))
  {
    assert k.terminals[id := t].Keys == k.terminals.Keys;
    SubsetSize((k.responses - {id}).Keys, k.responses.Keys);
    forall i: Digest
      ensures |OfClient((k.responses - {id}).Keys, i)| <= |OfClient(k.responses.Keys, i)|
    {
      SubsetSize(OfClient((k.responses - {id}).Keys, i), OfClient(k.responses.Keys, i));
    }
  }

  lemma AckResponseInv(c: Config, s: State, e: Event)
    requires Consistent(s) && e.AckResponse? && Enabled(c, s, e)
    ensures Consistent(Apply(c, s, e))
    ensures Bounded(c, s) ==> Bounded(c, Apply(c, s, e))
  {
    hide WorkInv, QueueInv, WorkBounds, ClaimInv, FleetInv, FleetBounds, HousedInv, OverInv, KeptInv,
         KeptBounds, CursorInv;
    var t := s.kept.terminals[e.id].(retrieval := Acknowledged);
    AckedResponseInv(s.kept, e.id, s.leases.nextGeneration);
    if Bounded(c, s) {
      AckedResponseBounds(c, s.kept, e.id, t);
    }
    OverSameTerminals(s.work, s.kept, Apply(c, s, e).kept);
  }

  lemma OverSameTerminals(w: Work, k: Kept, m: Kept)
    requires m.terminals.Keys <= k.terminals.Keys
    ensures OverInv(w, k) ==> OverInv(w, m)
  {
  }

  // ----- Every event -----

  /** Whatever the store does, its maps keep agreeing and its bounds keep holding. */
  lemma EventInv(c: Config, s: State, e: Event)
    requires c.Valid() && Consistent(s) && Enabled(c, s, e)
    ensures Consistent(Apply(c, s, e))
    ensures Bounded(c, s) ==> Bounded(c, Apply(c, s, e))
  {
    hide WorkInv, QueueInv, WorkBounds, ClaimInv, FleetInv, FleetBounds, HousedInv, OverInv, KeptInv,
         KeptBounds, CursorInv, CanTerminalize, Terminalize, TransitionRoom, Selected, Evicts,
         LifecycleRoom, QueueRoom, ClaimRoom, LiveOwnedClaim, ResponseRoom, ReapKept, ReapFleet,
         StartFleet, CompleteFleet, RegisterFleet, ReserveWork, AdvanceCursor, EnqueueWork, RemoveWork,
         ResponseTo, CompletedBy, ClaimOn;
    match e
    case Reap(now) => ReapInv(c, s, now);
    case Expire(id, now) => TerminalizeInv(c, s, id, Expired, DeadlineExpired, false, now);
    case Defer(_, _) =>
    case DropReservation(_, _) => DropReservationInv(c, s, e);
    case StartTransition(_, _, _) => StartTransitionInv(c, s, e);
    case Teardown(id, _, now) => TerminalizeInv(c, s, id, Cancelled, ServerUnregistered, true, now);
    case CompleteTransition(_, _) => CompleteTransitionInv(c, s, e);
    case Register(_, _, _, _) => RegisterInv(c, s, e);
    case Renew(_, _, _) => RenewInv(c, s, e);
    case SetScheduler(_, _, _) => RenewInv(c, s, e);
    case Reserve(_, _, _, _, _) => ReserveInv(c, s, e);
    case Enqueue(_, _, _, _) => EnqueueInv(c, s, e);
    case TakeClaim(_, _, _) => TakeClaimInv(c, s, e);
    case RenewClaim(_, _, _) => RenewClaimInv(c, s, e);
    case AckControl(_, _) => AckControlInv(c, s, e);
    case Accept(_, _, _, _) => AcceptInv(c, s, e);
    case Cancel(id, now) => TerminalizeInv(c, s, id, Cancelled, RequesterCancelled, false, now);
    case AckResponse(_, _) => AckResponseInv(c, s, e);
  }
}
