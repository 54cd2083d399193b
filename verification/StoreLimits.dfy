/**
  The edges of what the store promises: three properties one might expect of it that fail, each with
  the exact condition under which it holds.
*/
module StoreLimits {
  import opened RelayTypes
  import opened StoreState
  import opened StoreInvariant
  import opened StoreRuns
  import opened StoreCalls
  import opened StoreDrain

  // ----- Load against concurrency -----

  /** Requests the store itself has placed on the node. */
  function PlacedOn(w: Work, n: NodeId): nat {
    |ReservedOn(w.reservations, n)| + |QueueOf(w, n)|
  }

  predicate WithinLoad(s: State, n: NodeId)
    requires n in s.fleet.nodes && n in s.fleet.scheduler
  {
    Load(s, n) <= s.fleet.nodes[n].capabilities.maxConcurrency
  }

  /** The node's own call sets its concurrency below its load or reports work beyond it. */
  predicate Overloads(s: State, e: Event, n: NodeId)
    requires n in s.fleet.nodes && n in s.fleet.scheduler
  {
    || (e.Renew? && e.node == n && e.capabilities.maxConcurrency < Load(s, n))
    || (e.SetScheduler? && e.node == n
        && PlacedOn(s.work, n) + e.state.claimedWork > s.fleet.nodes[n].capabilities.maxConcurrency)
  }

  lemma RemovedPlaced(w: Work, id: Identity, n: NodeId)
    requires Held(w, id)
    ensures PlacedOn(RemoveWork(w, id), n) <= PlacedOn(w, n)
  {
    SubsetSize(ReservedOn(w.reservations - {id}, n), ReservedOn(w.reservations, n));
  }

  lemma ReservedPlacedOn(w: Work, id: Identity, r: Reservation, cancel: Option<Digest>, n: NodeId)
    requires !Held(w, id)
    ensures PlacedOn(ReserveWork(w, id, r, cancel), n) == PlacedOn(w, n) + if n == r.node then 1 else 0
  {
    var v := ReserveWork(w, id, r, cancel);
    assert v.reservations == w.reservations[id := r] && QueueOf(v, n) == QueueOf(w, n);
    hide ReserveWork, QueueOf, WorkOf;
    if n == r.node {
      assert ReservedOn(v.reservations, n) == ReservedOn(w.reservations, n) + {id};
    } else {
      assert ReservedOn(v.reservations, n) == ReservedOn(w.reservations, n);
    }
  }

  lemma EnqueuedPlaced(w: Work, id: Identity, cancelToken: Digest, envelope: Envelope, now: Time, n: NodeId)
    requires id in w.reservations && id !in w.queued
    ensures PlacedOn(EnqueueWork(w, id, cancelToken, envelope, now), n) == PlacedOn(w, n)
  {
    EnqueuedOnNode(w, id, cancelToken, envelope, now, n);
  }

  /** Only a reservation places more on a node. */
  lemma PlacedStep(c: Config, s: State, e: Event, n: NodeId)
    requires WorkInv(s.work) && Enabled(c, s, e)
    ensures PlacedOn(Apply(c, s, e).work, n)
              <= PlacedOn(s.work, n) + if e.Reserve? && e.reservation.node == n then 1 else 0
  {
    hide PlacedOn, RemoveWork, ReserveWork, EnqueueWork, CanTerminalize, TransitionRoom, ResponseRoom, ClaimRoom, QueueRoom,
         LifecycleRoom, Evicts, TombstoneClaim, TerminalFor, ControlOf, Conclude, ReapKept, ReapFleet, StartFleet,
         CompleteFleet, RegisterFleet, AdvanceCursor, CompletedBy, ResponseTo, Selected, LiveOwnedClaim;
    if Concludes(e) || e.DropReservation? {
      RemovedPlaced(s.work, e.id, n);
    } else if e.Reserve? {
      ReservedPlacedOn(s.work, e.id, e.reservation, e.cancel, n);
    } else if e.Enqueue? {
      EnqueuedPlaced(s.work, e.id, e.cancelToken, e.envelope, e.now, n);
    }
  }

  lemma SelectedHasSlack(c: Config, s: State, fp: Fingerprint, n: NodeId)
    requires Selected(c, s, fp, n)
    ensures n in s.fleet.nodes && n in s.fleet.scheduler
    ensures Load(s, n) < s.fleet.nodes[n].capabilities.maxConcurrency
  {
    hide Load;
  }

  /** What an event does to the two limits of a node that stays registered. */
  lemma LimitsStep(c: Config, s: State, e: Event, n: NodeId)
    requires Enabled(c, s, e) && Consistent(s) && Consistent(Apply(c, s, e))
    requires n in s.fleet.nodes && n in Apply(c, s, e).fleet.nodes
    ensures var f, g := s.fleet, Apply(c, s, e).fleet;
            && n in f.scheduler && n in g.scheduler
            && g.nodes[n].capabilities == (if e.Renew? && e.node == n then e.capabilities else f.nodes[n].capabilities)
            && g.scheduler[n].claimedWork == (if e.SetScheduler? && e.node == n then e.state.claimedWork else f.scheduler[n].claimedWork)
  {
    hide Consistent, Apply, Enabled;
    HasScheduler(s, n);
    HasScheduler(Apply(c, s, e), n);
    LeaseStep(c, s, e, n);
    ReportStep(c, s, e, n);
    RegisteredOnce(c, s, e);
  }

  lemma HasScheduler(s: State, n: NodeId)
    requires Consistent(s) && n in s.fleet.nodes
    ensures n in s.fleet.scheduler
  {
    hide WorkInv, QueueInv, ClaimInv, HousedInv, OverInv, KeptInv, CursorInv;
  }

  lemma RegisteredOnce(c: Config, s: State, e: Event)
    requires Enabled(c, s, e)
    ensures e.Register? ==> e.node !in s.fleet.nodes
    ensures e.Renew? ==> e.node in Apply(c, s, e).fleet.nodes && Apply(c, s, e).fleet.nodes[e.node].capabilities == e.capabilities
  {
  }

  lemma NodeCallsLeaveWork(c: Config, s: State, e: Event)
    requires Enabled(c, s, e) && (e.Renew? || e.SetScheduler?)
    ensures Apply(c, s, e).work == s.work
  {
  }

  /** A node's load stays within its concurrency through every event but exactly its own overloading calls. */
  lemma LoadStep(c: Config, s: State, e: Event, n: NodeId)
    requires c.Valid() && Consistent(s) && Enabled(c, s, e) && n in s.fleet.nodes && n in s.fleet.scheduler && WithinLoad(s, n)
    requires n in Apply(c, s, e).fleet.nodes
    ensures n in Apply(c, s, e).fleet.scheduler
    ensures WithinLoad(Apply(c, s, e), n) <==> !Overloads(s, e, n)
  {
    hide QueueInv, ClaimInv, HousedInv, OverInv, KeptInv, CursorInv, WorkInv, FleetInv, Enabled, Apply, ReservedOn, QueueOf;
    EventInv(c, s, e);
    LimitsStep(c, s, e, n);
    PlacedStep(c, s, e, n);
    if e.Renew? || e.SetScheduler? {
      NodeCallsLeaveWork(c, s, e);
    } else if e.Reserve? {
      ReservedSlack(c, s, e);
    }
  }

  lemma ReservedSlack(c: Config, s: State, e: Event)
    requires Enabled(c, s, e) && e.Reserve?
    ensures e.reservation.node in s.fleet.nodes && e.reservation.node in s.fleet.scheduler
    ensures Load(s, e.reservation.node) < s.fleet.nodes[e.reservation.node].capabilities.maxConcurrency
  {
    hide Selected, Load;
    SelectedHasSlack(c, s, e.reservation.fingerprint, e.reservation.node);
  }

  /** A node that has just registered carries nothing. */
  lemma FreshLoad(c: Config, s: State, e: Event, n: NodeId)
    requires Consistent(s) && Enabled(c, s, e) && n !in s.fleet.nodes && n in Apply(c, s, e).fleet.nodes
    ensures n in Apply(c, s, e).fleet.scheduler && WithinLoad(Apply(c, s, e), n)
  {
    hide ClaimInv, OverInv, KeptInv, CursorInv, CanTerminalize, TransitionRoom, Selected, Evicts, LifecycleRoom, QueueRoom,
         ResponseRoom, ClaimRoom, LiveOwnedClaim, ReapKept, RemoveWork, TombstoneClaim, TerminalFor, ControlOf, Conclude,
         ReserveWork, AdvanceCursor, EnqueueWork, CompletedBy, ResponseTo;
    NothingPlaced(s.work, s.fleet, n);
  }

  lemma NothingPlaced(w: Work, f: Fleet, n: NodeId)
    requires WorkInv(w) && QueueInv(w) && HousedInv(w, f) && n !in f.nodes && n !in f.pending
    ensures ReservedOn(w.reservations, n) == {} && QueueOf(w, n) == []
  {
    forall id
      ensures id !in ReservedOn(w.reservations, n)
    {
      assert Held(w, id) ==> NodeOf(w, id) != n;
    }
    forall q
      ensures q !in QueueOf(w, n)
    {
      assert Held(w, q.id) ==> NodeOf(w, q.id) != n;
    }
    NoMembers(QueueOf(w, n));
  }

  lemma NoMembers<T>(s: seq<T>)
    ensures (forall x :: x !in s) ==> s == []
  {
    if s != [] {
      assert s[0] in s;
    }
  }

  /** Over any stretch of a run without overloading calls of the node, its load stays within bounds. */
  lemma {:induction false} LoadBounded(c: Config, r: Run, i: nat, j: nat, n: NodeId)
    requires IsRun(c, r) && i <= j < |r.states| && n in r.states[j].fleet.nodes
    requires n in r.states[i].fleet.nodes ==> n in r.states[i].fleet.scheduler && WithinLoad(r.states[i], n)
    requires forall m: nat | i <= m < j && n in r.states[m].fleet.nodes && n in r.states[m].fleet.scheduler ::
               !Overloads(r.states[m], r.log[m], n)
    ensures n in r.states[j].fleet.scheduler && WithinLoad(r.states[j], n)
  {
    hide Enabled, Apply, Consistent, Bounded, WithinLoad, Overloads;
    if i < j {
      RunInv(c, r, j - 1);
      assert StepAt(c, r, j - 1);
      if n in r.states[j - 1].fleet.nodes {
        LoadBounded(c, r, i, j - 1, n);
        LoadStep(c, r.states[j - 1], r.log[j - 1], n);
      } else {
        FreshLoad(c, r.states[j - 1], r.log[j - 1], n);
      }
    }
  }

  // ----- How overdue work ends -----

  /** The stop instruction that the expiry of the request would leave has no room. */
  predicate StopBlocked(c: Config, s: State, id: Identity)
    requires Held(s.work, id)
  {
    && id in s.leases.claims && s.leases.claims[id].lease == DeadlineOf(s.work, id)
    && !ControlRoom(c, s.kept, s.leases.claims[id].node)
  }

  /** Cancelling overdue work needs room for its record only, expiring it also for a stop instruction. */
  lemma OverdueRoom(c: Config, s: State, id: Identity, now: Time)
    requires Consistent(s) && Held(s.work, id) && DeadlineOf(s.work, id) <= now
    ensures CanTerminalize(c, s, id, Cancelled, false, now) <==> TerminalRoom(c, s.kept, id.client)
    ensures CanTerminalize(c, s, id, Expired, false, now) <==>
              TerminalRoom(c, s.kept, id.client) && !StopBlocked(c, s, id)
  {
    hide WorkInv, QueueInv, ClaimInv, FleetInv, HousedInv, OverInv, KeptInv, CursorInv, TerminalRoom, ControlRoom, DeadlineOf;
    LiveIsNotOver(c, s, id);
  }

  /** Overdue work never completes, and its record says expired exactly when an expiry ended it. */
  lemma OverdueVerdict(c: Config, s: State, e: Event)
    requires Consistent(s) && Enabled(c, s, e) && Concludes(e) && Held(s.work, e.id) && DeadlineOf(s.work, e.id) <= e.now
    ensures e.Expire? || e.Teardown? || e.Cancel?
    ensures e.id in Apply(c, s, e).kept.terminals
    ensures Apply(c, s, e).kept.terminals[e.id].verdict == if e.Expire? then Expired else Cancelled
  {
    hide QueueInv, FleetInv, HousedInv, OverInv, KeptInv, CursorInv, CanTerminalize, ResponseRoom, TombstoneClaim;
  }

  /**
    Once a call has settled the store, the requester can still cancel overdue work exactly when there
    is room for its record; then it is the stop instruction that has no room, none is left behind, and
    the request ends as cancelled.  Asking to expire it instead always raises.
  */
  lemma OverdueCancelledIff(c: Config, s: State, id: Identity, token: Option<Digest>, now: Time)
    requires Consistent(s) && Settled(c, s, now) && Held(s.work, id) && DeadlineOf(s.work, id) <= now
    ensures var d := CancelCall(c, s, id, token, false, now);
            && (d.outcome.Ok? && d.outcome.value.Concluded? && d.outcome.value.newOutcome <==>
                  && id in s.work.cancelTokens && token == Some(s.work.cancelTokens[id])
                  && TerminalRoom(c, s.kept, id.client))
            && (d.events != [] ==>
                  && StopBlocked(c, s, id) && d.events == [Cancel(id, now)] && Enabled(c, s, d.events[0])
                  && var k := Apply(c, s, d.events[0]).kept;
                  && id in k.terminals && k.terminals[id].verdict == Cancelled && id !in k.controls)
    ensures CancelCall(c, s, id, token, true, now) == Refuse(CapacityExceeded)
  {
    hide WorkInv, QueueInv, ClaimInv, FleetInv, HousedInv, OverInv, KeptInv, CursorInv, Reaped, LeasesLive, TerminalRoom,
         ControlRoom, DeadlineOf, ControlOf, RemoveWork;
    LiveIsNotOver(c, s, id);
    OverdueRoom(c, s, id, now);
  }

  // ----- Pending transitions without work -----

  /** The last item of a pending node goes exactly by its conclusion or as a lapsed reservation. */
  lemma EmptiedIff(c: Config, s: State, e: Event, n: NodeId)
    requires Consistent(s) && Enabled(c, s, e) && n in s.fleet.pending && WorkOf(s.work, n) != {}
    ensures n in Apply(c, s, e).fleet.pending
    ensures WorkOf(Apply(c, s, e).work, n) == {} <==>
              (e.Expire? || e.Cancel? || e.Teardown? || e.DropReservation?) && WorkOf(s.work, n) == {e.id}
  {
    hide QueueInv, ClaimInv, HousedInv, OverInv, KeptInv, CursorInv, WorkOf, Enabled, Apply, WorkInv, FleetInv;
    StaysPending(c, s, e, n);
    if Concludes(e) || e.DropReservation? {
      WorkLeaves(c, s, e, n);
    } else {
      WorkStays(c, s, e, n);
    }
  }

  lemma StaysPending(c: Config, s: State, e: Event, n: NodeId)
    requires FleetInv(s.fleet) && Enabled(c, s, e) && n in s.fleet.pending && WorkOf(s.work, n) != {}
    ensures n in Apply(c, s, e).fleet.pending
    ensures ClaimInv(s.leases, s.work, s.fleet) && e.Accept? ==> s.leases.claims[e.id].node != n
  {
    hide CanTerminalize, TransitionRoom, Selected, Evicts, LifecycleRoom, QueueRoom, ResponseRoom, ClaimRoom, ClaimInv,
         ReapKept, RemoveWork, TombstoneClaim, TerminalFor, ControlOf, Conclude, ReserveWork, AdvanceCursor, EnqueueWork,
         CompletedBy, ResponseTo;
  }

  lemma WorkLeaves(c: Config, s: State, e: Event, n: NodeId)
    requires Consistent(s) && Enabled(c, s, e) && (Concludes(e) || e.DropReservation?)
    requires n in s.fleet.pending
    ensures WorkOf(Apply(c, s, e).work, n) == WorkOf(s.work, n) - {e.id}
    ensures e.Accept? ==> e.id !in WorkOf(s.work, n)
  {
    hide QueueInv, HousedInv, OverInv, KeptInv, CursorInv, RemoveWork, CanTerminalize, TerminalFor, Conclude, TombstoneClaim,
         CompletedBy, ResponseTo, ResponseRoom, WorkOf;
    ConclusionWork(c, s, e);
    RemovedHeld(s.work, e.id);
    if e.Accept? {
      AcceptedElsewhere(s, e.id, n);
    }
  }

  lemma AcceptedElsewhere(s: State, id: Identity, n: NodeId)
    requires Consistent(s) && n in s.fleet.pending && id in s.leases.claims && s.leases.claims[id].node in s.fleet.nodes
    ensures id !in WorkOf(s.work, n)
  {
    hide QueueInv, HousedInv, OverInv, KeptInv, CursorInv;
  }

  lemma WorkStays(c: Config, s: State, e: Event, n: NodeId)
    requires Consistent(s) && Enabled(c, s, e) && !Concludes(e) && !e.DropReservation?
    ensures WorkOf(s.work, n) <= WorkOf(Apply(c, s, e).work, n)
  {
    hide QueueInv, ClaimInv, FleetInv, HousedInv, OverInv, KeptInv, CursorInv, CanTerminalize, TransitionRoom, Selected, Evicts,
         LifecycleRoom, QueueRoom, ResponseRoom, ClaimRoom, LiveOwnedClaim, ReapKept, ReapFleet, StartFleet, CompleteFleet,
         RegisterFleet, AdvanceCursor;
  }

  /** The next transition call that goes ahead completes a pending transition without work. */
  lemma IdleTransitionCompletes(c: Config, s: State, n: NodeId, supplied: Option<Digest>, cause: Cause,
                                batch: seq<Identity>, now: Time, t: State, events: seq<Event>, out: Outcome<Transition>)
    requires Consistent(s) && n in s.fleet.pending && WorkOf(s.work, n) == {}
    requires Gate(c, s.fleet, n, supplied, cause, now, None)
    requires TransitionCall(c, s, n, supplied, cause, batch, now, t, events, out)
    ensures out.Ok? && out.value.Progress? && !out.value.continuation && out.value.processed == 0
    ensures n !in t.fleet.pending && events == [CompleteTransition(n, now)]
  {
    hide WorkInv, QueueInv, ClaimInv, HousedInv, OverInv, KeptInv, CursorInv, Gate, Among;
    assert batch == [];
  }
}
