/**
  That nothing happens but for its reason: nothing ends or goes before its time, capacity refuses only
  at a configured bound, and a node is torn down only on its owner's word or a lapsed lease.
*/
module StoreGuards {
  import opened RelayTypes
  import opened StoreState
  import opened StoreInvariant
  import opened StoreRuns
  import opened StoreCalls
  import opened StoreDrain
  import opened StoreSecrets

  // ----- Time -----

  lemma LapseStep(c: Config, s: State, e: Event, r: Reservation)
    requires Enabled(c, s, e) && e.DropReservation? && ReservedAs(s.work, e.id, r)
    ensures r.expiry <= e.now
  {
  }

  lemma ReservedUntil(c: Config, s: State, e: Event)
    requires Enabled(c, s, e) && e.Reserve?
    ensures e.reservation.expiry == e.reservation.deadline || e.reservation.expiry == e.now + c.reservationTtl
    ensures e.reservation.expiry <= e.reservation.deadline
  {
    hide LifecycleRoom, Selected, Evicts;
  }

  /** A reservation lapses only when its full time, or the deadline of the request, has come. */
  lemma LapsesInTime(c: Config, r: Run, i: nat, j: nat)
    requires IsRun(c, r) && i < j < |r.log| && r.log[i].Reserve? && r.log[j].DropReservation? && r.log[j].id == r.log[i].id
    requires forall m: nat | i < m < j :: !Leaves(r.log[m], r.log[i].id) && !(r.log[m].Enqueue? && r.log[m].id == r.log[i].id)
    ensures r.log[i].now + c.reservationTtl <= r.log[j].now || r.log[i].reservation.deadline <= r.log[j].now
  {
    hide Enabled, Apply, ReservedAs, Leaves;
    assert StepAt(c, r, i) && StepAt(c, r, j);
    ReservedFirst(c, r.states[i], r.log[i]);
    ReservedStays(c, r, i + 1, j, r.log[i].id, r.log[i].reservation);
    LapseStep(c, r.states[j], r.log[j], r.log[i].reservation);
    ReservedUntil(c, r.states[i], r.log[i]);
  }

  lemma ExpiryStep(c: Config, s: State, e: Event, node: NodeId, fp: Fingerprint, deadline: Time, cancel: Option<Digest>)
    requires Enabled(c, s, e) && e.Expire? && PlacedAs(s.work, e.id, node, fp, deadline, cancel)
    ensures deadline <= e.now
  {
    hide CanTerminalize;
  }

  /** A request expires only when the deadline it was reserved with has come. */
  lemma ExpiresInTime(c: Config, r: Run, i: nat, j: nat)
    requires IsRun(c, r) && i < j < |r.log| && r.log[i].Reserve? && r.log[j].Expire? && r.log[j].id == r.log[i].id
    requires forall m: nat | i < m < j :: !Leaves(r.log[m], r.log[i].id)
    ensures r.log[i].reservation.deadline <= r.log[j].now
  {
    hide Enabled, Apply, PlacedAs, Held, Leaves, Consistent;
    var e := r.log[i];
    var p := e.reservation;
    assert StepAt(c, r, i) && StepAt(c, r, j);
    RunWorkInv(c, r, i);
    ReservedPlaced(c, r.states[i], e);
    PlacedStays(c, r, i + 1, j, e.id, p.node, p.fingerprint, p.deadline, e.cancel);
    ExpiryStep(c, r.states[j], r.log[j], p.node, p.fingerprint, p.deadline, e.cancel);
  }

  /** Stored responses, stop instructions, tombstones and fences go only at their time, or, a response, when acknowledged. */
  lemma NothingGoesEarly(c: Config, s: State, e: Event)
    requires Consistent(s) && Enabled(c, s, e)
    ensures var k, l, f, g := s.kept, Apply(c, s, e).kept, s.fleet, Apply(c, s, e).fleet;
            && (forall id | id in k.responses && id !in l.responses ::
                  (e.Reap? && k.responses[id].replayExpiry <= e.now) || (e.AckResponse? && e.id == id))
            && (forall id | id in k.controls && id !in l.controls :: e.Reap? && k.controls[id].expiry <= e.now)
            && (forall n | n in f.nodeTombstones && n !in g.nodeTombstones :: e.Reap? && f.nodeTombstones[n].expiry <= e.now)
            && (forall x | x in f.fences && x !in g.fences :: e.Reap? && f.fences[x].expiry <= e.now && !FenceReserved(f.pending, x))
  {
    hide WorkInv, QueueInv, ClaimInv, FleetInv, HousedInv, OverInv, KeptInv, CursorInv, CanTerminalize, TransitionRoom,
         ResponseRoom, ClaimRoom, QueueRoom, LifecycleRoom, Selected, Evicts, RemoveWork, ReserveWork, EnqueueWork,
         CursorsWithout, AdvanceCursor, TerminalFor, ControlOf, CompletedBy, ResponseTo, TombstoneClaim;
  }

  /** How long a removed node has its tombstone, and its owner its fence at least. */
  lemma RemovalIsKept(c: Config, s: State, e: Event)
    requires c.Valid() && Enabled(c, s, e) && e.StartTransition?
    ensures var g := Apply(c, s, e).fleet;
            && e.node in s.fleet.nodes && e.node in g.nodeTombstones
            && g.nodeTombstones[e.node].expiry == e.now + c.nodeTombstoneTtl
            && var x := FenceKey(e.node, s.fleet.nodes[e.node].credential);
            && x in g.fences && g.fences[x].expiry == e.now + c.terminalRetention
  {
    hide TransitionRoom, CursorsWithout;
  }

  // ----- Capacity -----

  /** A full store: each of these refuses exactly when one of its bounds is reached, never before. */
  lemma FullIff(c: Config, s: State, client: Digest, n: NodeId)
    requires Bounded(c, s)
    ensures !TerminalRoom(c, s.kept, client) <==>
              |s.kept.terminals| == c.maxTerminals || |OfClient(s.kept.terminals.Keys, client)| == c.maxTerminalsPerClient
    ensures !ControlRoom(c, s.kept, n) <==>
              |s.kept.controls| == c.maxControls || |ControlsOn(s.kept.controls, n)| == c.maxControlsPerNode
    ensures !ResponseRoom(c, s.kept, client) <==>
              || |s.kept.responses| == c.maxResponses || |OfClient(s.kept.responses.Keys, client)| == c.maxResponsesPerClient
              || |s.kept.terminals| == c.maxTerminals || |OfClient(s.kept.terminals.Keys, client)| == c.maxTerminalsPerClient
    ensures !QueueRoom(c, s.work, client) <==>
              |s.work.queued| == c.maxQueued || |OfClient(s.work.queued.Keys, client)| == c.maxQueuedPerClient
  {
  }

  lemma StartFullIff(c: Config, s: State, n: NodeId)
    requires Consistent(s) && FleetBounds(c, s.fleet) && n in s.fleet.nodes
    ensures !TransitionRoom(c, s.fleet, n) <==>
              || |s.fleet.pending| == c.maxPending || |s.fleet.fences| == c.maxFences
              || (n !in s.fleet.nodeTombstones && |s.fleet.nodeTombstones| == c.maxNodeTombstones)
  {
    hide WorkInv, QueueInv, ClaimInv, HousedInv, OverInv, KeptInv, CursorInv;
  }

  /** A claim is refused to a stranger, and to the owner only while every place for live claims is taken. */
  lemma ClaimRefusedBy(c: Config, s: State, n: NodeId, owner: Digest, consumer: Digest, now: Time)
    requires Consistent(s)
    ensures var out := ClaimCall(c, s, n, owner, consumer, now).outcome;
            var live := set id | id in s.leases.claims && now < s.leases.claims[id].lease;
            var onNode := set id | id in live && s.leases.claims[id].node == n;
            var full := |live| >= c.maxClaims || |onNode| >= c.maxClaimsPerNode;
            var owned := n in s.fleet.nodes && s.fleet.nodes[n].credential == owner;
            && (out == Raised(CredentialMismatch) <==> !owned)
            && (out == Raised(CapacityExceeded) <==> owned && ClaimableOn(s, n, now) != {} && full)
            && (out == Ok(Empty) <==> owned && ClaimableOn(s, n, now) == {})
  {
    hide WorkInv, QueueInv, ClaimInv, FleetInv, HousedInv, OverInv, KeptInv, CursorInv, FirstClaimable, ClaimableOn;
    FirstIsEarliestOn(s, n, now);
    LiveSets(s.leases.claims, n, now);
  }

  lemma LiveSets(claims: map<Identity, Claim>, n: NodeId, now: Time)
    ensures var live := set id | id in claims && now < claims[id].lease;
            live == LiveClaims(claims, now) && (set id | id in live && claims[id].node == n) == LiveClaimsOn(claims, n, now)
  {
  }

  // ----- Teardown -----

  /** The owner of the registration or of the transition under way. */
  predicate OwnedBy(f: Fleet, n: NodeId, supplied: Option<Digest>) {
    || (n in f.nodes && supplied == Some(f.nodes[n].credential))
    || (n in f.pending && supplied == Some(f.pending[n].credential))
  }

  /**
    A transition call goes ahead, and touches anything, only for a registered node or to continue a
    transition with its own cause; explicitly only for its owner, and as lapsed only past the lease.
  */
  lemma GoesAheadIff(c: Config, s: State, n: NodeId, supplied: Option<Digest>, cause: Cause, batch: seq<Identity>, now: Time,
                     t: State, events: seq<Event>, out: Outcome<Transition>)
    requires FleetInv(s.fleet) && TransitionCall(c, s, n, supplied, cause, batch, now, t, events, out)
    ensures out.Ok? && out.value.Progress? <==>
              && (cause == ExplicitUnregister ==> OwnedBy(s.fleet, n, supplied))
              && if n in s.fleet.pending then s.fleet.pending[n].cause == cause
                 else n in s.fleet.nodes && (cause == LeaseExpired ==> s.fleet.nodes[n].leaseExpiry <= now)
                      && TransitionRoom(c, s.fleet, n)
    ensures !(out.Ok? && out.value.Progress?) ==> t == s && events == []
    ensures out == Raised(Conflict) <==> n in s.fleet.pending && s.fleet.pending[n].cause != cause
    ensures out == Raised(CapacityExceeded) <==>
              && n in s.fleet.nodes && (cause == ExplicitUnregister ==> OwnedBy(s.fleet, n, supplied))
              && (cause == LeaseExpired ==> s.fleet.nodes[n].leaseExpiry <= now) && !TransitionRoom(c, s.fleet, n)
    ensures out == Ok(LeaseActive) <==> n in s.fleet.nodes && cause == LeaseExpired && now < s.fleet.nodes[n].leaseExpiry
    ensures (n in s.fleet.nodes || (n in s.fleet.pending && s.fleet.pending[n].cause == cause)) ==>
              (out == Raised(CredentialMismatch) <==> cause == ExplicitUnregister && !OwnedBy(s.fleet, n, supplied))
  {
    hide TransitionRoom, TeardownAll, TeardownCount, IsBatch, WorkOf, LatestFence, FenceMatches, Among;
  }

  /** The report names the cause and the moment of the transition that it starts or continues. */
  lemma ReportNames(c: Config, s: State, n: NodeId, supplied: Option<Digest>, cause: Cause, batch: seq<Identity>, now: Time,
                    t: State, events: seq<Event>, p: Transition)
    requires p.Progress? && TransitionCall(c, s, n, supplied, cause, batch, now, t, events, Ok(p))
    ensures n in s.fleet.pending || n in s.fleet.nodes
    ensures p.cause == cause
    ensures p.at == if n in s.fleet.pending then s.fleet.pending[n].transitionAt else now
  {
    hide TransitionRoom, TeardownAll, TeardownCount, IsBatch, WorkOf, LatestFence, FenceMatches, Among;
  }

  lemma MembersSplit(batch: seq<Identity>)
    requires batch != [] && Distinct(batch)
    ensures var last, rest := batch[|batch| - 1], batch[..|batch| - 1];
            && Distinct(rest) && (set x | x in batch) == (set x | x in rest) + {last} && last !in rest
  {
    var last, rest := batch[|batch| - 1], batch[..|batch| - 1];
    assert batch == rest + [last];
  }

  lemma OneMoreMember(members: set<Identity>, last: Identity, ids: set<Identity>)
    requires last !in members
    ensures |(members + {last}) * ids| == |members * ids| + if last in ids then 1 else 0
  {
    if last in ids {
      assert (members + {last}) * ids == members * ids + {last};
    } else {
      assert (members + {last}) * ids == members * ids;
    }
  }

  lemma {:induction false} AmongIsCount(batch: seq<Identity>, ids: set<Identity>)
    requires Distinct(batch)
    ensures Among(batch, ids) == |(set x | x in batch) * ids|
  {
    if batch != [] {
      var last, rest := batch[|batch| - 1], batch[..|batch| - 1];
      AmongIsCount(rest, ids);
      hide Distinct;
      MembersSplit(batch);
      OneMoreMember((set x | x in rest), last, ids);
    } else {
      assert (set x | x in batch) * ids == {};
    }
  }

  /** The counts of the report are those of the requests torn down in the call, by what they were before it. */
  lemma ReportCounts(c: Config, s: State, n: NodeId, supplied: Option<Digest>, cause: Cause, batch: seq<Identity>, now: Time,
                     t: State, events: seq<Event>, p: Transition) returns (torn: set<Identity>)
    requires p.Progress? && TransitionCall(c, s, n, supplied, cause, batch, now, t, events, Ok(p))
    ensures forall id :: id in torn <==> Teardown(id, n, now) in events
    ensures p.reserved == |torn * s.work.reservations.Keys| && p.queued == |torn * s.work.queued.Keys|
    ensures p.claimed == |torn * s.leases.claims.Keys| && p.processed == p.outcomes == |torn|
  {
    hide Gate, TeardownAll, TeardownCount, WorkOf, Started, Finished, Among, EarliestFirst, StartFleet;
    GateDoesNoWork(c, s.fleet, n, supplied, cause, now, p);
    var u := Started(c, s, n, cause, now);
    SameMaps(c, s, n, cause, now);
    var done := batch[..TeardownCount(c, u, batch, now)];
    torn := set x | x in done;
    AmongIsCount(done, s.work.reservations.Keys);
    AmongIsCount(done, s.work.queued.Keys);
    AmongIsCount(done, s.leases.claims.Keys);
    AllDistinct(done);
    TornAre(done, n, now, events, if n in s.fleet.pending then [] else [StartTransition(n, cause, now)],
            if WorkOf(TeardownAll(c, u, batch, now).work, n) != {} then [] else [CompleteTransition(n, now)]);
  }

  lemma SameMaps(c: Config, s: State, n: NodeId, cause: Cause, now: Time)
    requires n in s.fleet.pending || n in s.fleet.nodes
    ensures Started(c, s, n, cause, now).work == s.work && Started(c, s, n, cause, now).leases == s.leases
    ensures Started(c, s, n, cause, now).arrivals == s.arrivals
  {
    hide StartFleet, CursorsWithout;
  }

  lemma {:induction false} AllDistinct(batch: seq<Identity>)
    requires Distinct(batch)
    ensures |set x | x in batch| == |batch|
  {
    if batch != [] {
      var last, rest := batch[|batch| - 1], batch[..|batch| - 1];
      AllDistinct(rest);
      MembersSplit(batch);
    } else {
      assert (set x | x in batch) == {};
    }
  }

  lemma TornAre(done: seq<Identity>, n: NodeId, now: Time, events: seq<Event>, before: seq<Event>, after: seq<Event>)
    requires events == before + (Teardowns(done, n, now) + after)
    requires forall e | e in before || e in after :: !e.Teardown?
    ensures forall id :: id in done <==> Teardown(id, n, now) in events
  {
    forall id
      ensures id in done <==> Teardown(id, n, now) in events
    {
      if id in done {
        var i :| 0 <= i < |done| && done[i] == id;
        assert Teardowns(done, n, now)[i] == Teardown(id, n, now);
      }
      if Teardown(id, n, now) in events {
        assert Teardown(id, n, now) in Teardowns(done, n, now);
        var i :| 0 <= i < |done| && Teardowns(done, n, now)[i] == Teardown(id, n, now);
      }
    }
  }

  // ----- The batch -----

  lemma {:induction false} StopsAt(c: Config, s: State, batch: seq<Identity>, now: Time)
    ensures var k := TeardownCount(c, s, batch, now);
            k < |batch| ==> !CanTeardown(c, TeardownAll(c, s, batch, now), batch[k], now)
    decreases |batch|
  {
    hide CanTerminalize, TeardownOne;
    if batch != [] && CanTeardown(c, s, batch[0], now) {
      var u, rest := TeardownOne(c, s, batch[0], now), batch[1..];
      StopsAt(c, u, rest, now);
      var k := TeardownCount(c, u, rest, now);
      assert k < |rest| ==> batch[k + 1] == rest[k];
    }
  }

  /** Completing a transition leaves the room for records and instructions as it is. */
  lemma FinishedSameRoom(c: Config, s: State, n: NodeId, id: Identity, now: Time)
    ensures CanTeardown(c, Finished(c, s, n, now), id, now) <==> CanTeardown(c, s, id, now)
  {
    hide CompleteFleet, WorkOf;
  }

  predicate EarliestOf(a: Arrivals, work: set<Identity>, id: Identity) {
    id in work && forall other | other in work :: PlaceOf(a, id) <= PlaceOf(a, other)
  }

  lemma FirstsOf(c: Config, w: Work, a: Arrivals, n: NodeId, batch: seq<Identity>, k: nat)
    requires IsBatch(c, w, a, n, batch) && k <= |batch|
    ensures var torn := set x | x in batch[..k];
            && torn <= WorkOf(w, n)
            && (forall id, other | id in torn && other in WorkOf(w, n) && other !in torn :: PlaceOf(a, id) <= PlaceOf(a, other))
            && (k < |batch| ==> EarliestOf(a, WorkOf(w, n) - torn, batch[k]))
  {
    hide WorkOf;
    var torn := set x | x in batch[..k];
    forall id, other | id in torn && other in WorkOf(w, n) && other !in torn
      ensures PlaceOf(a, id) <= PlaceOf(a, other)
    {
      var i :| 0 <= i < k && batch[..k][i] == id;
      assert batch[i] == id;
      assert forall x | x in batch[..i] :: x in batch[..k];
    }
    if k < |batch| {
      forall other | other in WorkOf(w, n) - torn
        ensures PlaceOf(a, batch[k]) <= PlaceOf(a, other)
      {
        assert other !in batch[..k];
      }
      assert batch[k] !in batch[..k];
    }
  }

  /**
    A call that goes ahead tears down the earliest of the node's requests, as many as a batch holds or
    there are, or as many until the next in line has no room.
  */
  lemma EarliestGoFirst(c: Config, s: State, n: NodeId, supplied: Option<Digest>, cause: Cause, batch: seq<Identity>, now: Time,
                        t: State, events: seq<Event>, p: Transition) returns (torn: set<Identity>)
    requires p.Progress? && TransitionCall(c, s, n, supplied, cause, batch, now, t, events, Ok(p))
    ensures forall id :: id in torn <==> Teardown(id, n, now) in events
    ensures var all := WorkOf(s.work, n);
            && torn <= all && |torn| <= c.batchSize
            && (forall id, other | id in torn && other in all && other !in torn ::
                  PlaceOf(s.arrivals, id) <= PlaceOf(s.arrivals, other))
            && (|torn| == c.batchSize || torn == all
                || exists next :: EarliestOf(s.arrivals, all - torn, next) && !CanTeardown(c, t, next, now))
  {
    hide Gate, TeardownAll, TeardownCount, WorkOf, Started, Finished, Among, EarliestFirst, StartFleet, Distinct, CanTeardown,
         IsBatch, AdvanceReport, EarliestOf;
    GateDoesNoWork(c, s.fleet, n, supplied, cause, now, p);
    torn := ReportCounts(c, s, n, supplied, cause, batch, now, t, events, p);
    var u := Started(c, s, n, cause, now);
    SameMaps(c, s, n, cause, now);
    var k := TeardownCount(c, u, batch, now);
    TornAre(batch[..k], n, now, events, if n in s.fleet.pending then [] else [StartTransition(n, cause, now)],
            if WorkOf(TeardownAll(c, u, batch, now).work, n) != {} then [] else [CompleteTransition(n, now)]);
    assert torn == set x | x in batch[..k];
    FirstsOf(c, u.work, u.arrivals, n, batch, k);
    BatchCovers(c, u.work, u.arrivals, n, batch, k);
    if k < |batch| {
      StopsAt(c, u, batch, now);
      FinishedSameRoom(c, TeardownAll(c, u, batch, now), n, batch[k], now);
    }
  }

  lemma BatchCovers(c: Config, w: Work, a: Arrivals, n: NodeId, batch: seq<Identity>, k: nat)
    requires IsBatch(c, w, a, n, batch) && k <= |batch|
    ensures var torn := set x | x in batch[..k];
            && |torn| == k <= c.batchSize
            && (k == |batch| ==> |torn| == c.batchSize || torn == WorkOf(w, n))
  {
    hide WorkOf, EarliestFirst;
    var torn := set x | x in batch[..k];
    AllDistinct(batch[..k]);
    if k == |batch| {
      assert batch[..k] == batch;
      SameSize(torn, WorkOf(w, n));
    }
  }

  lemma SameSize(a: set<Identity>, b: set<Identity>)
    requires a <= b
    ensures |a| == |b| ==> a == b
  {
    if a != b {
      var x :| x in b && x !in a;
      SubsetSize(a, b - {x});
    }
  }
}
