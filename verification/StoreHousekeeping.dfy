/**
  What the reaping that opens most calls keeps and what it achieves, whatever order it works in.
*/
module StoreHousekeeping {
  import opened RelayTypes
  import opened StoreState
  import opened StoreInvariant
  import opened StoreRuns
  import opened StoreCalls
  import opened StoreDrain
  import opened StoreClock

  /** `after` continues `before` with housekeeping at `now` only. */
  ghost predicate Housekept(before: Run, after: Run, now: Time) {
    && before.log <= after.log && before.states <= after.states
    && |after.states| - |before.states| == |after.log| - |before.log|
    && forall i | |before.log| <= i < |after.log| :: Housekeeping(after.log[i], now)
  }

  lemma HousekeptTwice(a: Run, b: Run, c: Run, now: Time)
    requires Housekept(a, b, now) && Housekept(b, c, now)
    ensures Housekept(a, c, now)
  {
  }

  // ----- Calls -----

  /** `after` continues `before` with exactly these events. */
  ghost predicate Continues(before: Run, after: Run, events: seq<Event>) {
    && after.log == before.log + events
    && |after.states| == |before.states| + |events|
    && before.states <= after.states
  }

  /** `tidy` is where the housekeeping that opened a call ended: done, or stuck for lack of room. */
  ghost predicate Tidied(c: Config, before: Run, tidy: Run, now: Time) {
    && IsRun(c, tidy) && Housekept(before, tidy, now)
    && (Stuck(c, Last(tidy), now) || (Reaped(Last(tidy), now) && LeasesLive(Last(tidy), now)))
  }

  /** From `before` to `after` overdue work is concluded by expiring it and in no other way. */
  ghost predicate OverdueExpires(before: Run, after: Run, now: Time)
    requires |after.states| == |after.log| + 1
  {
    forall i | |before.log| <= i < |after.log| && Concludes(after.log[i]) && Held(after.states[i].work, after.log[i].id)
               && DeadlineOf(after.states[i].work, after.log[i].id) <= now :: after.log[i].Expire?
  }

  /** The same for calls that also reap deadlines and reservations. */
  ghost predicate SettledBy(c: Config, before: Run, tidy: Run, now: Time) {
    && IsRun(c, tidy) && Housekept(before, tidy, now) && OverdueExpires(before, tidy, now)
    && (Stuck(c, Last(tidy), now) || Settled(c, Last(tidy), now))
  }

  /** The call raised out of stuck housekeeping, or answered and changed exactly what was decided. */
  ghost predicate Performed<T(!new)>(c: Config, tidy: Run, after: Run, now: Time, out: Outcome<T>, d: Decision<T>)
    requires tidy.states != []
  {
    if Stuck(c, Last(tidy), now) then out == Raised(CapacityExceeded) && after == tidy
    else out == d.outcome && Continues(tidy, after, d.events)
  }

  /** No event so far is later than `now`. */
  ghost predicate NotBefore(r: Run, now: Time) {
    forall i | 0 <= i < |r.log| :: r.log[i].now <= now
  }

  /** A call at a moment not before anything recorded keeps the clock running forwards. */
  ghost predicate ClockKept(before: Run, after: Run, now: Time) {
    Monotone(before) && NotBefore(before, now) ==> Monotone(after) && NotBefore(after, now)
  }

  lemma HousekeptClock(c: Config, before: Run, tidy: Run, now: Time)
    requires IsRun(c, tidy) && Housekept(before, tidy, now)
    ensures ClockKept(before, tidy, now) && tidy.states != []
  {
  }

  lemma EventsClock(tidy: Run, after: Run, events: seq<Event>, now: Time)
    requires Continues(tidy, after, events) && forall e | e in events :: e.now == now
    ensures ClockKept(tidy, after, now)
  {
    forall i | |tidy.log| <= i < |after.log|
      ensures after.log[i].now == now
    {
      assert after.log[i] == events[i - |tidy.log|];
    }
  }

  /** What follows from a decision for the whole call: its clock, and that without events nothing changes. */
  lemma CallDone<T(!new)>(c: Config, before: Run, tidy: Run, after: Run, now: Time, out: Outcome<T>, d: Decision<T>)
    requires IsRun(c, tidy) && IsRun(c, after) && Housekept(before, tidy, now) && Performed(c, tidy, after, now, out, d)
    requires forall e | e in d.events :: e.now == now
    ensures ClockKept(before, after, now)
    ensures d.events == [] || Stuck(c, Last(tidy), now) ==> after == tidy
    ensures Stuck(c, Last(tidy), now) ==> out == Raised(CapacityExceeded)
    ensures !Stuck(c, Last(tidy), now) ==> out == d.outcome
  {
    hide StepAt, Stuck, Housekeeping, Monotone, NotBefore;
    HousekeptClock(c, before, tidy, now);
    if !Stuck(c, Last(tidy), now) {
      EventsClock(tidy, after, d.events, now);
      if d.events == [] {
        assert after.log == tidy.log && |after.states| == |tidy.states|;
      }
    }
  }

  lemma LiveIsNotStuck(c: Config, s: State, now: Time)
    requires LeasesLive(s, now)
    ensures !Stuck(c, s, now)
  {
  }

  lemma SettledIsNotStuck(c: Config, s: State, now: Time)
    requires Settled(c, s, now)
    ensures !Stuck(c, s, now)
  {
    hide Reaped, DeadlinesKept;
  }

  lemma ContinuesTwice(a: Run, b: Run, c: Run, first: seq<Event>, second: seq<Event>)
    requires Continues(a, b, first) && Continues(b, c, second)
    ensures Continues(a, c, first + second)
  {
  }

  // ----- What housekeeping keeps -----

  /** Work past its deadline is deferred for lack of room. */
  ghost predicate OverdueDeferred(c: Config, s: State, now: Time) {
    forall id | Held(s.work, id) && DeadlineOf(s.work, id) <= now ::
      id in s.deferred && !CanTerminalize(c, s, id, Expired, false, now)
  }

  /** Reservations whose time is up are gone or deferred. */
  ghost predicate ReservationsKept(s: State, now: Time) {
    forall id | id in s.work.reservations && s.work.reservations[id].expiry <= now :: id in s.deferred
  }

  lemma ReapReaps(c: Config, s: State, now: Time)
    ensures Reaped(Apply(c, s, Reap(now)), now)
  {
    assert Enabled(c, s, Reap(now));
  }

  lemma TerminalizedReaped(c: Config, s: State, id: Identity, verdict: Verdict, reason: Reason, force: bool, now: Time)
    requires c.Valid() && Held(s.work, id) && Reaped(s, now)
    ensures Reaped(Terminalize(c, s, id, verdict, reason, force, now), now)
  {
    hide RemoveWork, TombstoneClaim;
  }

  lemma StartedReaped(c: Config, s: State, n: NodeId, cause: Cause, idle: bool, now: Time)
    requires c.Valid() && FleetInv(s.fleet) && n in s.fleet.nodes && Reaped(s, now)
    ensures Reaped(s.(fleet := StartFleet(c, s.fleet, n, cause, idle, now)), now)
  {
  }

  lemma CompletedReaped(c: Config, s: State, n: NodeId, now: Time)
    requires c.Valid() && Reaped(s, now)
    requires n in s.fleet.pending && FenceKey(n, s.fleet.pending[n].credential) in s.fleet.fences
    ensures Reaped(s.(fleet := CompleteFleet(c, s.fleet, n, now)), now)
  {
  }

  lemma ReapedStep(c: Config, s: State, e: Event)
    requires c.Valid() && FleetInv(s.fleet) && Enabled(c, s, e) && Housekeeping(e, e.now) && Reaped(s, e.now)
    ensures Reaped(Apply(c, s, e), e.now)
  {
    hide CanTerminalize, TransitionRoom, ReapKept, ReapFleet, Terminalize, StartFleet, CompleteFleet, FleetInv, RemoveWork,
         CursorsWithout;
    match e
    case Reap(now) => ReapReaps(c, s, now);
    case Expire(id, now) => TerminalizedReaped(c, s, id, Expired, DeadlineExpired, false, now);
    case Teardown(id, _, now) => TerminalizedReaped(c, s, id, Cancelled, ServerUnregistered, true, now);
    case StartTransition(n, cause, now) => StartedReaped(c, s, n, cause, WorkOf(s.work, n) == {}, now);
    case CompleteTransition(n, now) => CompletedReaped(c, s, n, now);
    case _ =>
  }

  /** No terminal record or tombstone has gone, and no tombstone has changed its node. */
  ghost predicate KeptGrows(k: Kept, m: Kept) {
    && k.terminals.Keys <= m.terminals.Keys && k.controls.Keys <= m.controls.Keys
    && forall id | id in k.controls :: m.controls[id].node == k.controls[id].node
  }

  lemma RoomOnlyShrinks(c: Config, k: Kept, m: Kept, client: Digest, n: NodeId)
    requires KeptGrows(k, m)
    ensures TerminalRoom(c, m, client) ==> TerminalRoom(c, k, client)
    ensures ControlRoom(c, m, n) ==> ControlRoom(c, k, n)
  {
    SubsetSize(k.terminals.Keys, m.terminals.Keys);
    SubsetSize(OfClient(k.terminals.Keys, client), OfClient(m.terminals.Keys, client));
    SubsetSize(k.controls.Keys, m.controls.Keys);
    SubsetSize(ControlsOn(k.controls, n), ControlsOn(m.controls, n));
  }

  /** A second reap at the same moment finds nothing to drop. */
  lemma ReapedKeeps(s: State, now: Time)
    requires Reaped(s, now)
    ensures ReapKept(s.kept, now) == s.kept
  {
  }

  lemma HousekeepingGrows(c: Config, s: State, e: Event, now: Time)
    requires Consistent(s) && Enabled(c, s, e) && Housekeeping(e, now) && Reaped(s, now)
    ensures KeptGrows(s.kept, Apply(c, s, e).kept)
  {
    hide WorkInv, QueueInv, ClaimInv, FleetInv, HousedInv, OverInv, KeptInv, CursorInv, CanTerminalize, TransitionRoom,
         ReapKept, ReapFleet, StartFleet, CompleteFleet, CursorsWithout, RemoveWork, TerminalFor, ControlOf, Reaped;
    if e.Reap? {
      ReapedKeeps(s, now);
    } else if e.Expire? || e.Teardown? {
      LiveIsNotOver(c, s, e.id);
    }
  }

  /** What is held after housekeeping was held before, with the same claim, and is still deferred. */
  lemma HousekeepingLeaves(c: Config, s: State, e: Event, now: Time, id: Identity)
    requires Enabled(c, s, e) && Housekeeping(e, now) && Held(Apply(c, s, e).work, id)
    ensures var t := Apply(c, s, e);
            && Held(s.work, id) && DeadlineOf(s.work, id) == DeadlineOf(t.work, id)
            && (id in s.deferred ==> id in t.deferred)
            && TombstoneClaim(s, id, Expired, false, now) == TombstoneClaim(t, id, Expired, false, now)
  {
    hide CanTerminalize, TransitionRoom, ReapKept, ReapFleet, StartFleet, CompleteFleet, CursorsWithout, Conclude,
         TerminalFor, ControlOf;
  }

  lemma OverdueStep(c: Config, s: State, e: Event, now: Time)
    requires Consistent(s) && Enabled(c, s, e) && Housekeeping(e, now) && Reaped(s, now) && OverdueDeferred(c, s, now)
    ensures OverdueDeferred(c, Apply(c, s, e), now)
  {
    hide Consistent, Enabled, Apply, Housekeeping, Reaped, Held, DeadlineOf, TombstoneClaim, TerminalRoom, ControlRoom, KeptGrows;
    var t := Apply(c, s, e);
    HousekeepingGrows(c, s, e, now);
    forall id | Held(t.work, id) && DeadlineOf(t.work, id) <= now
      ensures id in t.deferred && !CanTerminalize(c, t, id, Expired, false, now)
    {
      HousekeepingLeaves(c, s, e, now, id);
      var claim := TombstoneClaim(s, id, Expired, false, now);
      RoomOnlyShrinks(c, s.kept, t.kept, id.client, if claim.Some? then claim.value.node else 0);
    }
  }

  lemma LeasesStep(c: Config, s: State, e: Event, now: Time)
    requires Enabled(c, s, e) && Housekeeping(e, now)
    ensures LeasesLive(s, now) ==> LeasesLive(Apply(c, s, e), now)
    ensures ReservationsKept(s, now) ==> ReservationsKept(Apply(c, s, e), now)
  {
    hide CanTerminalize, TransitionRoom, ReapKept, CursorsWithout, Conclude, TerminalFor, ControlOf, TombstoneClaim;
  }

  /** Housekeeping loses nothing that it has achieved. */
  lemma {:induction false} HousekeepingKeeps(c: Config, r: Run, i: nat, j: nat, now: Time)
    requires IsRun(c, r) && i <= j < |r.states|
    requires forall m | i <= m < j :: Housekeeping(r.log[m], now)
    ensures Reaped(r.states[i], now) ==> Reaped(r.states[j], now)
    ensures Reaped(r.states[i], now) && OverdueDeferred(c, r.states[i], now) ==> OverdueDeferred(c, r.states[j], now)
    ensures LeasesLive(r.states[i], now) ==> LeasesLive(r.states[j], now)
    ensures ReservationsKept(r.states[i], now) ==> ReservationsKept(r.states[j], now)
  {
    hide Consistent, Bounded, WorkInv, FleetInv, Enabled, Apply, Reaped, OverdueDeferred, LeasesLive, ReservationsKept;
    if i < j {
      HousekeepingKeeps(c, r, i, j - 1, now);
      RunInv(c, r, j - 1);
      InvSaysFleet(c, r.states[j - 1]);
      assert StepAt(c, r, j - 1);
      LeasesStep(c, r.states[j - 1], r.log[j - 1], now);
      if Reaped(r.states[i], now) {
        ReapedStep(c, r.states[j - 1], r.log[j - 1]);
        if OverdueDeferred(c, r.states[i], now) {
          OverdueStep(c, r.states[j - 1], r.log[j - 1], now);
        }
      }
    }
  }

  lemma HousekeptKeeps(c: Config, before: Run, after: Run, now: Time)
    requires IsRun(c, before) && IsRun(c, after) && Housekept(before, after, now)
    ensures Reaped(Last(before), now) ==> Reaped(Last(after), now)
    ensures Reaped(Last(before), now) && OverdueDeferred(c, Last(before), now) ==> OverdueDeferred(c, Last(after), now)
  {
    hide Reaped, OverdueDeferred, StepAt;
    HousekeepingKeeps(c, after, |before.log|, |after.log|, now);
  }

  lemma EventsHousekept(before: Run, after: Run, events: seq<Event>, now: Time)
    requires before.log + events == after.log && |after.states| == |before.states| + |events|
    requires before.states <= after.states && forall e | e in events :: Housekeeping(e, now)
    ensures Housekept(before, after, now)
  {
    hide Housekeeping;
    forall i | |before.log| <= i < |after.log|
      ensures Housekeeping(after.log[i], now)
    {
      assert after.log[i] == events[i - |before.log|];
    }
  }

  // ----- Lapsed nodes -----

  function Lapsed(f: Fleet, now: Time): set<NodeId> {
    set n | n in f.nodes && f.nodes[n].leaseExpiry <= now
  }

  lemma NoneLapsed(s: State, now: Time)
    requires Lapsed(s.fleet, now) == {}
    ensures LeasesLive(s, now)
  {
    forall n | n in s.fleet.nodes
      ensures now < s.fleet.nodes[n].leaseExpiry
    {
      assert n !in Lapsed(s.fleet, now);
    }
  }

  lemma SameLapsed(f: Fleet, g: Fleet, now: Time)
    requires f.nodes == g.nodes
    ensures Lapsed(f, now) == Lapsed(g, now)
  {
  }

  /** A lapsed node is either removed or stays because the transition has no room. */
  lemma LapsedCall(c: Config, s: State, n: NodeId, batch: seq<Identity>, now: Time, t: State, events: seq<Event>,
                   out: Outcome<Transition>)
    requires FleetInv(s.fleet) && n in Lapsed(s.fleet, now)
    requires TransitionCall(c, s, n, None, LeaseExpired, batch, now, t, events, out)
    ensures forall e | e in events :: Housekeeping(e, now)
    ensures if out.Ok? then t.fleet.nodes == s.fleet.nodes - {n} && Lapsed(t.fleet, now) == Lapsed(s.fleet, now) - {n}
            else out == Raised(CapacityExceeded) && t == s && Stuck(c, s, now)
  {
    hide TransitionRoom, TeardownAll, TeardownCount, AdvanceReport, IsBatch, WorkOf;
  }

  /** A sweep is the call that continues a pending transition with its own cause and owner. */
  lemma PendingCall(c: Config, s: State, n: NodeId, batch: seq<Identity>, now: Time, t: State, events: seq<Event>,
                    out: Outcome<Transition>)
    requires n in s.fleet.pending
    requires var p := s.fleet.pending[n];
             TransitionCall(c, s, n, if p.cause == ExplicitUnregister then Some(p.credential) else None, p.cause,
                            batch, now, t, events, out)
    ensures forall e | e in events :: Housekeeping(e, now)
    ensures out.Ok? && SweepOf(c, s, t, n, batch, now)
    ensures t.fleet.nodes == s.fleet.nodes
  {
    hide TransitionRoom, TeardownAll, TeardownCount, AdvanceReport, IsBatch, WorkOf;
  }

  // ----- Overdue work -----

  /** `due` is overdue, and the only overdue work that is not deferred for lack of room yet. */
  ghost predicate StillDue(c: Config, s: State, due: set<Identity>, now: Time) {
    && (forall id | Held(s.work, id) && DeadlineOf(s.work, id) <= now && id !in due ::
          id in s.deferred && !CanTerminalize(c, s, id, Expired, false, now))
    && forall id | id in due :: Held(s.work, id) && DeadlineOf(s.work, id) <= now
  }

  lemma DueStart(c: Config, s: State, due: set<Identity>, now: Time)
    requires Consistent(s)
    requires due == (set id | id in s.work.reservations && s.work.reservations[id].deadline <= now)
                    + (set id | id in s.work.queued && s.work.queued[id].deadline <= now)
    ensures StillDue(c, s, due, now)
    ensures forall id :: id in due <==> Held(s.work, id) && DeadlineOf(s.work, id) <= now
  {
    hide QueueInv, ClaimInv, FleetInv, HousedInv, OverInv, KeptInv, CursorInv, CanTerminalize;
  }

  lemma DueMember(c: Config, s: State, due: set<Identity>, id: Identity, now: Time)
    requires StillDue(c, s, due, now) && id in due
    ensures Held(s.work, id) && DeadlineOf(s.work, id) <= now
  {
    hide CanTerminalize;
  }

  lemma DueEnd(c: Config, s: State, now: Time)
    requires StillDue(c, s, {}, now)
    ensures OverdueDeferred(c, s, now)
  {
    hide CanTerminalize;
  }

  lemma ConcludedIsGone(c: Config, s: State, e: Event)
    requires Enabled(c, s, e) && (e.Expire? || e.Defer?)
    ensures e.Expire? ==> !Held(Apply(c, s, e).work, e.id)
    ensures e.Defer? ==> e.id in Apply(c, s, e).deferred && !CanTerminalize(c, Apply(c, s, e), e.id, Expired, false, e.now)
    ensures forall id | id != e.id && Held(s.work, id) ::
              Held(Apply(c, s, e).work, id) && DeadlineOf(Apply(c, s, e).work, id) == DeadlineOf(s.work, id)
  {
    hide TerminalRoom, ControlRoom, Conclude, TerminalFor;
  }

  /** Concluding or deferring one overdue item leaves exactly the others to do. */
  lemma DueStep(c: Config, s: State, e: Event, due: set<Identity>, now: Time)
    requires Consistent(s) && Reaped(s, now) && StillDue(c, s, due, now)
    requires Enabled(c, s, e) && (e.Expire? || e.Defer?) && e.now == now && e.id in due
    ensures StillDue(c, Apply(c, s, e), due - {e.id}, now)
  {
    hide Consistent, Enabled, Apply, Reaped, Held, DeadlineOf, TombstoneClaim, TerminalRoom, ControlRoom, KeptGrows;
    var t := Apply(c, s, e);
    HousekeepingGrows(c, s, e, now);
    ConcludedIsGone(c, s, e);
    forall id | Held(t.work, id) && DeadlineOf(t.work, id) <= now && id !in due - {e.id}
      ensures id in t.deferred && !CanTerminalize(c, t, id, Expired, false, now)
    {
      HousekeepingLeaves(c, s, e, now, id);
      var claim := TombstoneClaim(s, id, Expired, false, now);
      RoomOnlyShrinks(c, s.kept, t.kept, id.client, if claim.Some? then claim.value.node else 0);
    }
  }

  // ----- The order of concluding -----

  /** Reservations come first as they arrived, then queued requests as they were enqueued. */
  ghost predicate InDueOrder(w: Work, a: Arrivals, ids: seq<Identity>) {
    && (forall i, j | 0 <= i < j < |ids| && ids[i] in w.queued ::
          ids[j] in w.queued && w.queued[ids[i]].sequence <= w.queued[ids[j]].sequence)
    && (forall i, j | 0 <= i < j < |ids| && ids[i] !in w.queued && ids[j] !in w.queued ::
          PlaceOf(a, ids[i]) <= PlaceOf(a, ids[j]))
  }

  /** From `before` to `after` exactly these items were expired or deferred, one after the other. */
  ghost predicate WorkedOff(before: Run, after: Run, ids: seq<Identity>, now: Time) {
    && before.log <= after.log && |after.log| == |before.log| + |ids|
    && forall k | 0 <= k < |ids| ::
         after.log[|before.log| + k] == Expire(ids[k], now) || after.log[|before.log| + k] == Defer(ids[k], now)
  }

  lemma WorkedOffNext(a: Run, b: Run, c: Run, ids: seq<Identity>, id: Identity, now: Time)
    requires WorkedOff(a, b, ids, now) && WorkedOff(b, c, [id], now)
    ensures WorkedOff(a, c, ids + [id], now)
  {
    forall k | 0 <= k < |ids| + 1
      ensures c.log[|a.log| + k] == Expire((ids + [id])[k], now) || c.log[|a.log| + k] == Defer((ids + [id])[k], now)
    {
      if k < |ids| {
        assert c.log[|a.log| + k] == b.log[|a.log| + k];
      } else {
        assert c.log[|a.log| + k] == c.log[|b.log| + 0];
      }
    }
  }

  predicate ExpiredAt(before: Run, after: Run, k: nat) {
    |before.log| + k < |after.log| && after.log[|before.log| + k].Expire?
  }

  /** As long as items are only deferred, the store is as before but for what is deferred. */
  lemma {:induction false} OnlyDeferred(c: Config, before: Run, after: Run, ids: seq<Identity>, now: Time, k: nat)
    requires IsRun(c, before) && IsRun(c, after) && WorkedOff(before, after, ids, now) && before.states <= after.states
    requires k <= |ids| && forall i | 0 <= i < k :: after.log[|before.log| + i] == Defer(ids[i], now)
    ensures var t := after.states[|before.log| + k]; t == Last(before).(deferred := t.deferred)
  {
    hide CanTerminalize;
    if k > 0 {
      OnlyDeferred(c, before, after, ids, now, k - 1);
      assert after.log[|before.log| + k - 1] == Defer(ids[k - 1], now);
      assert StepAt(c, after, |before.log| + k - 1);
    }
  }

  lemma AllDeferred(before: Run, after: Run, ids: seq<Identity>, now: Time, k: nat)
    requires WorkedOff(before, after, ids, now) && k <= |ids| && forall i: nat | i < k :: !ExpiredAt(before, after, i)
    ensures forall i | 0 <= i < k :: after.log[|before.log| + i] == Defer(ids[i], now)
  {
    forall i | 0 <= i < k
      ensures after.log[|before.log| + i] == Defer(ids[i], now)
    {
      assert !ExpiredAt(before, after, i);
    }
  }

  lemma DeferredSameRoom(c: Config, s: State, t: State, id: Identity, now: Time)
    requires t == s.(deferred := t.deferred) && Held(s.work, id)
    ensures CanTerminalize(c, t, id, Expired, false, now) <==> CanTerminalize(c, s, id, Expired, false, now)
  {
  }

  lemma ExpiredHadRoom(c: Config, before: Run, after: Run, ids: seq<Identity>, now: Time, k: nat) returns (id: Identity)
    requires IsRun(c, before) && IsRun(c, after) && WorkedOff(before, after, ids, now) && before.states <= after.states
    requires k < |ids| && ExpiredAt(before, after, k)
    ensures id in ids && Held(Last(before).work, id) && CanTerminalize(c, Last(before), id, Expired, false, now)
  {
    hide CanTerminalize, DeadlineOf, Apply;
    var first := FirstExpired(before, after, ids, now, k);
    OnlyDeferred(c, before, after, ids, now, first);
    assert StepAt(c, after, |before.log| + first);
    id := ids[first];
    DeferredSameRoom(c, Last(before), after.states[|before.log| + first], id, now);
  }

  lemma RoomMeansExpired(c: Config, before: Run, after: Run, ids: seq<Identity>, now: Time, id: Identity) returns (k: nat)
    requires IsRun(c, before) && IsRun(c, after) && WorkedOff(before, after, ids, now) && before.states <= after.states
    requires id in ids && Held(Last(before).work, id) && CanTerminalize(c, Last(before), id, Expired, false, now)
    ensures k < |ids| && ExpiredAt(before, after, k)
  {
    hide CanTerminalize, DeadlineOf, Apply;
    var at: nat :| at < |ids| && ids[at] == id;
    if forall i: nat | i < |ids| :: !ExpiredAt(before, after, i) {
      AllDeferred(before, after, ids, now, |ids|);
      OnlyDeferred(c, before, after, ids, now, at);
      assert StepAt(c, after, |before.log| + at);
      DeferredSameRoom(c, Last(before), after.states[|before.log| + at], id, now);
    }
    k :| k < |ids| && ExpiredAt(before, after, k);
  }

  /** Working off the overdue items expires some of them exactly if one had room to begin with. */
  lemma SomeExpiresIff(c: Config, before: Run, after: Run, ids: seq<Identity>, now: Time)
    requires IsRun(c, before) && IsRun(c, after) && WorkedOff(before, after, ids, now) && before.states <= after.states
    requires forall id :: id in ids <==> Held(Last(before).work, id) && DeadlineOf(Last(before).work, id) <= now
    ensures (exists k: nat :: k < |ids| && ExpiredAt(before, after, k))
            <==> (exists id :: Held(Last(before).work, id) && DeadlineOf(Last(before).work, id) <= now
                               && CanTerminalize(c, Last(before), id, Expired, false, now))
  {
    hide CanTerminalize, Held, DeadlineOf, ExpiredAt, WorkedOff, StepAt;
    var s := Last(before);
    if k: nat :| k < |ids| && ExpiredAt(before, after, k) {
      var id := ExpiredHadRoom(c, before, after, ids, now, k);
    } else if id :| Held(s.work, id) && DeadlineOf(s.work, id) <= now && CanTerminalize(c, s, id, Expired, false, now) {
      var k := RoomMeansExpired(c, before, after, ids, now, id);
    }
  }

  lemma {:induction false} FirstExpired(before: Run, after: Run, ids: seq<Identity>, now: Time, k: nat) returns (first: nat)
    requires WorkedOff(before, after, ids, now) && k < |ids| && ExpiredAt(before, after, k)
    ensures first <= k && after.log[|before.log| + first] == Expire(ids[first], now)
    ensures forall i | 0 <= i < first :: after.log[|before.log| + i] == Defer(ids[i], now)
  {
    if i: nat :| i < k && ExpiredAt(before, after, i) {
      first := FirstExpired(before, after, ids, now, i);
    } else {
      first := k;
      AllDeferred(before, after, ids, now, k);
    }
  }

  lemma NothingInDueOrder(w: Work, a: Arrivals, r: Run, now: Time)
    ensures InDueOrder(w, a, []) && WorkedOff(r, r, [], now)
  {
  }

  lemma NextInDueOrder(w: Work, a: Arrivals, ids: seq<Identity>, id: Identity)
    requires InDueOrder(w, a, ids)
    requires forall x | x in ids && x in w.queued :: id in w.queued && w.queued[x].sequence <= w.queued[id].sequence
    requires id !in w.queued ==> forall x | x in ids && x !in w.queued :: PlaceOf(a, x) <= PlaceOf(a, id)
    ensures InDueOrder(w, a, ids + [id])
  {
  }

  // ----- Overdue work on lapsed nodes -----

  /** Where a request can be torn down it can also expire: an expiry needs no more room. */
  lemma ExpiryNeedsLess(c: Config, s: State, id: Identity, now: Time)
    requires CanTeardown(c, s, id, now)
    ensures CanTerminalize(c, s, id, Expired, false, now)
  {
    hide TerminalRoom, ControlRoom, DeadlineOf;
  }

  /** So the lapsed nodes of a call tear down no overdue work once its deadlines are worked off. */
  lemma NoneTornOverdue(c: Config, before: Run, after: Run, now: Time)
    requires IsRun(c, before) && IsRun(c, after) && Housekept(before, after, now)
    requires Reaped(Last(before), now) && OverdueDeferred(c, Last(before), now)
    ensures forall i | |before.log| <= i < |after.log| && Concludes(after.log[i]) ::
              Held(after.states[i].work, after.log[i].id) && DeadlineOf(after.states[i].work, after.log[i].id) > now
    ensures OverdueExpires(before, after, now)
  {
    hide StepAt, Reaped, OverdueDeferred, Housekeeping, Held, DeadlineOf;
    forall i | |before.log| <= i < |after.log| && Concludes(after.log[i])
      ensures Held(after.states[i].work, after.log[i].id) && DeadlineOf(after.states[i].work, after.log[i].id) > now
    {
      HousekeepingKeeps(c, after, |before.log|, i, now);
      ConcludedInTime(c, after, i, now);
    }
  }

  lemma ConcludedInTime(c: Config, r: Run, i: nat, now: Time)
    requires IsRun(c, r) && i < |r.log| && OverdueDeferred(c, r.states[i], now)
    requires Housekeeping(r.log[i], now) && Concludes(r.log[i])
    ensures Held(r.states[i].work, r.log[i].id) && DeadlineOf(r.states[i].work, r.log[i].id) > now
  {
    hide CanTerminalize, DeadlineOf, Apply;
    assert StepAt(c, r, i);
    if r.log[i].Teardown? {
      ExpiryNeedsLess(c, r.states[i], r.log[i].id, now);
    }
  }

  lemma OverdueExpiresTwice(a: Run, b: Run, c: Run, now: Time)
    requires Housekept(a, b, now) && Housekept(b, c, now)
    requires |b.states| == |b.log| + 1 && |c.states| == |c.log| + 1
    requires OverdueExpires(a, b, now) && OverdueExpires(b, c, now)
    ensures OverdueExpires(a, c, now)
  {
    hide Held, DeadlineOf, Housekeeping;
    forall i | |a.log| <= i < |c.log| && Concludes(c.log[i]) && Held(c.states[i].work, c.log[i].id)
               && DeadlineOf(c.states[i].work, c.log[i].id) <= now
      ensures c.log[i].Expire?
    {
      if i < |b.log| {
        assert c.log[i] == b.log[i] && c.states[i] == b.states[i];
      }
    }
  }

  /** A reap, the deadlines, then the rest of the housekeeping. */
  lemma OverdueOnlyExpires(c: Config, a: Run, b: Run, d: Run, e: Run, ids: seq<Identity>, now: Time)
    requires IsRun(c, a) && IsRun(c, b) && IsRun(c, d) && IsRun(c, e)
    requires Continues(a, b, [Reap(now)]) && Housekept(a, b, now) && Housekept(b, d, now) && WorkedOff(b, d, ids, now)
    requires Housekept(d, e, now) && Reaped(Last(d), now) && OverdueDeferred(c, Last(d), now)
    ensures OverdueExpires(a, e, now)
  {
    hide StepAt, Reaped, OverdueDeferred, Housekeeping, Held, DeadlineOf;
    NoneTornOverdue(c, d, e, now);
    forall i | |b.log| <= i < |d.log|
      ensures d.log[i].Expire? || d.log[i].Defer?
    {
      var k := i - |b.log|;
      assert d.log[|b.log| + k] == Expire(ids[k], now) || d.log[|b.log| + k] == Defer(ids[k], now);
    }
    OverdueExpiresTwice(a, b, d, now);
    HousekeptTwice(a, b, d, now);
    OverdueExpiresTwice(a, d, e, now);
  }

  // ----- Lapsed reservations -----

  function LapsedReservations(s: State, now: Time): set<Identity> {
    set id | id in s.work.reservations && s.work.reservations[id].expiry <= now && id !in s.deferred
  }

  lemma LapsedMember(s: State, id: Identity, now: Time)
    requires id in LapsedReservations(s, now)
    ensures id in s.work.reservations && s.work.reservations[id].expiry <= now && id !in s.deferred
  {
  }

  /** Dropping one lapsed reservation leaves the others as they are. */
  lemma DropStep(c: Config, s: State, id: Identity, now: Time)
    requires Enabled(c, s, DropReservation(id, now))
    ensures var t := Apply(c, s, DropReservation(id, now));
            LapsedReservations(t, now) == LapsedReservations(s, now) - {id}
            && (LeasesLive(s, now) ==> LeasesLive(t, now))
  {
  }

  lemma SettledNow(c: Config, s: State, now: Time)
    requires Reaped(s, now) && LeasesLive(s, now) && OverdueDeferred(c, s, now)
    requires LapsedReservations(s, now) == {}
    ensures Settled(c, s, now)
  {
    hide Reaped, LeasesLive, CanTerminalize;
    forall id | id in s.work.reservations && s.work.reservations[id].expiry <= now
      ensures id in s.deferred
    {
      assert id !in LapsedReservations(s, now);
    }
  }
}
