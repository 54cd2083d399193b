/**
  What the store promises when its clock never runs backwards: how many claims are live, which
  past-deadline requests are still held, and how long a removed owner stays fenced off.
*/
module StoreClock {
  import opened RelayTypes
  import opened StoreState
  import opened StoreInvariant
  import opened StoreRuns

  ghost predicate Monotone(r: Run) {
    forall i, j | 0 <= i < j < |r.log| :: r.log[i].now <= r.log[j].now
  }

  /** Every deferred identity is live work past its deadline. */
  ghost predicate DeferredInv(w: Work, deferred: set<Identity>, now: Time) {
    forall id | id in deferred :: Held(w, id) && DeadlineOf(w, id) <= now
  }

  ghost predicate LiveBounds(c: Config, claims: map<Identity, Claim>, now: Time) {
    && |LiveClaims(claims, now)| <= c.maxClaims
    && forall n :: |LiveClaimsOn(claims, n, now)| <= c.maxClaimsPerNode
  }

  ghost predicate ClockInv(c: Config, s: State, now: Time) {
    DeferredInv(s.work, s.deferred, now) && LiveBounds(c, s.leases.claims, now)
  }

  /** `b` has no live claim that `a` does not have, on the same node. */
  ghost predicate LiveWithin(a: map<Identity, Claim>, b: map<Identity, Claim>, now: Time) {
    forall id | id in b && b[id].lease > now :: id in a && a[id].lease > now && a[id].node == b[id].node
  }

  lemma FewerLive(c: Config, a: map<Identity, Claim>, b: map<Identity, Claim>, now: Time)
    requires LiveBounds(c, a, now) && LiveWithin(a, b, now)
    ensures LiveBounds(c, b, now)
  {
    SubsetSize(LiveClaims(b, now), LiveClaims(a, now));
    forall n: NodeId
      ensures |LiveClaimsOn(b, n, now)| <= |LiveClaimsOn(a, n, now)|
    {
      SubsetSize(LiveClaimsOn(b, n, now), LiveClaimsOn(a, n, now));
    }
  }

  lemma LaterLive(c: Config, a: map<Identity, Claim>, now: Time, later: Time)
    requires LiveBounds(c, a, now) && now <= later
    ensures LiveBounds(c, a, later)
  {
    SubsetSize(LiveClaims(a, later), LiveClaims(a, now));
    forall n: NodeId
      ensures |LiveClaimsOn(a, n, later)| <= |LiveClaimsOn(a, n, now)|
    {
      SubsetSize(LiveClaimsOn(a, n, later), LiveClaimsOn(a, n, now));
    }
  }

  lemma TakenLive(c: Config, a: map<Identity, Claim>, id: Identity, k: Claim, now: Time)
    requires LiveBounds(c, a, now) && ClaimRoom(c, a, k.node, now)
    requires id in a ==> a[id].lease <= now
    ensures LiveBounds(c, a[id := k], now)
  {
    var b := a[id := k];
    OneMore(LiveClaims(b, now), LiveClaims(a, now), id);
    forall n: NodeId
      ensures |LiveClaimsOn(b, n, now)| <= c.maxClaimsPerNode
    {
      if n == k.node {
        OneMore(LiveClaimsOn(b, n, now), LiveClaimsOn(a, n, now), id);
      } else {
        SubsetSize(LiveClaimsOn(b, n, now), LiveClaimsOn(a, n, now));
      }
    }
  }

  /** A renewal takes no new place among the live claims. */
  lemma LiveStep(c: Config, s: State, e: Event)
    requires Enabled(c, s, e) && LiveBounds(c, s.leases.claims, e.now)
    ensures LiveBounds(c, Apply(c, s, e).leases.claims, e.now)
  {
    hide LiveBounds, CanTerminalize, TransitionRoom, ResponseRoom, ClaimRoom, QueueRoom, LifecycleRoom, Selected, Evicts,
         TerminalFor, Conclude, ReapKept, ReapFleet, StartFleet, CompleteFleet, RegisterFleet,
         AdvanceCursor, RemoveWork, ReserveWork, EnqueueWork, CompletedBy, ResponseTo;
    var a, b := s.leases.claims, Apply(c, s, e).leases.claims;
    if e.TakeClaim? {
      TakenLive(c, a, e.id, b[e.id], e.now);
    } else {
      FewerLive(c, a, b, e.now);
    }
  }

  lemma DeferredStep(c: Config, s: State, e: Event)
    requires WorkInv(s.work) && ClaimInv(s.leases, s.work, s.fleet) && Enabled(c, s, e)
    requires DeferredInv(s.work, s.deferred, e.now)
    ensures DeferredInv(Apply(c, s, e).work, Apply(c, s, e).deferred, e.now)
  {
    hide CanTerminalize, TransitionRoom, ResponseRoom, ClaimRoom, QueueRoom, LifecycleRoom, Selected, Evicts,
         TerminalFor, Conclude, ReapKept, ReapFleet, StartFleet, CompleteFleet, RegisterFleet,
         AdvanceCursor, CompletedBy, ResponseTo;
    if e.Accept? {
      assert DeadlineOf(s.work, e.id) == s.leases.claims[e.id].deadline;
    }
  }

  lemma ClockStep(c: Config, s: State, e: Event)
    requires Consistent(s) && Enabled(c, s, e) && ClockInv(c, s, e.now)
    ensures ClockInv(c, Apply(c, s, e), e.now)
  {
    hide WorkInv, QueueInv, WorkBounds, ClaimInv, FleetInv, FleetBounds, HousedInv, OverInv, KeptInv,
         KeptBounds, CursorInv, Enabled, Apply, DeferredInv, LiveBounds;
    LiveStep(c, s, e);
    DeferredStep(c, s, e);
  }

  lemma ClockLater(c: Config, s: State, now: Time, later: Time)
    requires ClockInv(c, s, now) && now <= later
    ensures ClockInv(c, s, later)
  {
    LaterLive(c, s.leases.claims, now, later);
  }

  lemma ClockInit(c: Config, now: Time)
    ensures ClockInv(c, Init(), now)
  {
    assert LiveClaims(map[], now) == {};
    forall n: NodeId
      ensures LiveClaimsOn(map[], n, now) == {}
    {
    }
  }

  /** At every moment of a run, live claims respect both bounds and deferred work is overdue. */
  lemma {:induction false} ClockHolds(c: Config, r: Run, i: nat, now: Time)
    requires IsRun(c, r) && Monotone(r) && i < |r.states|
    requires i > 0 ==> r.log[i - 1].now <= now
    ensures ClockInv(c, r.states[i], now)
  {
    hide Consistent, Bounded, Enabled, Apply, ClockInv;
    if i == 0 {
      ClockInit(c, now);
    } else {
      var e := r.log[i - 1];
      ClockHolds(c, r, i - 1, e.now);
      RunInv(c, r, i - 1);
      assert StepAt(c, r, i - 1);
      ClockStep(c, r.states[i - 1], e);
      ClockLater(c, r.states[i], e.now, now);
    }
  }

  // ----- Deadlines -----

  /** Nothing past its deadline is ever enqueued, claimed, renewed or completed. */
  lemma ServedBeforeDeadline(c: Config, r: Run, i: nat)
    requires IsRun(c, r) && i < |r.log|
    requires r.log[i].Enqueue? || r.log[i].TakeClaim? || r.log[i].RenewClaim? || r.log[i].Accept?
    ensures Held(r.states[i].work, r.log[i].id)
    ensures r.log[i].now < DeadlineOf(r.states[i].work, r.log[i].id)
  {
    hide Apply, Consistent, Bounded;
    assert StepAt(c, r, i);
    RunInv(c, r, i);
    ClaimKeepsDeadline(c, r.states[i], r.log[i].id);
  }

  lemma ClaimKeepsDeadline(c: Config, s: State, id: Identity)
    requires Consistent(s)
    ensures id in s.leases.claims ==>
              id in s.work.queued && id !in s.work.reservations && s.leases.claims[id].deadline == s.work.queued[id].deadline
    ensures !(id in s.work.reservations && id in s.work.queued)
  {
    hide QueueInv, WorkBounds, FleetInv, FleetBounds, HousedInv, OverInv, KeptInv, KeptBounds, CursorInv;
  }

  // ----- Removed owners -----

  lemma FenceStep(c: Config, s: State, e: Event, k: FenceKey, since: Time)
    requires Enabled(c, s, e) && since <= e.now
    requires k in s.fleet.fences && since + c.terminalRetention <= s.fleet.fences[k].expiry
    ensures var f := Apply(c, s, e).fleet;
            || (k in f.fences && since + c.terminalRetention <= f.fences[k].expiry)
            || (e.Reap? && since + c.terminalRetention <= e.now)
  {
    hide CanTerminalize, TransitionRoom, ResponseRoom, ClaimRoom, QueueRoom, LifecycleRoom, Selected, Evicts,
         TerminalFor, Conclude, ReapKept, AdvanceCursor, RemoveWork, ReserveWork, EnqueueWork, CompletedBy,
         ResponseTo, LiveOwnedClaim;
  }

  lemma {:induction false} FenceStays(c: Config, r: Run, i: nat, j: nat, k: FenceKey, since: Time)
    requires IsRun(c, r) && Monotone(r) && i <= j < |r.states|
    requires i > 0 && since == r.log[i - 1].now
    requires k in r.states[i].fleet.fences && since + c.terminalRetention <= r.states[i].fleet.fences[k].expiry
    requires NotReapedAt(r, i, j, since + c.terminalRetention)
    ensures k in r.states[j].fleet.fences
    ensures since + c.terminalRetention <= r.states[j].fleet.fences[k].expiry
  {
    hide Enabled, Apply;
    if i < j {
      FenceStays(c, r, i, j - 1, k, since);
      assert StepAt(c, r, j - 1);
      FenceStep(c, r.states[j - 1], r.log[j - 1], k, since);
    }
  }

  lemma FenceStarts(c: Config, s: State, e: Event)
    requires Enabled(c, s, e) && e.StartTransition?
    ensures e.node in s.fleet.nodes
    ensures var k, g := FenceKey(e.node, s.fleet.nodes[e.node].credential), Apply(c, s, e).fleet;
            k in g.fences && g.fences[k].expiry == e.now + c.terminalRetention
  {
    hide TransitionRoom, CursorsWithout, WorkOf;
  }

  lemma FenceBars(c: Config, s: State, e: Event)
    requires Enabled(c, s, e) && e.Register?
    ensures FenceKey(e.node, e.credential) !in s.fleet.fences
  {
  }

  /**
    An owner whose node was removed cannot register that node again until the retention of its
    fence has elapsed and been reaped.
  */
  lemma FormerOwnerIsFenced(c: Config, r: Run, i: nat, j: nat) returns (m: nat)
    requires IsRun(c, r) && Monotone(r) && i < j < |r.log|
    requires r.log[i].StartTransition? && r.log[i].node in r.states[i].fleet.nodes
    requires r.log[j].Register? && r.log[j].node == r.log[i].node
    requires r.log[j].credential == r.states[i].fleet.nodes[r.log[i].node].credential
    ensures i < m < j && r.log[m].Reap?
    ensures r.log[i].now + c.terminalRetention <= r.log[m].now
  {
    hide Enabled, Apply;
    var since := r.log[i].now;
    var k := FenceKey(r.log[j].node, r.log[j].credential);
    assert StepAt(c, r, i) && StepAt(c, r, j);
    FenceStarts(c, r.states[i], r.log[i]);
    FenceBars(c, r.states[j], r.log[j]);
    if NotReapedAt(r, i + 1, j, since + c.terminalRetention) {
      FenceStays(c, r, i + 1, j, k, since);
    }
    m :| i + 1 <= m < j && r.log[m].Reap? && since + c.terminalRetention <= r.log[m].now;
  }
}
