/**
  When overdue work expires: in the first call that has room for it at its turn, and all of it in a
  call with room enough.
*/
module StoreDeadlines {
  import opened RelayTypes
  import opened StoreState
  import opened StoreInvariant
  import opened StoreRuns
  import opened StoreCalls
  import opened StoreDrain
  import opened StoreHousekeeping
  import opened StoreReports

  // ----- One turn -----

  /** Whether an overdue item expires, in this call or a later one, is decided by the room at its turn alone. */
  lemma TurnDecides(c: Config, before: Run, after: Run, ids: seq<Identity>, now: Time, k: nat)
    requires IsRun(c, before) && IsRun(c, after) && WorkedOff(before, after, ids, now) && before.states <= after.states
    requires k < |ids|
    ensures var s, t := after.states[|before.log| + k], after.states[|before.log| + k + 1];
            && Held(s.work, ids[k]) && DeadlineOf(s.work, ids[k]) <= now
            && (CanTerminalize(c, s, ids[k], Expired, false, now) <==> after.log[|before.log| + k] == Expire(ids[k], now))
            && (CanTerminalize(c, s, ids[k], Expired, false, now) <==> !Held(t.work, ids[k]))
  {
    hide CanTerminalize, DeadlineOf, Terminalize;
    assert StepAt(c, after, |before.log| + k);
    assert after.log[|before.log| + k] == Expire(ids[k], now) || after.log[|before.log| + k] == Defer(ids[k], now);
    ConcludedIsGone(c, after.states[|before.log| + k], after.log[|before.log| + k]);
  }

  /** The first item in the order of the call that has room beforehand expires in it. */
  lemma FirstWithRoomExpires(c: Config, before: Run, after: Run, ids: seq<Identity>, now: Time, k: nat)
    requires IsRun(c, before) && IsRun(c, after) && WorkedOff(before, after, ids, now) && before.states <= after.states
    requires forall id | id in ids :: Held(Last(before).work, id)
    requires k < |ids| && CanTerminalize(c, Last(before), ids[k], Expired, false, now)
    requires forall i | 0 <= i < k :: !CanTerminalize(c, Last(before), ids[i], Expired, false, now)
    ensures after.log[|before.log| + k] == Expire(ids[k], now)
  {
    hide CanTerminalize, DeadlineOf, StepAt;
    OnesBeforeDeferred(c, before, after, ids, now, k);
    OnlyDeferred(c, before, after, ids, now, k);
    DeferredSameRoom(c, Last(before), after.states[|before.log| + k], ids[k], now);
    TurnDecides(c, before, after, ids, now, k);
  }

  lemma {:induction false} OnesBeforeDeferred(c: Config, before: Run, after: Run, ids: seq<Identity>, now: Time, k: nat)
    requires IsRun(c, before) && IsRun(c, after) && WorkedOff(before, after, ids, now) && before.states <= after.states
    requires forall id | id in ids :: Held(Last(before).work, id)
    requires k <= |ids| && forall i | 0 <= i < k :: !CanTerminalize(c, Last(before), ids[i], Expired, false, now)
    ensures forall i | 0 <= i < k :: after.log[|before.log| + i] == Defer(ids[i], now)
  {
    hide CanTerminalize, DeadlineOf, StepAt;
    if k > 0 {
      OnesBeforeDeferred(c, before, after, ids, now, k - 1);
      OnlyDeferred(c, before, after, ids, now, k - 1);
      DeferredSameRoom(c, Last(before), after.states[|before.log| + k - 1], ids[k - 1], now);
      TurnDecides(c, before, after, ids, now, k - 1);
    }
  }

  // ----- Room for all -----

  ghost function Overdue(s: State, now: Time): set<Identity> {
    set id | id in s.work.reservations.Keys + s.work.queued.Keys && DeadlineOf(s.work, id) <= now
  }

  /** The overdue work whose expiry leaves a stop instruction. */
  ghost function Stopping(s: State, now: Time): set<Identity> {
    set id | id in Overdue(s, now) && TombstoneClaim(s, id, Expired, false, now).Some?
  }

  ghost function StoppingOn(s: State, now: Time, n: NodeId): set<Identity> {
    set id | id in Stopping(s, now) && s.leases.claims[id].node == n
  }

  /** Enough retained capacity for the expiry of everything that is overdue. */
  ghost predicate Suffices(c: Config, s: State, now: Time) {
    && |s.kept.terminals| + |Overdue(s, now)| <= c.maxTerminals
    && (forall k :: |OfClient(s.kept.terminals.Keys, k)| + |OfClient(Overdue(s, now), k)| <= c.maxTerminalsPerClient)
    && |s.kept.controls| + |Stopping(s, now)| <= c.maxControls
    && (forall n :: |ControlsOn(s.kept.controls, n)| + |StoppingOn(s, now, n)| <= c.maxControlsPerNode)
  }

  lemma SufficesForEach(c: Config, s: State, id: Identity, now: Time)
    requires Suffices(c, s, now) && Held(s.work, id) && DeadlineOf(s.work, id) <= now
    ensures CanTerminalize(c, s, id, Expired, false, now)
  {
    assert id in Overdue(s, now);
    SubsetSize({id}, Overdue(s, now));
    SubsetSize({id}, OfClient(Overdue(s, now), id.client));
    if TombstoneClaim(s, id, Expired, false, now).Some? {
      SubsetSize({id}, Stopping(s, now));
      SubsetSize({id}, StoppingOn(s, now, s.leases.claims[id].node));
    }
  }

  /** What the expiry of one item leaves of the others and adds to what is kept. */
  lemma ExpiredOne(c: Config, s: State, id: Identity, now: Time)
    requires Enabled(c, s, Expire(id, now))
    ensures var t := Apply(c, s, Expire(id, now));
            && (forall i :: Held(t.work, i) <==> Held(s.work, i) && i != id)
            && (forall i | Held(t.work, i) :: DeadlineOf(t.work, i) == DeadlineOf(s.work, i))
            && t.leases.claims == s.leases.claims - {id}
            && t.kept.terminals.Keys == s.kept.terminals.Keys + {id}
            && t.kept.controls == (if TombstoneClaim(s, id, Expired, false, now).Some?
                                   then s.kept.controls[id := ControlOf(c, s.leases.claims[id], Expired, DeadlineExpired, now)]
                                   else s.kept.controls)
  {
    hide CanTerminalize, ControlOf, TerminalFor;
    var t := Apply(c, s, Expire(id, now));
    assert t == Terminalize(c, s, id, Expired, DeadlineExpired, false, now);
    assert t.work == RemoveWork(s.work, id);
    forall i: Identity
      ensures Held(t.work, i) <==> Held(s.work, i) && i != id
    {
      assert t.work.reservations == s.work.reservations - {id} && t.work.queued == s.work.queued - {id};
    }
  }

  lemma FewerOverdue(c: Config, s: State, id: Identity, now: Time)
    requires Enabled(c, s, Expire(id, now))
    ensures var t := Apply(c, s, Expire(id, now));
            && Overdue(t, now) == Overdue(s, now) - {id} && id in Overdue(s, now)
            && Stopping(t, now) == Stopping(s, now) - {id}
            && forall n :: StoppingOn(t, now, n) == StoppingOn(s, now, n) - {id}
  {
    hide Apply, CanTerminalize, DeadlineOf, ControlOf;
    ExpiredOne(c, s, id, now);
  }

  /** A stop instruction that is left takes the room that was set aside for it. */
  lemma StopsMove(c: Config, s: State, id: Identity, now: Time)
    requires Enabled(c, s, Expire(id, now))
    ensures var t := Apply(c, s, Expire(id, now));
            |t.kept.controls| + |Stopping(t, now)| <= |s.kept.controls| + |Stopping(s, now)|
  {
    var t := Apply(c, s, Expire(id, now));
    ExpiredOne(c, s, id, now);
    FewerOverdue(c, s, id, now);
    assert id in Stopping(s, now) <==> TombstoneClaim(s, id, Expired, false, now).Some?;
    hide Enabled, Apply, Overdue, Stopping, CanTerminalize, TombstoneClaim, DeadlineOf, ControlOf;
    if id in Stopping(s, now) {
      OneMore(t.kept.controls.Keys, s.kept.controls.Keys, id);
    }
  }

  lemma StopsMoveOn(c: Config, s: State, id: Identity, now: Time, n: NodeId)
    requires Enabled(c, s, Expire(id, now))
    ensures var t := Apply(c, s, Expire(id, now));
            |ControlsOn(t.kept.controls, n)| + |StoppingOn(t, now, n)|
              <= |ControlsOn(s.kept.controls, n)| + |StoppingOn(s, now, n)|
  {
    hide Enabled, Apply, Overdue, Stopping, CanTerminalize, DeadlineOf, TombstoneClaim;
    var t := Apply(c, s, Expire(id, now));
    ExpiredOne(c, s, id, now);
    FewerOverdue(c, s, id, now);
    StopIsSetAside(c, s, id, now);
    if id in StoppingOn(s, now, n) {
      OneMore(ControlsOn(t.kept.controls, n), ControlsOn(s.kept.controls, n), id);
    } else {
      SubsetSize(ControlsOn(t.kept.controls, n), ControlsOn(s.kept.controls, n));
    }
  }

  lemma StopIsSetAside(c: Config, s: State, id: Identity, now: Time)
    requires Enabled(c, s, Expire(id, now))
    ensures Held(s.work, id) && (id in Stopping(s, now) <==> TombstoneClaim(s, id, Expired, false, now).Some?)
    ensures id in Stopping(s, now) ==> id in s.leases.claims
  {
    hide CanTerminalize;
  }

  lemma SufficesAfter(c: Config, s: State, id: Identity, now: Time)
    requires Suffices(c, s, now) && Enabled(c, s, Expire(id, now))
    ensures Suffices(c, Apply(c, s, Expire(id, now)), now)
  {
    hide Enabled, Apply, Overdue, Stopping, StoppingOn, ControlsOn, OfClient;
    var t := Apply(c, s, Expire(id, now));
    ExpiredOne(c, s, id, now);
    FewerOverdue(c, s, id, now);
    OneMore(t.kept.terminals.Keys, s.kept.terminals.Keys, id);
    StopsMove(c, s, id, now);
    forall k: Digest
      ensures |OfClient(t.kept.terminals.Keys, k)| + |OfClient(Overdue(t, now), k)|
                <= |OfClient(s.kept.terminals.Keys, k)| + |OfClient(Overdue(s, now), k)|
    {
      OneMoreOfClient(t.kept.terminals.Keys, s.kept.terminals.Keys, id, k);
      OneLessOfClient(Overdue(s, now), id, k);
    }
    forall n: NodeId
      ensures |ControlsOn(t.kept.controls, n)| + |StoppingOn(t, now, n)|
                <= |ControlsOn(s.kept.controls, n)| + |StoppingOn(s, now, n)|
    {
      StopsMoveOn(c, s, id, now, n);
    }
  }

  lemma {:induction false} SufficesThroughout(c: Config, before: Run, after: Run, ids: seq<Identity>, now: Time, k: nat)
    requires IsRun(c, before) && IsRun(c, after) && WorkedOff(before, after, ids, now) && before.states <= after.states
    requires k <= |ids| && Suffices(c, Last(before), now)
    ensures Suffices(c, after.states[|before.log| + k], now)
    ensures forall i | 0 <= i < k :: after.log[|before.log| + i] == Expire(ids[i], now)
  {
    hide Suffices, Enabled, Apply, CanTerminalize, DeadlineOf, Held;
    if k > 0 {
      var s := after.states[|before.log| + k - 1];
      SufficesThroughout(c, before, after, ids, now, k - 1);
      TurnDecides(c, before, after, ids, now, k - 1);
      SufficesForEach(c, s, ids[k - 1], now);
      assert StepAt(c, after, |before.log| + k - 1);
      SufficesAfter(c, s, ids[k - 1], now);
    }
  }

  ghost predicate NoneOverdue(s: State, now: Time) {
    forall id | Held(s.work, id) :: DeadlineOf(s.work, id) > now
  }

  /** With room for everything that is overdue, deferred before or not, the call expires all of it. */
  lemma RoomEndsDeferral(c: Config, before: Run, after: Run, ids: seq<Identity>, now: Time)
    requires IsRun(c, before) && IsRun(c, after) && WorkedOff(before, after, ids, now) && before.states <= after.states
    requires Suffices(c, Last(before), now) && OverdueDeferred(c, Last(after), now)
    ensures forall k | 0 <= k < |ids| :: after.log[|before.log| + k] == Expire(ids[k], now)
    ensures NoneOverdue(Last(after), now)
  {
    hide Suffices, StepAt, CanTerminalize, Held, DeadlineOf;
    SufficesThroughout(c, before, after, ids, now, |ids|);
    forall id | Held(Last(after).work, id)
      ensures DeadlineOf(Last(after).work, id) > now
    {
      if DeadlineOf(Last(after).work, id) <= now {
        SufficesForEach(c, Last(after), id, now);
      }
    }
  }

  lemma NoneBecomesOverdue(c: Config, s: State, e: Event, now: Time)
    requires Enabled(c, s, e) && Housekeeping(e, now) && NoneOverdue(s, now)
    ensures NoneOverdue(Apply(c, s, e), now)
  {
    hide Enabled, Apply, Housekeeping, Held, DeadlineOf, TombstoneClaim;
    forall id | Held(Apply(c, s, e).work, id)
      ensures DeadlineOf(Apply(c, s, e).work, id) > now
    {
      HousekeepingLeaves(c, s, e, now, id);
    }
  }

  lemma {:induction false} NoneOverdueStays(c: Config, r: Run, i: nat, j: nat, now: Time)
    requires IsRun(c, r) && i <= j < |r.states| && NoneOverdue(r.states[i], now)
    requires forall m | i <= m < j :: Housekeeping(r.log[m], now)
    ensures NoneOverdue(r.states[j], now)
  {
    hide Enabled, Apply, NoneOverdue, Housekeeping;
    if i < j {
      NoneOverdueStays(c, r, i, j - 1, now);
      assert StepAt(c, r, j - 1);
      NoneBecomesOverdue(c, r.states[j - 1], r.log[j - 1], now);
    }
  }

  /** If there is room for everything overdue when a call begins, its housekeeping leaves nothing overdue. */
  ghost predicate RoomClears(c: Config, s: State, t: State, now: Time) {
    Suffices(c, AfterReap(c, s, now), now) ==> NoneOverdue(t, now)
  }

  lemma HousekeepingClears(c: Config, s: State, b: Run, d: Run, e: Run, ids: seq<Identity>, now: Time)
    requires IsRun(c, b) && IsRun(c, d) && IsRun(c, e) && Last(b) == AfterReap(c, s, now)
    requires Housekept(b, d, now) && WorkedOff(b, d, ids, now) && OverdueDeferred(c, Last(d), now) && Housekept(d, e, now)
    ensures RoomClears(c, s, Last(e), now)
  {
    hide Suffices, StepAt, NoneOverdue, OverdueDeferred, AfterReap, WorkedOff, Housekeeping;
    if Suffices(c, Last(b), now) {
      RoomEndsDeferral(c, b, d, ids, now);
      NoneOverdueStays(c, e, |d.log|, |e.log|, now);
    }
  }
}
