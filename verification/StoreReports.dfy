/**
  Which outcomes reach nobody: exactly when the housekeeping of a call concludes requests, decided by
  the state before the call.
*/
module StoreReports {
  import opened RelayTypes
  import opened StoreState
  import opened StoreInvariant
  import opened StoreRuns
  import opened StoreCalls
  import opened StoreDrain
  import opened StoreHousekeeping

  // ----- Quiet stretches of a run -----

  /** `after` continues `before` without concluding any request. */
  ghost predicate Quiet(before: Run, after: Run) {
    before.log <= after.log && forall i | |before.log| <= i < |after.log| :: !Concludes(after.log[i])
  }

  /** How many requests were concluded in between. */
  ghost function Outcomes(before: Run, after: Run): nat
    requires |before.log| <= |after.log|
  {
    Conclusions(after.log[|before.log|..])
  }

  lemma QuietTwice(a: Run, b: Run, c: Run)
    requires a.log <= b.log && b.log <= c.log
    ensures Quiet(a, c) <==> Quiet(a, b) && Quiet(b, c)
    ensures Outcomes(a, c) == Outcomes(a, b) + Outcomes(b, c)
  {
    assert c.log[|a.log|..] == b.log[|a.log|..] + c.log[|b.log|..];
    ConclusionsConcat(b.log[|a.log|..], c.log[|b.log|..]);
    if Quiet(a, b) && Quiet(b, c) {
      forall i | |a.log| <= i < |c.log|
        ensures !Concludes(c.log[i])
      {
        assert i < |b.log| ==> c.log[i] == b.log[i];
      }
    }
    if Quiet(a, c) {
      forall i | |a.log| <= i < |b.log|
        ensures !Concludes(b.log[i])
      {
        assert c.log[i] == b.log[i];
      }
    }
  }

  lemma QuietIff(a: Run, b: Run)
    requires a.log <= b.log
    ensures Quiet(a, b) <==> Outcomes(a, b) == 0
    ensures Quiet(a, b) <==> forall e | e in b.log[|a.log|..] :: !Concludes(e)
  {
    var events := b.log[|a.log|..];
    NoConclusions(events);
    assert forall i | |a.log| <= i < |b.log| :: b.log[i] == events[i - |a.log|];
    assert forall k | 0 <= k < |events| :: events[k] == b.log[|a.log| + k];
  }

  // ----- What the calls report -----

  /** A response is reported as a new outcome exactly if the decision concludes a request. */
  lemma AcceptReportsOwn(c: Config, s: State, n: NodeId, owner: Digest, consumer: Digest, id: Identity,
                         generation: nat, envelope: Envelope, now: Time)
    ensures var d := AcceptCall(c, s, n, owner, consumer, id, generation, envelope, now);
            Conclusions(d.events) == if d.outcome.Ok? && d.outcome.value.newOutcome then 1 else 0
  {
    hide AcceptCall;
    AtMostOne(AcceptCall(c, s, n, owner, consumer, id, generation, envelope, now).events);
    AcceptEvents(c, s, n, owner, consumer, id, generation, envelope, now);
  }

  /** So is a cancellation or an expiry. */
  lemma CancelReportsOwn(c: Config, s: State, id: Identity, token: Option<Digest>, expire: bool, now: Time)
    ensures var d := CancelCall(c, s, id, token, expire, now);
            Conclusions(d.events) == if d.outcome.Ok? && d.outcome.value.Concluded? && d.outcome.value.newOutcome then 1 else 0
  {
    hide CancelCall;
    AtMostOne(CancelCall(c, s, id, token, expire, now).events);
    CancelEvents(c, s, id, token, expire, now);
  }

  lemma AcceptEvents(c: Config, s: State, n: NodeId, owner: Digest, consumer: Digest, id: Identity,
                     generation: nat, envelope: Envelope, now: Time)
    ensures var events := AcceptCall(c, s, n, owner, consumer, id, generation, envelope, now).events;
            events == [] || (|events| == 1 && Concludes(events[0]))
  {
    hide ResponseRoom;
  }

  lemma CancelEvents(c: Config, s: State, id: Identity, token: Option<Digest>, expire: bool, now: Time)
    ensures var events := CancelCall(c, s, id, token, expire, now).events;
            events == [] || (|events| == 1 && Concludes(events[0]))
  {
    hide CanTerminalize;
  }

  // No other call decides to conclude a request.

  lemma RegisterConcludesNothing(c: Config, s: State, n: NodeId, caps: Capabilities, owner: Digest, now: Time)
    ensures Conclusions(RegisterCall(c, s, n, caps, owner, now).events) == 0
  {
    NoConclusions(RegisterCall(c, s, n, caps, owner, now).events);
  }

  lemma RenewConcludesNothing(c: Config, s: State, n: NodeId, owner: Digest, caps: Option<Capabilities>, now: Time)
    ensures Conclusions(RenewCall(c, s, n, owner, caps, now).events) == 0
  {
    NoConclusions(RenewCall(c, s, n, owner, caps, now).events);
  }

  lemma SchedulerConcludesNothing(s: State, n: NodeId, owner: Digest, state: SchedulerState, now: Time)
    ensures Conclusions(SetSchedulerCall(s, n, owner, state, now).events) == 0
  {
    NoConclusions(SetSchedulerCall(s, n, owner, state, now).events);
  }

  lemma ClaimConcludesNothing(c: Config, s: State, n: NodeId, owner: Digest, consumer: Digest, now: Time)
    ensures Conclusions(ClaimCall(c, s, n, owner, consumer, now).events) == 0
  {
    hide FirstClaimable, ClaimRoom, QueueOf;
    NoConclusions(ClaimCall(c, s, n, owner, consumer, now).events);
  }

  lemma RenewClaimConcludesNothing(c: Config, s: State, n: NodeId, owner: Digest, consumer: Digest, id: Identity,
                                   generation: nat, acknowledge: bool, now: Time)
    ensures Conclusions(RenewClaimCall(c, s, n, owner, consumer, id, generation, acknowledge, now).events) == 0
  {
    NoConclusions(RenewClaimCall(c, s, n, owner, consumer, id, generation, acknowledge, now).events);
  }

  lemma RetrievalConcludesNothing(s: State, id: Identity, credential: Option<Digest>, supplied: SuppliedAck, now: Time)
    ensures Conclusions(RetrieveCall(s, id, credential, supplied, now).events) == 0
  {
    NoConclusions(RetrieveCall(s, id, credential, supplied, now).events);
  }

  lemma EnqueueConcludesNothing(c: Config, s: State, id: Identity, token: Digest, node: NodeId, fp: Fingerprint,
                                deadline: Time, envelope: Envelope, cancel: Digest, now: Time)
    ensures Conclusions(EnqueueCall(c, s, id, token, node, fp, deadline, envelope, cancel, now).events) == 0
  {
    hide QueueRoom, QueueOf;
    NoConclusions(EnqueueCall(c, s, id, token, node, fp, deadline, envelope, cancel, now).events);
  }

  lemma SelectConcludesNothing(c: Config, s: State, id: Identity, fp: Fingerprint, deadline: Time, cancel: Option<Digest>,
                               token: Digest, now: Time, d: Decision<Selection>)
    requires SelectCall(c, s, id, fp, deadline, cancel, token, now, d)
    ensures Conclusions(d.events) == 0
  {
    hide SelectKnown, Selected, Evicts, Eligible, CursorsFull;
    NoConclusions(d.events);
  }

  /** A transition call reports as many outcomes as it has concluded requests. */
  lemma TransitionReportsAll(c: Config, s: State, n: NodeId, supplied: Option<Digest>, cause: Cause, batch: seq<Identity>,
                             now: Time, t: State, events: seq<Event>, p: Transition)
    requires p.Progress? && TransitionCall(c, s, n, supplied, cause, batch, now, t, events, Ok(p))
    ensures Conclusions(events) == p.outcomes
  {
    hide Among, TeardownAll, TeardownCount, Gate, WorkOf, Started, Finished, IsBatch, Conclusions;
    GateDoesNoWork(c, s.fleet, n, supplied, cause, now, p);
    var u := Started(c, s, n, cause, now);
    var done := batch[..TeardownCount(c, u, batch, now)];
    TeardownsConclude(done, n, now);
    var start := if n in s.fleet.pending then [] else [StartTransition(n, cause, now)];
    var finish := if WorkOf(TeardownAll(c, u, batch, now).work, n) != {} then [] else [CompleteTransition(n, now)];
    AtMostOne(start);
    AtMostOne(finish);
    ConclusionsConcat(start, Teardowns(done, n, now) + finish);
    ConclusionsConcat(Teardowns(done, n, now), finish);
  }

  lemma {:induction false} TeardownsConclude(ids: seq<Identity>, n: NodeId, now: Time)
    ensures Conclusions(Teardowns(ids, n, now)) == |ids|
  {
    var events := Teardowns(ids, n, now);
    if ids != [] {
      TeardownsConclude(ids[..|ids| - 1], n, now);
      assert events[..|ids| - 1] == Teardowns(ids[..|ids| - 1], n, now);
    }
  }

  // ----- One node -----

  /** The request that a batch of the node's work begins with. */
  predicate FirstWork(s: State, n: NodeId, id: Identity) {
    id in WorkOf(s.work, n) && forall j | j in WorkOf(s.work, n) :: PlaceOf(s.arrivals, id) <= PlaceOf(s.arrivals, j)
  }

  /** A transition call that goes ahead for the node finds room for its first request. */
  ghost predicate FirstHasRoom(c: Config, s: State, n: NodeId, now: Time) {
    exists id :: FirstWork(s, n, id) && CanTeardown(c, s, id, now)
  }

  lemma OneFirstWork(s: State, n: NodeId, i: Identity, j: Identity)
    requires WorkInv(s.work) && ArrivalInv(s.work, s.arrivals) && FirstWork(s, n, i) && FirstWork(s, n, j)
    ensures i == j
  {
    assert Held(s.work, i) && Held(s.work, j);
  }

  lemma BatchBegins(c: Config, w: Work, a: Arrivals, n: NodeId, batch: seq<Identity>)
    requires c.Valid() && IsBatch(c, w, a, n, batch)
    ensures batch == [] <==> WorkOf(w, n) == {}
    ensures batch != [] ==> batch[0] in WorkOf(w, n)
                            && forall j | j in WorkOf(w, n) :: PlaceOf(a, batch[0]) <= PlaceOf(a, j)
  {
    hide WorkOf, Distinct;
    if batch != [] {
      assert batch[..0] == [];
    }
  }

  /** Starting a transition touches nothing that tearing down a request depends on. */
  lemma StartedSame(c: Config, s: State, n: NodeId, cause: Cause, now: Time)
    requires n in s.fleet.pending || n in s.fleet.nodes
    ensures SameWork(s, Started(c, s, n, cause, now))
  {
    hide StartFleet, CursorsWithout;
  }

  /** Fleet and cursors apart, the states agree on everything but what is deferred. */
  predicate SameWork(s: State, t: State) {
    t.work == s.work && t.leases == s.leases && t.kept == s.kept && t.arrivals == s.arrivals
  }

  lemma SameRoom(c: Config, s: State, t: State, id: Identity, now: Time)
    requires SameWork(s, t)
    ensures CanTeardown(c, t, id, now) <==> CanTeardown(c, s, id, now)
  {
    hide TerminalRoom, ControlRoom;
  }

  /** A node whose first request has no room is left with all its work, in the state `Idled`. */
  function Idled(c: Config, s: State, n: NodeId, cause: Cause, now: Time): State
    requires n in s.fleet.pending || n in s.fleet.nodes
  {
    Finished(c, Started(c, s, n, cause, now), n, now)
  }

  lemma TearsDownIff(c: Config, s: State, n: NodeId, cause: Cause, batch: seq<Identity>, now: Time)
    requires c.Valid() && WorkInv(s.work) && ArrivalInv(s.work, s.arrivals)
    requires n in s.fleet.pending || n in s.fleet.nodes
    requires var u := Started(c, s, n, cause, now); IsBatch(c, u.work, u.arrivals, n, batch)
    ensures var u := Started(c, s, n, cause, now);
            && (TeardownCount(c, u, batch, now) > 0 <==> FirstHasRoom(c, s, n, now))
            && (TeardownCount(c, u, batch, now) == 0 ==> TeardownAll(c, u, batch, now) == u)
  {
    hide WorkInv, ArrivalInv, CanTeardown, Started, WorkOf, IsBatch, TeardownOne;
    var u := Started(c, s, n, cause, now);
    BatchBegins(c, u.work, u.arrivals, n, batch);
    StartedSame(c, s, n, cause, now);
    if batch != [] {
      SameRoom(c, s, u, batch[0], now);
      assert FirstWork(s, n, batch[0]);
    }
    if FirstHasRoom(c, s, n, now) {
      var id :| FirstWork(s, n, id) && CanTeardown(c, s, id, now);
      OneFirstWork(s, n, id, batch[0]);
    }
  }

  /** What a transition call that goes ahead concludes: something, exactly if its node is ready. */
  lemma CallQuietIff(c: Config, s: State, n: NodeId, supplied: Option<Digest>, cause: Cause, batch: seq<Identity>,
                     now: Time, t: State, events: seq<Event>, out: Outcome<Transition>)
    requires c.Valid() && WorkInv(s.work) && ArrivalInv(s.work, s.arrivals)
    requires TransitionCall(c, s, n, supplied, cause, batch, now, t, events, out)
    requires Gate(c, s.fleet, n, supplied, cause, now, None)
    ensures n in s.fleet.pending || n in s.fleet.nodes
    ensures (forall e | e in events :: !Concludes(e)) <==> !FirstHasRoom(c, s, n, now)
    ensures !FirstHasRoom(c, s, n, now) ==> t == Idled(c, s, n, cause, now)
  {
    hide WorkInv, ArrivalInv, CanTeardown, Started, WorkOf, IsBatch, TeardownAll, TeardownCount, FirstHasRoom, Gate, Among, Finished;
    TearsDownIff(c, s, n, cause, batch, now);
    var u := Started(c, s, n, cause, now);
    var done := TeardownCount(c, u, batch, now);
    var torn := Teardowns(batch[..done], n, now);
    if done > 0 {
      assert torn[0] in events && Concludes(torn[0]);
    }
  }

  // ----- Lapsed nodes, one after the other -----

  predicate IsLeast(nodes: set<NodeId>, n: NodeId) {
    n in nodes && forall m | m in nodes :: n <= m
  }

  lemma HasLeast(nodes: set<NodeId>)
    requires nodes != {}
    ensures exists n :: IsLeast(nodes, n)
    decreases |nodes|
  {
    var some :| some in nodes;
    if nodes == {some} {
      assert IsLeast(nodes, some);
    } else {
      HasLeast(nodes - {some});
      var other :| IsLeast(nodes - {some}, other);
      var least := if other < some then other else some;
      forall m | m in nodes
        ensures least <= m
      {
        assert m == some || m in nodes - {some};
      }
      assert IsLeast(nodes, least);
    }
  }

  ghost function Least(nodes: set<NodeId>): (n: NodeId)
    requires nodes != {}
    ensures IsLeast(nodes, n)
  {
    HasLeast(nodes);
    var n :| IsLeast(nodes, n);
    n
  }

  /** The sweep over lapsed nodes comes to this one, finds room to start, and would start it. */
  predicate CanStart(c: Config, s: State, n: NodeId) {
    n in s.fleet.nodes && TransitionRoom(c, s.fleet, n)
  }

  /** Removing these lapsed nodes in order, as far as there is room, concludes some request. */
  ghost predicate LapsedReady(c: Config, s: State, nodes: set<NodeId>, now: Time)
    decreases |nodes|
  {
    && nodes != {}
    && var n := Least(nodes);
    && CanStart(c, s, n)
    && (FirstHasRoom(c, s, n, now) || LapsedReady(c, Idled(c, s, n, LeaseExpired, now), nodes - {n}, now))
  }

  /** There is room to remove all of these nodes, if none of their requests is concluded. */
  ghost predicate AllStart(c: Config, s: State, nodes: set<NodeId>, now: Time)
    decreases |nodes|
  {
    nodes != {} ==>
      var n := Least(nodes);
      CanStart(c, s, n) && AllStart(c, Idled(c, s, n, LeaseExpired, now), nodes - {n}, now)
  }

  /** The state after that. */
  ghost function AllIdled(c: Config, s: State, nodes: set<NodeId>, now: Time): State
    decreases |nodes|
  {
    if nodes == {} || !CanStart(c, s, Least(nodes)) then s
    else AllIdled(c, Idled(c, s, Least(nodes), LeaseExpired, now), nodes - {Least(nodes)}, now)
  }

  function UpTo(nodes: set<NodeId>, n: NodeId): set<NodeId> {
    set m | m in nodes && m <= n
  }

  /** Some request is concluded exactly if the sweep comes to a node whose first request has room as things are. */
  lemma {:induction false} LapsedReadyIff(c: Config, s: State, nodes: set<NodeId>, now: Time)
    ensures LapsedReady(c, s, nodes, now) <==>
              exists n :: n in nodes && FirstHasRoom(c, s, n, now) && AllStart(c, s, UpTo(nodes, n), now)
    decreases |nodes|
  {
    hide FirstHasRoom, Idled, TransitionRoom;
    if nodes != {} {
      var least := Least(nodes);
      FirstOfUpTo(nodes, least);
      if CanStart(c, s, least) {
        var t, rest := Idled(c, s, least, LeaseExpired, now), nodes - {least};
        LapsedReadyIff(c, t, rest, now);
        IdledSameWork(c, s, least, LeaseExpired, now);
        forall n
          ensures FirstHasRoom(c, t, n, now) <==> FirstHasRoom(c, s, n, now)
        {
          FirstRoomSame(c, s, t, n, now);
        }
      }
    }
  }

  lemma FirstOfUpTo(nodes: set<NodeId>, least: NodeId)
    requires IsLeast(nodes, least)
    ensures UpTo(nodes, least) == {least}
    ensures forall n | n in nodes ::
              UpTo(nodes, n) != {} && Least(UpTo(nodes, n)) == least && UpTo(nodes, n) - {least} == UpTo(nodes - {least}, n)
  {
    forall n | n in nodes
      ensures UpTo(nodes, n) != {} && Least(UpTo(nodes, n)) == least
    {
      LeastIs(UpTo(nodes, n), least);
    }
  }

  lemma IdledSameWork(c: Config, s: State, n: NodeId, cause: Cause, now: Time)
    requires CanStart(c, s, n)
    ensures SameWork(s, Idled(c, s, n, cause, now))
  {
    hide StartFleet, CompleteFleet, CursorsWithout, WorkOf;
  }

  // ----- Calls -----

  ghost predicate OverdueReady(c: Config, s: State, now: Time) {
    exists id :: Held(s.work, id) && DeadlineOf(s.work, id) <= now && CanTerminalize(c, s, id, Expired, false, now)
  }

  ghost function AfterReap(c: Config, s: State, now: Time): State {
    s.(kept := ReapKept(s.kept, now), fleet := ReapFleet(s.fleet, now))
  }

  /** The first pending node, unless this sweep has just started it, has work with room. */
  ghost predicate PendingReady(c: Config, s: State, started: set<NodeId>, now: Time) {
    && s.fleet.pending.Keys != {}
    && Least(s.fleet.pending.Keys) !in started
    && FirstHasRoom(c, s, Least(s.fleet.pending.Keys), now)
  }

  /** Removing lapsed nodes, and if asked continuing a pending one, concludes some request. */
  ghost predicate ExpireConcludes(c: Config, s: State, now: Time, continuing: bool) {
    var r := AfterReap(c, s, now);
    var lapsed := Lapsed(r.fleet, now);
    || LapsedReady(c, r, lapsed, now)
    || (continuing && AllStart(c, r, lapsed, now) && PendingReady(c, AllIdled(c, r, lapsed, now), lapsed, now))
  }

  /** The housekeeping that opens most calls concludes some request. */
  ghost predicate ReapConcludes(c: Config, s: State, now: Time) {
    var r := AfterReap(c, s, now);
    OverdueReady(c, r, now) || LapsedReady(c, r, Lapsed(r.fleet, now), now)
  }

  // ----- What deferring and reaping again leave as it is -----

  lemma IdledSame(c: Config, s: State, n: NodeId, now: Time, deferred: set<Identity>)
    requires n in s.fleet.pending || n in s.fleet.nodes
    ensures Idled(c, s.(deferred := deferred), n, LeaseExpired, now) == Idled(c, s, n, LeaseExpired, now).(deferred := deferred)
  {
    hide StartFleet, CompleteFleet, CursorsWithout;
  }

  lemma FirstRoomSame(c: Config, s: State, t: State, n: NodeId, now: Time)
    requires SameWork(s, t)
    ensures FirstHasRoom(c, t, n, now) <==> FirstHasRoom(c, s, n, now)
  {
    hide CanTeardown;
    forall id: Identity
      ensures FirstWork(t, n, id) && CanTeardown(c, t, id, now) <==> FirstWork(s, n, id) && CanTeardown(c, s, id, now)
    {
      SameRoom(c, s, t, id, now);
    }
  }

  lemma {:induction false} LapsedReadySame(c: Config, s: State, nodes: set<NodeId>, now: Time, deferred: set<Identity>)
    ensures LapsedReady(c, s.(deferred := deferred), nodes, now) <==> LapsedReady(c, s, nodes, now)
    decreases |nodes|
  {
    hide FirstHasRoom, Idled, TransitionRoom;
    if nodes != {} {
      var n := Least(nodes);
      FirstRoomSame(c, s, s.(deferred := deferred), n, now);
      if CanStart(c, s, n) {
        IdledSame(c, s, n, now, deferred);
        LapsedReadySame(c, Idled(c, s, n, LeaseExpired, now), nodes - {n}, now, deferred);
      }
    }
  }

  lemma ReapedAgain(c: Config, s: State, now: Time)
    requires Reaped(s, now)
    ensures AfterReap(c, s, now) == s
  {
    ReapedKeeps(s, now);
  }

  lemma ReapIsAfterReap(c: Config, s: State, now: Time)
    ensures Enabled(c, s, Reap(now)) && Apply(c, s, Reap(now)) == AfterReap(c, s, now)
    ensures Reaped(AfterReap(c, s, now), now)
  {
    ReapReaps(c, s, now);
  }

  // ----- Deadlines -----

  lemma DueQuietIff(c: Config, before: Run, after: Run, ids: seq<Identity>, now: Time)
    requires IsRun(c, before) && IsRun(c, after) && WorkedOff(before, after, ids, now) && before.states <= after.states
    requires forall id :: id in ids <==> Held(Last(before).work, id) && DeadlineOf(Last(before).work, id) <= now
    ensures Quiet(before, after) <==> !OverdueReady(c, Last(before), now)
    ensures Quiet(before, after) ==> Last(after) == Last(before).(deferred := Last(after).deferred)
  {
    hide StepAt, CanTerminalize, Held, DeadlineOf;
    SomeExpiresIff(c, before, after, ids, now);
    if Quiet(before, after) {
      forall k: nat | k < |ids|
        ensures !ExpiredAt(before, after, k)
      {
        assert !Concludes(after.log[|before.log| + k]);
      }
      AllDeferred(before, after, ids, now, |ids|);
      OnlyDeferred(c, before, after, ids, now, |ids|);
    } else {
      var i :| |before.log| <= i < |after.log| && Concludes(after.log[i]);
      var k := i - |before.log|;
      assert after.log[|before.log| + k] == Expire(ids[k], now) || after.log[|before.log| + k] == Defer(ids[k], now);
      assert ExpiredAt(before, after, k);
    }
  }

  // ----- What the housekeeping of a call concludes -----

  lemma LeastIs(nodes: set<NodeId>, n: NodeId)
    requires IsLeast(nodes, n)
    ensures nodes != {} && Least(nodes) == n
  {
  }

  /** What became of one lapsed node: `removed` if there was room to start, and what that concluded. */
  ghost predicate NodeLapses(c: Config, before: Run, after: Run, n: NodeId, now: Time, removed: bool)
    requires IsRun(c, before) && IsRun(c, after)
  {
    var s := Last(before);
    && before.log <= after.log
    && (removed <==> CanStart(c, s, n))
    && (Quiet(before, after) <==> removed ==> !FirstHasRoom(c, s, n, now))
    && (Quiet(before, after) && removed ==> Last(after) == Idled(c, s, n, LeaseExpired, now))
    && (!removed ==> Last(after) == s)
  }

  lemma LapsedNodeCall(c: Config, before: Run, after: Run, n: NodeId, batch: seq<Identity>, now: Time, out: Outcome<Transition>)
    requires IsRun(c, before) && IsRun(c, after) && before.log <= after.log
    requires n in Lapsed(Last(before).fleet, now)
    requires TransitionCall(c, Last(before), n, None, LeaseExpired, batch, now, Last(after), after.log[|before.log|..], out)
    ensures NodeLapses(c, before, after, n, now, out.Ok?)
  {
    hide StepAt, WorkInv, ArrivalInv, TransitionCall, FirstHasRoom, Idled, TransitionRoom, Consistent, Bounded;
    var s, events := Last(before), after.log[|before.log|..];
    RunWork(c, before);
    LapsedGate(c, s, n, now);
    QuietIff(before, after);
    LapsedOutcome(c, s, n, batch, now, Last(after), events, out);
    if CanStart(c, s, n) {
      CallQuietIff(c, s, n, None, LeaseExpired, batch, now, Last(after), events, out);
    }
  }

  lemma RunWork(c: Config, r: Run)
    requires IsRun(c, r)
    ensures c.Valid() && Inv(c, Last(r)) && WorkInv(Last(r).work) && FleetInv(Last(r).fleet)
    ensures ArrivalInv(Last(r).work, Last(r).arrivals)
  {
    hide StepAt, Bounded, WorkInv, FleetInv, QueueInv, ClaimInv, HousedInv, OverInv, KeptInv, CursorInv, ArrivalInv;
    RunInv(c, r, |r.log|);
    ArrivalsHold(c, r, |r.log|);
  }

  lemma LapsedGate(c: Config, s: State, n: NodeId, now: Time)
    requires FleetInv(s.fleet) && n in Lapsed(s.fleet, now)
    ensures CanStart(c, s, n) <==> Gate(c, s.fleet, n, None, LeaseExpired, now, None)
  {
    hide TransitionRoom;
  }

  lemma LapsedOutcome(c: Config, s: State, n: NodeId, batch: seq<Identity>, now: Time, t: State, events: seq<Event>,
                      out: Outcome<Transition>)
    requires FleetInv(s.fleet) && n in Lapsed(s.fleet, now)
    requires TransitionCall(c, s, n, None, LeaseExpired, batch, now, t, events, out)
    ensures out.Ok? <==> CanStart(c, s, n)
    ensures !out.Ok? ==> events == [] && t == s
  {
    hide TransitionRoom, TeardownAll, TeardownCount, AdvanceReport, IsBatch, WorkOf;
  }

  /**
    How far a sweep over lapsed nodes has come, `todo` being left: while nothing is concluded, what
    there is to conclude and where it ends are as they were; once something is, there was something.
  */
  ghost predicate SoFar(c: Config, before: Run, after: Run, nodes: set<NodeId>, todo: set<NodeId>, now: Time)
    requires IsRun(c, before) && IsRun(c, after)
  {
    var s, t := Last(before), Last(after);
    && before.log <= after.log
    && if Quiet(before, after) then
         && (LapsedReady(c, s, nodes, now) <==> LapsedReady(c, t, todo, now))
         && (AllStart(c, s, nodes, now) <==> AllStart(c, t, todo, now))
         && AllIdled(c, s, nodes, now) == AllIdled(c, t, todo, now)
       else LapsedReady(c, s, nodes, now)
  }

  lemma SoFarFirst(c: Config, r: Run, nodes: set<NodeId>, now: Time)
    requires IsRun(c, r)
    ensures SoFar(c, r, r, nodes, nodes, now)
  {
    hide LapsedReady, AllStart, AllIdled;
  }

  lemma SoFarNext(c: Config, a: Run, b: Run, d: Run, nodes: set<NodeId>, todo: set<NodeId>, n: NodeId, now: Time)
    requires IsRun(c, a) && IsRun(c, b) && IsRun(c, d)
    requires SoFar(c, a, b, nodes, todo, now) && IsLeast(todo, n) && NodeLapses(c, b, d, n, now, true)
    ensures SoFar(c, a, d, nodes, todo - {n}, now)
  {
    hide CanStart, FirstHasRoom, Idled;
    LeastIs(todo, n);
    QuietTwice(a, b, d);
  }

  /** What a sweep over lapsed nodes has done when it is over; `done` if it has not failed. */
  ghost predicate NodesLapse(c: Config, before: Run, after: Run, nodes: set<NodeId>, now: Time, done: bool)
    requires IsRun(c, before) && IsRun(c, after)
  {
    var s := Last(before);
    && before.log <= after.log
    && (Quiet(before, after) <==> !LapsedReady(c, s, nodes, now))
    && (Quiet(before, after) ==> (done <==> AllStart(c, s, nodes, now)))
    && (Quiet(before, after) && done ==> Last(after) == AllIdled(c, s, nodes, now))
  }

  lemma SoFarFails(c: Config, a: Run, b: Run, d: Run, nodes: set<NodeId>, todo: set<NodeId>, n: NodeId, now: Time)
    requires IsRun(c, a) && IsRun(c, b) && IsRun(c, d)
    requires SoFar(c, a, b, nodes, todo, now) && IsLeast(todo, n) && NodeLapses(c, b, d, n, now, false)
    ensures NodesLapse(c, a, d, nodes, now, false)
  {
    hide CanStart, FirstHasRoom, Idled;
    LeastIs(todo, n);
    QuietTwice(a, b, d);
  }

  lemma SoFarEnds(c: Config, a: Run, b: Run, nodes: set<NodeId>, now: Time)
    requires IsRun(c, a) && IsRun(c, b) && SoFar(c, a, b, nodes, {}, now)
    ensures NodesLapse(c, a, b, nodes, now, true)
  {
  }

  lemma PendingQuiet(c: Config, before: Run, after: Run, n: NodeId, batch: seq<Identity>, now: Time, out: Outcome<Transition>)
    requires IsRun(c, before) && IsRun(c, after) && before.log <= after.log
    requires n in Last(before).fleet.pending
    requires var p := Last(before).fleet.pending[n];
             TransitionCall(c, Last(before), n, if p.cause == ExplicitUnregister then Some(p.credential) else None, p.cause,
                            batch, now, Last(after), after.log[|before.log|..], out)
    ensures Quiet(before, after) <==> !FirstHasRoom(c, Last(before), n, now)
  {
    hide StepAt, WorkInv, ArrivalInv, TransitionCall, FirstHasRoom, Idled, TransitionRoom, Consistent, Bounded;
    var s := Last(before);
    var p := s.fleet.pending[n];
    RunWork(c, before);
    QuietIff(before, after);
    var supplied := if p.cause == ExplicitUnregister then Some(p.credential) else None;
    CallQuietIff(c, s, n, supplied, p.cause, batch, now, Last(after), after.log[|before.log|..], out);
  }

  /** A sweep: a reap, the removal of lapsed nodes, and if that succeeds perhaps a pending transition. */
  lemma ExpireQuietIff(c: Config, a: Run, b: Run, d: Run, e: Run, lapsed: set<NodeId>, now: Time, done: bool, continuing: bool)
    requires IsRun(c, a) && IsRun(c, b) && IsRun(c, d)
    requires Quiet(a, b) && Last(b) == AfterReap(c, Last(a), now) && lapsed == Lapsed(Last(b).fleet, now)
    requires NodesLapse(c, b, d, lapsed, now, done) && d.log <= e.log
    requires if done && continuing then Quiet(d, e) <==> !PendingReady(c, Last(d), lapsed, now) else d.log == e.log
    ensures a.log <= e.log && (Quiet(a, e) <==> !ExpireConcludes(c, Last(a), now, continuing))
  {
    hide Lapsed, LapsedReady, AllStart, AllIdled, PendingReady, AfterReap;
    QuietTwice(b, d, e);
    QuietTwice(a, b, e);
  }

  lemma TidyQuiet(before: Run, tidy: Run, now: Time)
    requires Housekept(before, tidy, now)
    ensures before.log <= tidy.log && (Quiet(before, tidy) <==> Outcomes(before, tidy) == 0)
  {
    QuietIff(before, tidy);
  }

  lemma NothingQuiet(r: Run)
    ensures Quiet(r, r)
  {
  }

  lemma EventsQuiet(before: Run, after: Run, events: seq<Event>)
    requires Continues(before, after, events) && forall e | e in events :: !Concludes(e)
    ensures Quiet(before, after)
  {
    forall i | |before.log| <= i < |after.log|
      ensures !Concludes(after.log[i])
    {
      assert after.log[i] == events[i - |before.log|];
    }
  }

  /** A reap, the overdue work, the lapsed nodes, and, unless those failed, the lapsed reservations. */
  lemma ReapQuietIff(c: Config, a: Run, b: Run, d: Run, e: Run, f: Run, now: Time)
    requires IsRun(c, a) && IsRun(c, b) && IsRun(c, d)
    requires Quiet(a, b) && Last(b) == AfterReap(c, Last(a), now) && b.log <= d.log
    requires Quiet(b, d) <==> !OverdueReady(c, Last(b), now)
    requires Quiet(b, d) ==> Last(d) == Last(b).(deferred := Last(d).deferred)
    requires Reaped(Last(d), now) && d.log <= e.log && (Quiet(d, e) <==> !ExpireConcludes(c, Last(d), now, false))
    requires Quiet(e, f)
    ensures a.log <= f.log && (Quiet(a, f) <==> !ReapConcludes(c, Last(a), now))
  {
    hide Lapsed, LapsedReady, AllStart, AllIdled, PendingReady, AfterReap, OverdueReady, Reaped;
    QuietTwice(d, e, f);
    QuietTwice(b, d, f);
    QuietTwice(a, b, f);
    ReapedAgain(c, Last(d), now);
    if Quiet(b, d) {
      LapsedReadySame(c, Last(b), Lapsed(Last(b).fleet, now), now, Last(d).deferred);
    }
  }

  /** Reaping once more first does not change what a sweep concludes. */
  lemma ExpireAfterReap(c: Config, s: State, now: Time, continuing: bool)
    ensures ExpireConcludes(c, AfterReap(c, s, now), now, continuing) <==> ExpireConcludes(c, s, now, continuing)
  {
    hide Lapsed, LapsedReady, AllStart, AllIdled, PendingReady, AfterReap, Enabled, Apply, Reaped;
    ReapIsAfterReap(c, s, now);
    ReapedAgain(c, AfterReap(c, s, now), now);
  }

  /**
    The whole call: the conclusions of its decision are what it reports, so its report is complete
    exactly if its housekeeping concludes nothing.
  */
  lemma ReportIff<T(!new)>(c: Config, before: Run, tidy: Run, after: Run, now: Time, out: Outcome<T>, d: Decision<T>,
                           concludes: bool)
    requires IsRun(c, tidy) && before.log <= tidy.log && Performed(c, tidy, after, now, out, d)
    requires Quiet(before, tidy) <==> !concludes
    ensures before.log <= after.log
    ensures Outcomes(before, after) == (if Stuck(c, Last(tidy), now) then 0 else Conclusions(d.events)) <==> !concludes
  {
    hide Stuck;
    QuietIff(before, tidy);
    if !Stuck(c, Last(tidy), now) {
      QuietTwice(before, tidy, after);
      assert after.log[|tidy.log|..] == d.events;
    }
  }

  lemma TransitionReports(c: Config, before: Run, after: Run, n: NodeId, supplied: Option<Digest>, cause: Cause,
                          batch: seq<Identity>, now: Time, out: Outcome<Transition>)
    requires IsRun(c, before) && IsRun(c, after) && before.log <= after.log
    requires TransitionCall(c, Last(before), n, supplied, cause, batch, now, Last(after), after.log[|before.log|..], out)
    ensures Outcomes(before, after) == if out.Ok? && out.value.Progress? then out.value.outcomes else 0
  {
    hide StepAt, TransitionCall, Conclusions;
    var s, t, events := Last(before), Last(after), after.log[|before.log|..];
    TransitionEventsNow(c, s, n, supplied, cause, batch, now, t, events, out);
    NoConclusions([]);
    if out.Ok? && out.value.Progress? {
      TransitionReportsAll(c, s, n, supplied, cause, batch, now, t, events, out.value);
    }
  }
}
