/**
  Short runs of one node that show how far the store's promises reach.
*/
module StoreScenarios {
  import opened RelayTypes
  import opened StoreState
  import opened StoreInvariant
  import opened StoreRuns
  import opened StoreCalls
  import opened StoreEvents
  import opened StoreDrain
  import opened StoreHousekeeping
  import opened StoreReports
  import opened StoreLimits

  /** Room for one tombstone, batches of one, and a node that takes two requests at a time. */
  const CONFIG := Config(
    leaseTtl := 100.0, maxNodes := 3, reservationTtl := 10.0, maxRequestTtl := 20.0,
    maxReservations := 4, maxReservationsPerClient := 4, maxReservationsPerNode := 4, maxQueueDepthPerNode := 4,
    maxLifecycles := 4, maxQueued := 4, maxQueuedPerClient := 4, maxFingerprints := 4,
    claimTtl := 10.0, maxClaims := 4, maxClaimsPerNode := 4, maxResponses := 4, maxResponsesPerClient := 4,
    replayTtl := 100.0, maxTerminals := 4, maxTerminalsPerClient := 4, terminalRetention := 200.0,
    controlTtl := 100.0, maxControls := 1, maxControlsPerNode := 1, batchSize := 1, maxPending := 2,
    maxNodeTombstones := 2, nodeTombstoneTtl := 100.0, maxFences := 2)

  const NODE: NodeId := 1
  const OWNER: Digest := 7
  const FP := Fingerprint(0, Fast8k)
  const CAPS := Capabilities({0}, Fast8k, 8192, 2)
  const A := Identity(1, 1)
  const B := Identity(2, 2)

  function Place(token: Digest): Reservation {
    Reservation(FP, NODE, 5.0, 5.0, token)
  }

  /** Appending an enabled event to a run. */
  function Then(r: Run, e: Event, t: State): Run {
    Run(r.states + [t], r.log + [e])
  }

  lemma Extend(r: Run, e: Event, t: State)
    requires IsRun(CONFIG, r) && Enabled(CONFIG, Last(r), e) && t == Apply(CONFIG, Last(r), e)
    ensures IsRun(CONFIG, Then(r, e, t)) && Last(Then(r, e, t)) == t
  {
    hide Enabled, Apply;
    RunExtends(CONFIG, r, e);
  }

  // ----- A node with two reservations -----

  function Registered(): State {
    Init().(fleet := Fleet(map[NODE := Registration(CAPS, OWNER, 0.0, 100.0)],
                           map[NODE := SchedulerState(true, false, 0)], map[NODE := 0], 1, map[], map[], map[]))
  }

  function OneReserved(): State {
    Registered().(work := Work(map[A := Place(1)], map[], map[], map[A := 11], map[], map[NODE := {A}], 0),
                  fairness := Fairness(map[FP := Cursor(NODE, 1)], 1), arrivals := Arrivals(map[A := 0], 1))
  }

  function TwoReserved(): State {
    OneReserved().(work := Work(map[A := Place(1), B := Place(2)], map[], map[], map[A := 11, B := 12], map[],
                                map[NODE := {A, B}], 0),
                   fairness := Fairness(map[FP := Cursor(NODE, 2)], 2), arrivals := Arrivals(map[A := 0, B := 1], 2))
  }

  lemma RegisterFirst()
    ensures var e := Register(NODE, CAPS, OWNER, 0.0);
            Enabled(CONFIG, Init(), e) && Apply(CONFIG, Init(), e) == Registered()
  {
  }

  /** With a single registered node, eligible for the request, that node is selected. */
  lemma OnlyNode(s: State)
    requires s.fleet.nodes.Keys == {NODE} && NODE in s.fleet.order && Eligible(CONFIG, s, FP, NODE)
    ensures Selected(CONFIG, s, FP, NODE)
  {
    hide Load, TierOf, ReservedOn, QueueOf;
    assert forall m | m in s.fleet.nodes :: m == NODE;
    assert Tied(CONFIG, s, FP) == {NODE};
  }

  lemma ReserveA()
    ensures var e := Reserve(A, Place(1), Some(11), None, 0.0);
            Enabled(CONFIG, Registered(), e) && Apply(CONFIG, Registered(), e) == OneReserved()
  {
    var s := Registered();
    assert ReservedOn(s.work.reservations, NODE) == {};
    OnlyNode(s);
    assert OfClient(s.work.reservations.Keys, 1) == {} && OfClient(s.work.queued.Keys, 1) == {};
  }

  lemma RoomForB()
    ensures LifecycleRoom(CONFIG, OneReserved().work, 2)
    ensures Selected(CONFIG, OneReserved(), FP, NODE) && Evicts(CONFIG, OneReserved(), FP, None)
  {
    var s := OneReserved();
    assert ReservedOn(s.work.reservations, NODE) == {A};
    OnlyNode(s);
    assert OfClient(s.work.reservations.Keys, 2) == {} && OfClient(s.work.queued.Keys, 2) == {};
  }

  lemma WorkWithB()
    ensures ReserveWork(OneReserved().work, B, Place(2), Some(12)) == TwoReserved().work
    ensures AdvanceCursor(OneReserved().fairness, FP, NODE, None) == TwoReserved().fairness
    ensures Arrive(OneReserved().arrivals, B) == TwoReserved().arrivals
    ensures TwoReserved() == OneReserved().(work := TwoReserved().work, fairness := TwoReserved().fairness,
                                            arrivals := TwoReserved().arrivals)
    ensures B !in OneReserved().kept.terminals && !Held(OneReserved().work, B)
  {
    var v := ReserveWork(OneReserved().work, B, Place(2), Some(12));
    assert {A} + {B} == {A, B};
    assert v.nodeWork == map[NODE := {A, B}];
    assert v.reservations == map[A := Place(1), B := Place(2)] && v.cancelTokens == map[A := 11, B := 12];
  }

  lemma ReserveB()
    ensures var e := Reserve(B, Place(2), Some(12), None, 0.0);
            Enabled(CONFIG, OneReserved(), e) && Apply(CONFIG, OneReserved(), e) == TwoReserved()
  {
    hide LifecycleRoom, Selected, Evicts, ReserveWork, AdvanceCursor, Arrive, OneReserved, TwoReserved, Held;
    RoomForB();
    WorkWithB();
    ReserveEvent(CONFIG, OneReserved(), B, Place(2), Some(12), None, 0.0);
  }

  /** The run that leads to two reservations on the node. */
  function ReservedRun(): Run {
    var start := Run([Init()], []);
    var one := Then(start, Register(NODE, CAPS, OWNER, 0.0), Registered());
    var two := Then(one, Reserve(A, Place(1), Some(11), None, 0.0), OneReserved());
    Then(two, Reserve(B, Place(2), Some(12), None, 0.0), TwoReserved())
  }

  lemma ReservedRunIsRun()
    ensures IsRun(CONFIG, ReservedRun()) && Last(ReservedRun()) == TwoReserved()
  {
    hide Enabled, Apply, Registered, OneReserved, TwoReserved, Init;
    var start := Run([Init()], []);
    var one := Then(start, Register(NODE, CAPS, OWNER, 0.0), Registered());
    var two := Then(one, Reserve(A, Place(1), Some(11), None, 0.0), OneReserved());
    StartIsRun();
    RegisterFirst();
    Extend(start, Register(NODE, CAPS, OWNER, 0.0), Registered());
    ReserveA();
    Extend(one, Reserve(A, Place(1), Some(11), None, 0.0), OneReserved());
    ReserveB();
    Extend(two, Reserve(B, Place(2), Some(12), None, 0.0), TwoReserved());
  }

  lemma StartIsRun()
    ensures IsRun(CONFIG, Run([Init()], []))
  {
  }

  // ----- Load beyond concurrency -----

  /**
    The node carries as much as it takes; then it renews with room for one request only, or reports
    work of its own, and its load exceeds its concurrency.
  */
  lemma LoadMayExceed()
    ensures var s := TwoReserved();
            var lowered, busier := Renew(NODE, CAPS.(maxConcurrency := 1), 1.0), SetScheduler(NODE, SchedulerState(true, false, 1), 1.0);
            && IsRun(CONFIG, ReservedRun()) && Last(ReservedRun()) == s && WithinLoad(s, NODE)
            && Enabled(CONFIG, s, lowered) && !WithinLoad(Apply(CONFIG, s, lowered), NODE)
            && Enabled(CONFIG, s, busier) && !WithinLoad(Apply(CONFIG, s, busier), NODE)
  {
    ReservedRunIsRun();
    LoadOfTwo();
    hide ReservedRun, IsRun;
    RenewEvent(CONFIG, TwoReserved(), NODE, CAPS.(maxConcurrency := 1), 1.0);
    SchedulerEvent(CONFIG, TwoReserved(), NODE, SchedulerState(true, false, 1), 1.0);
  }

  lemma LoadOfTwo()
    ensures NODE in TwoReserved().fleet.scheduler && Load(TwoReserved(), NODE) == 2
    ensures |ReservedOn(TwoReserved().work.reservations, NODE)| == 2
  {
    assert ReservedOn(TwoReserved().work.reservations, NODE) == {A, B};
  }

  // ----- A pending transition without work -----

  function Withdrawn(): State {
    TwoReserved().(fleet := Fleet(map[], map[], map[], 1, map[NODE := PendingTransition(OWNER, ExplicitUnregister, 1.0)],
                                  map[FenceKey(NODE, OWNER) := FormerAuthority(ExplicitUnregister, 1.0, 201.0)],
                                  map[NODE := NodeTombstone(OWNER, ExplicitUnregister, 1.0, false, 101.0)]),
                   fairness := Fairness(map[], 2))
  }

  function Record(verdict: Verdict, reason: Reason, now: Time, cancel: Digest): Terminal {
    Terminal(NODE, None, None, 0, None, now, now, now + 200.0, verdict, CompletedUnavailable, None, None, reason, Some(cancel))
  }

  function FirstTornDown(): State {
    Withdrawn().(work := Work(map[B := Place(2)], map[], map[], map[B := 12], map[], map[NODE := {B}], 0),
                 kept := Kept(map[], map[A := Record(Cancelled, ServerUnregistered, 1.0, 11)], map[]))
  }

  function LastExpired(): State {
    FirstTornDown().(work := Work(map[], map[], map[], map[], map[], map[], 0),
                     kept := Kept(map[], map[A := Record(Cancelled, ServerUnregistered, 1.0, 11),
                                             B := Record(Expired, DeadlineExpired, 5.0, 12)], map[]))
  }

  lemma Withdraw()
    ensures var e := StartTransition(NODE, ExplicitUnregister, 1.0);
            Enabled(CONFIG, TwoReserved(), e) && Apply(CONFIG, TwoReserved(), e) == Withdrawn()
  {
    var s := TwoReserved();
    assert TransitionRoom(CONFIG, s.fleet, NODE);
    assert CursorsWithout(s.fairness.cursors, NODE) == map[];
  }

  lemma WorkWithoutA()
    ensures RemoveWork(Withdrawn().work, A) == FirstTornDown().work
  {
    var v := RemoveWork(Withdrawn().work, A);
    assert {A, B} - {A} == {B};
    assert v.nodeWork == map[NODE := {B}];
    assert v.reservations == map[B := Place(2)] && v.cancelTokens == map[B := 12];
  }

  lemma RecordOfA()
    ensures Held(Withdrawn().work, A) && NodeOf(Withdrawn().work, A) == NODE
    ensures CanTerminalize(CONFIG, Withdrawn(), A, Cancelled, true, 1.0)
    ensures TombstoneClaim(Withdrawn(), A, Cancelled, true, 1.0) == None
    ensures TerminalFor(CONFIG, Withdrawn().work, A, None, Cancelled, ServerUnregistered, 1.0)
              == Record(Cancelled, ServerUnregistered, 1.0, 11)
    ensures Withdrawn().leases.claims == map[] && Withdrawn().deferred == {} && Withdrawn().kept == Kept(map[], map[], map[])
    ensures NODE in Withdrawn().fleet.pending
    ensures FirstTornDown() == Withdrawn().(work := FirstTornDown().work,
                                            kept := Kept(map[], map[A := Record(Cancelled, ServerUnregistered, 1.0, 11)], map[]))
  {
    assert OfClient(Withdrawn().kept.terminals.Keys, 1) == {};
  }

  lemma TearDownFirst()
    ensures var e := Teardown(A, NODE, 1.0);
            Enabled(CONFIG, Withdrawn(), e) && Apply(CONFIG, Withdrawn(), e) == FirstTornDown()
  {
    hide Withdrawn, FirstTornDown, RemoveWork, TerminalFor, TombstoneClaim, TerminalRoom, Held, NodeOf;
    WorkWithoutA();
    RecordOfA();
  }

  lemma NothingElapsed()
    ensures ReapKept(FirstTornDown().kept, 5.0) == FirstTornDown().kept
  {
  }

  lemma NoFenceElapsed()
    ensures ReapFleet(FirstTornDown().fleet, 5.0) == FirstTornDown().fleet
  {
  }

  lemma ReapNothing()
    ensures Enabled(CONFIG, FirstTornDown(), Reap(5.0))
    ensures Apply(CONFIG, FirstTornDown(), Reap(5.0)) == FirstTornDown()
  {
    hide ReapKept, ReapFleet, FirstTornDown;
    NothingElapsed();
    NoFenceElapsed();
  }

  lemma WorkWithoutB()
    ensures RemoveWork(FirstTornDown().work, B) == LastExpired().work
  {
    var v := RemoveWork(FirstTornDown().work, B);
    assert {B} - {B} == {};
    assert v.nodeWork == map[] && v.reservations == map[] && v.cancelTokens == map[];
  }

  lemma RecordOfB()
    ensures Held(FirstTornDown().work, B) && DeadlineOf(FirstTornDown().work, B) == 5.0
    ensures CanTerminalize(CONFIG, FirstTornDown(), B, Expired, false, 5.0)
    ensures TombstoneClaim(FirstTornDown(), B, Expired, false, 5.0) == None
    ensures TerminalFor(CONFIG, FirstTornDown().work, B, None, Expired, DeadlineExpired, 5.0) == Record(Expired, DeadlineExpired, 5.0, 12)
    ensures FirstTornDown().leases.claims == map[] && FirstTornDown().deferred == {}
  {
    assert OfClient(FirstTornDown().kept.terminals.Keys, 2) == {};
  }

  lemma LastFrame()
    ensures LastExpired() == FirstTornDown().(work := LastExpired().work,
                                             kept := FirstTornDown().kept.(terminals := FirstTornDown().kept.terminals[B :=
                                                       Record(Expired, DeadlineExpired, 5.0, 12)]))
  {
  }

  lemma ExpireLast()
    ensures var e := Expire(B, 5.0);
            Enabled(CONFIG, FirstTornDown(), e) && Apply(CONFIG, FirstTornDown(), e) == LastExpired()
  {
    hide FirstTornDown, LastExpired, RemoveWork, TerminalFor, TombstoneClaim, TerminalRoom, Held, DeadlineOf, CanTerminalize, Record;
    WorkWithoutB();
    RecordOfB();
    LastFrame();
  }

  function TornRun(): Run {
    var a := Then(ReservedRun(), StartTransition(NODE, ExplicitUnregister, 1.0), Withdrawn());
    Then(a, Teardown(A, NODE, 1.0), FirstTornDown())
  }

  lemma TornRunIsRun()
    ensures IsRun(CONFIG, TornRun()) && Last(TornRun()) == FirstTornDown()
  {
    hide Enabled, Apply, Withdrawn, FirstTornDown, TwoReserved, ReservedRun;
    var a := Then(ReservedRun(), StartTransition(NODE, ExplicitUnregister, 1.0), Withdrawn());
    ReservedRunIsRun();
    Withdraw();
    Extend(ReservedRun(), StartTransition(NODE, ExplicitUnregister, 1.0), Withdrawn());
    TearDownFirst();
    Extend(a, Teardown(A, NODE, 1.0), FirstTornDown());
  }

  function EmptiedRun(): Run {
    Then(Then(TornRun(), Reap(5.0), FirstTornDown()), Expire(B, 5.0), LastExpired())
  }

  /**
    The node is unregistered with two requests and batches of one; before the next batch a deadline
    ends the second request, and the transition is pending with no work left.
  */
  lemma PendingMayBeIdle()
    ensures IsRun(CONFIG, EmptiedRun()) && Last(EmptiedRun()) == LastExpired()
    ensures NODE in LastExpired().fleet.pending && WorkOf(LastExpired().work, NODE) == {}
  {
    IdleNow();
    hide Enabled, Apply, FirstTornDown, LastExpired, TornRun;
    TornRunIsRun();
    ReapNothing();
    Extend(TornRun(), Reap(5.0), FirstTornDown());
    ExpireLast();
    Extend(Then(TornRun(), Reap(5.0), FirstTornDown()), Expire(B, 5.0), LastExpired());
  }

  lemma IdleNow()
    ensures NODE in LastExpired().fleet.pending && WorkOf(LastExpired().work, NODE) == {}
  {
  }

  // ----- Outcomes that nobody hears of -----

  lemma LastIsSettled()
    ensures Settled(CONFIG, LastExpired(), 5.0)
  {
    var s := LastExpired();
    assert forall id :: !Held(s.work, id);
  }

  lemma OverdueB()
    ensures Held(FirstTornDown().work, B) && DeadlineOf(FirstTornDown().work, B) <= 5.0
    ensures CanTerminalize(CONFIG, FirstTornDown(), B, Expired, false, 5.0)
  {
    assert OfClient(FirstTornDown().kept.terminals.Keys, 2) == {};
  }

  /** No answer to any call of this kind tells a new outcome of B. */
  lemma ToldBefore(token: Option<Digest>, expire: bool)
    ensures var d := CancelCall(CONFIG, LastExpired(), B, token, expire, 5.0);
            && d.events == []
            && d.outcome == Ok(if expire || token == Some(12) then Concluded(Expired, DeadlineExpired, false) else InvalidProof)
  {
    assert B in LastExpired().kept.terminals;
  }

  /**
    B is overdue when its end is asked for.  The housekeeping of that very call expires it, and the call
    answers that the outcome is not new, so nobody is told of it as new.
  */
  lemma NobodyHears(token: Option<Digest>, expire: bool)
    ensures IsRun(CONFIG, TornRun()) && IsRun(CONFIG, EmptiedRun()) && Last(EmptiedRun()) == LastExpired()
    ensures ReapConcludes(CONFIG, Last(TornRun()), 5.0)
    ensures SettledBy(CONFIG, TornRun(), EmptiedRun(), 5.0) && !Stuck(CONFIG, LastExpired(), 5.0)
    ensures Outcomes(TornRun(), EmptiedRun()) == 1
    ensures var d := CancelCall(CONFIG, LastExpired(), B, token, expire, 5.0);
            && d.events == [] && Performed(CONFIG, EmptiedRun(), EmptiedRun(), 5.0, d.outcome, d)
            && d.outcome == Ok(if expire || token == Some(12) then Concluded(Expired, DeadlineExpired, false) else InvalidProof)
  {
    hide StepAt, TornRun, FirstTornDown, LastExpired, Settled, Stuck, CancelCall, AfterReap, Enabled, Apply, CanTerminalize, Held, DeadlineOf,
         LapsedReady;
    TornRunIsRun();
    PendingMayBeIdle();
    LastIsSettled();
    SettledIsNotStuck(CONFIG, LastExpired(), 5.0);
    var events := [Reap(5.0), Expire(B, 5.0)];
    assert EmptiedRun().log == TornRun().log + events;
    EventsHousekept(TornRun(), EmptiedRun(), events, 5.0);
    assert EmptiedRun().log[|TornRun().log|..] == events;
    OneOfTwo(Reap(5.0), Expire(B, 5.0));
    ReapNothing();
    ReapIsAfterReap(CONFIG, FirstTornDown(), 5.0);
    OverdueB();
    ToldBefore(token, expire);
  }

  lemma OneOfTwo(e: Event, f: Event)
    ensures Conclusions([e, f]) == (if Concludes(e) then 1 else 0) + if Concludes(f) then 1 else 0
  {
    assert [e, f] == [e] + [f];
    ConclusionsConcat([e], [f]);
    AtMostOne([e]);
    AtMostOne([f]);
  }

  lemma TornableB(now: Time)
    requires now < 5.0
    ensures FirstWork(FirstTornDown(), NODE, B) && CanTeardown(CONFIG, FirstTornDown(), B, now)
    ensures !OverdueReady(CONFIG, FirstTornDown(), now)
  {
    assert OfClient(FirstTornDown().kept.terminals.Keys, 2) == {};
  }

  lemma NoneToReap(now: Time)
    requires now < 5.0
    ensures AfterReap(CONFIG, FirstTornDown(), now) == FirstTornDown() && Lapsed(FirstTornDown().fleet, now) == {}
    ensures FirstTornDown().fleet.pending.Keys == {NODE}
  {
    hide ReapFleet, ReapKept;
    NoFenceYet(now);
    NoRecordYet(now);
  }

  lemma NoFenceYet(now: Time)
    requires now < 5.0
    ensures ReapFleet(FirstTornDown().fleet, now) == FirstTornDown().fleet
  {
  }

  lemma NoRecordYet(now: Time)
    requires now < 5.0
    ensures ReapKept(FirstTornDown().kept, now) == FirstTornDown().kept
  {
  }

  /**
    Before the deadline no call's opening housekeeping concludes B, but a sweep does: it continues the
    pending transition and tells only which leases have lapsed.
  */
  lemma SweepTearsDown(now: Time)
    requires now < 5.0
    ensures ExpireConcludes(CONFIG, FirstTornDown(), now, true)
    ensures !ReapConcludes(CONFIG, FirstTornDown(), now) && !ExpireConcludes(CONFIG, FirstTornDown(), now, false)
  {
    hide FirstTornDown, AfterReap, Lapsed, OverdueReady, FirstWork, CanTeardown;
    TornableB(now);
    NoneToReap(now);
    LeastIs({NODE}, NODE);
  }

  // ----- A lapsed node with work -----

  function Late(): Reservation {
    Reservation(FP, NODE, 105.0, 105.0, 1)
  }

  /** A reservation made shortly before the lease of its node ends. */
  function LateReserved(): State {
    Registered().(work := Work(map[A := Late()], map[], map[], map[A := 11], map[], map[NODE := {A}], 0),
                  fairness := Fairness(map[FP := Cursor(NODE, 1)], 1), arrivals := Arrivals(map[A := 0], 1))
  }

  function LateRun(): Run {
    Then(Then(Run([Init()], []), Register(NODE, CAPS, OWNER, 0.0), Registered()), Reserve(A, Late(), Some(11), None, 95.0),
         LateReserved())
  }

  lemma ReserveLate()
    ensures var e := Reserve(A, Late(), Some(11), None, 95.0);
            Enabled(CONFIG, Registered(), e) && Apply(CONFIG, Registered(), e) == LateReserved()
  {
    var s := Registered();
    assert ReservedOn(s.work.reservations, NODE) == {};
    OnlyNode(s);
    assert OfClient(s.work.reservations.Keys, 1) == {} && OfClient(s.work.queued.Keys, 1) == {};
  }

  lemma LateLapses()
    ensures var s := LateReserved();
            && AfterReap(CONFIG, s, 100.0) == s && Lapsed(s.fleet, 100.0) == {NODE}
            && CanStart(CONFIG, s, NODE) && FirstWork(s, NODE, A) && CanTeardown(CONFIG, s, A, 100.0)
            && !OverdueReady(CONFIG, s, 100.0)
  {
    var s := LateReserved();
    assert ReapFleet(s.fleet, 100.0) == s.fleet && ReapKept(s.kept, 100.0) == s.kept;
    assert OfClient(s.kept.terminals.Keys, 1) == {};
  }

  /** Whatever is called when the lease has ended tears down the reservation, which is not overdue, unheard. */
  lemma LapsedNodeTearsDown()
    ensures IsRun(CONFIG, LateRun()) && Last(LateRun()) == LateReserved()
    ensures !OverdueReady(CONFIG, AfterReap(CONFIG, LateReserved(), 100.0), 100.0)
    ensures ReapConcludes(CONFIG, LateReserved(), 100.0) && ExpireConcludes(CONFIG, LateReserved(), 100.0, false)
  {
    hide Enabled, Apply, Registered, LateReserved, Init, AfterReap, Lapsed, OverdueReady, FirstWork, CanTeardown, CanStart;
    StartIsRun();
    RegisterFirst();
    Extend(Run([Init()], []), Register(NODE, CAPS, OWNER, 0.0), Registered());
    ReserveLate();
    Extend(Then(Run([Init()], []), Register(NODE, CAPS, OWNER, 0.0), Registered()), Reserve(A, Late(), Some(11), None, 95.0),
           LateReserved());
    LateLapses();
    LeastIs({NODE}, NODE);
  }

  // ----- Overdue work that its requester cancels -----

  function Waiting(id: Identity, sequence: nat): QueuedRequest {
    QueuedRequest(id, NODE, FP, 5.0, 100, 0.0, sequence)
  }

  /** A claim whose lease runs until the deadline. */
  function Lease(sequence: nat): Claim {
    Claim(20, NODE, OWNER, 5.0, 100, sequence, sequence, 5.0)
  }

  function QueuedA(): State {
    TwoReserved().(work := Work(map[B := Place(2)], map[A := Waiting(A, 1)], map[A := 1], map[A := 11, B := 12],
                                map[NODE := [Waiting(A, 1)]], map[NODE := {A, B}], 1))
  }

  function ClaimedA(): State {
    QueuedA().(leases := Leases(map[A := Lease(1)], 1))
  }

  function QueuedB(): State {
    ClaimedA().(work := Work(map[], map[A := Waiting(A, 1), B := Waiting(B, 2)], map[A := 1, B := 2], map[A := 11, B := 12],
                             map[NODE := [Waiting(A, 1), Waiting(B, 2)]], map[NODE := {A, B}], 2))
  }

  function ClaimedB(): State {
    QueuedB().(leases := Leases(map[A := Lease(1), B := Lease(2)], 2))
  }

  function Stopped(now: Time): Terminal {
    Terminal(NODE, Some(OWNER), Some(20), 1, None, now, now, now + 200.0, Cancelled, CompletedUnavailable, None, None,
             RequesterCancelled, Some(11))
  }

  function CancelledA(): State {
    ClaimedB().(work := Work(map[], map[B := Waiting(B, 2)], map[B := 2], map[B := 12],
                             map[NODE := [Waiting(B, 2)]], map[NODE := {B}], 2),
                leases := Leases(map[B := Lease(2)], 2),
                kept := Kept(map[], map[A := Stopped(1.0)],
                             map[A := ControlTombstone(NODE, OWNER, 20, 1, Cancelled, RequesterCancelled, 5.0, false, 101.0)]))
  }

  function DeferredB(): State {
    CancelledA().(deferred := {B})
  }

  lemma WorkWithAQueued()
    ensures EnqueueWork(TwoReserved().work, A, 11, 100, 0.0) == QueuedA().work
    ensures QueueRoom(CONFIG, TwoReserved().work, 1)
  {
    var w := TwoReserved().work;
    var v := EnqueueWork(w, A, 11, 100, 0.0);
    assert OfClient(w.queued.Keys, 1) == {};
    assert v.reservations == map[B := Place(2)];
    assert v.queued == map[A := Waiting(A, 1)];
    assert v.queuedTokens == map[A := 1] && v.cancelTokens == map[A := 11, B := 12];
    assert [] + [Waiting(A, 1)] == [Waiting(A, 1)];
    assert v.nodeQueues == map[NODE := [Waiting(A, 1)]];
  }

  lemma EnqueueA()
    ensures var e := Enqueue(A, 11, 100, 0.0);
            Enabled(CONFIG, TwoReserved(), e) && Apply(CONFIG, TwoReserved(), e) == QueuedA()
  {
    hide EnqueueWork, QueueRoom;
    WorkWithAQueued();
  }

  lemma TakeA()
    ensures var e := TakeClaim(A, 20, 0.0);
            Enabled(CONFIG, QueuedA(), e) && Apply(CONFIG, QueuedA(), e) == ClaimedA()
  {
    var s := QueuedA();
    assert LiveClaims(s.leases.claims, 0.0) == {} && LiveClaimsOn(s.leases.claims, NODE, 0.0) == {};
  }

  lemma WorkWithBQueued()
    ensures EnqueueWork(ClaimedA().work, B, 12, 100, 0.0) == QueuedB().work
    ensures QueueRoom(CONFIG, ClaimedA().work, 2)
  {
    var w := ClaimedA().work;
    var v := EnqueueWork(w, B, 12, 100, 0.0);
    assert OfClient(w.queued.Keys, 2) == {};
    assert v.reservations == map[];
    assert v.queued == map[A := Waiting(A, 1), B := Waiting(B, 2)];
    assert v.queuedTokens == map[A := 1, B := 2] && v.cancelTokens == map[A := 11, B := 12];
    assert [Waiting(A, 1)] + [Waiting(B, 2)] == [Waiting(A, 1), Waiting(B, 2)];
    assert v.nodeQueues == map[NODE := [Waiting(A, 1), Waiting(B, 2)]];
  }

  lemma EnqueueB()
    ensures var e := Enqueue(B, 12, 100, 0.0);
            Enabled(CONFIG, ClaimedA(), e) && Apply(CONFIG, ClaimedA(), e) == QueuedB()
  {
    hide EnqueueWork, QueueRoom;
    WorkWithBQueued();
  }

  lemma ClaimsOfBoth()
    ensures ClaimRoom(CONFIG, QueuedB().leases.claims, NODE, 0.0)
    ensures QueuedB().leases.claims[B := Lease(2)] == ClaimedB().leases.claims
  {
    var claims := QueuedB().leases.claims;
    assert LiveClaims(claims, 0.0) == {A} && LiveClaimsOn(claims, NODE, 0.0) == {A};
  }

  lemma TakeB()
    ensures var e := TakeClaim(B, 20, 0.0);
            Enabled(CONFIG, QueuedB(), e) && Apply(CONFIG, QueuedB(), e) == ClaimedB()
  {
    hide QueuedB, ClaimedB, ClaimRoom, ClaimOn;
    ClaimsOfBoth();
    BWaits();
    ClaimEvent(CONFIG, QueuedB(), B, 20, 0.0);
  }

  lemma BWaits()
    ensures var s := QueuedB();
            && B in s.work.queued && s.work.queued[B] == Waiting(B, 2) && Waiting(B, 2).node == NODE
            && Waiting(B, 2).deadline == 5.0 && B !in s.leases.claims
            && NODE in s.fleet.nodes && s.fleet.nodes[NODE].credential == OWNER && s.leases.nextGeneration == 1
            && ClaimOn(CONFIG, Waiting(B, 2), OWNER, 20, 2, 0.0) == Lease(2)
            && ClaimedB() == s.(leases := Leases(ClaimedB().leases.claims, 2))
  {
  }

  lemma WorkWithBOnly()
    ensures RemoveWork(ClaimedB().work, A) == CancelledA().work
  {
    hide Dequeue, Discard;
    QueueWithoutA();
    IndexWithoutA();
    var w := ClaimedB().work;
    assert w.queued - {A} == map[B := Waiting(B, 2)];
    assert w.queuedTokens - {A} == map[B := 2] && w.cancelTokens - {A} == map[B := 12];
  }

  lemma ClaimsWithoutA()
    ensures ClaimedB().leases.claims - {A} == CancelledA().leases.claims
  {
  }

  lemma IndexWithoutA()
    ensures Discard(map[NODE := {A, B}], NODE, A) == map[NODE := {B}]
  {
    assert {A, B} - {A} == {B};
  }

  lemma QueueWithoutA()
    ensures Dequeue(map[NODE := [Waiting(A, 1), Waiting(B, 2)]], Waiting(A, 1)) == map[NODE := [Waiting(B, 2)]]
  {
    hide Without;
    QueueWithoutFirst();
  }

  lemma QueueWithoutFirst()
    ensures Without([Waiting(A, 1), Waiting(B, 2)], Waiting(A, 1)) == [Waiting(B, 2)]
  {
    assert [Waiting(A, 1), Waiting(B, 2)][1..] == [Waiting(B, 2)];
    assert [Waiting(B, 2)][1..] == [];
    assert Without([Waiting(B, 2)], Waiting(A, 1)) == [Waiting(B, 2)];
  }

  lemma StopOfA()
    ensures var s := ClaimedB();
            && Held(s.work, A)
            && CanTerminalize(CONFIG, s, A, Cancelled, false, 1.0)
            && TombstoneClaim(s, A, Cancelled, false, 1.0) == Some(Lease(1))
            && TerminalFor(CONFIG, s.work, A, Some(Lease(1)), Cancelled, RequesterCancelled, 1.0) == Stopped(1.0)
            && ControlOf(CONFIG, Lease(1), Cancelled, RequesterCancelled, 1.0)
                 == ControlTombstone(NODE, OWNER, 20, 1, Cancelled, RequesterCancelled, 5.0, false, 101.0)
            && s.deferred == {} && s.kept == Kept(map[], map[], map[])
            && CancelledA() == s.(work := CancelledA().work, leases := s.leases.(claims := CancelledA().leases.claims),
                                  kept := Kept(map[], map[A := Stopped(1.0)],
                                               map[A := ControlOf(CONFIG, Lease(1), Cancelled, RequesterCancelled, 1.0)]))
  {
    var s := ClaimedB();
    assert OfClient(s.kept.terminals.Keys, 1) == {} && ControlsOn(s.kept.controls, NODE) == {};
  }

  lemma CancelA()
    ensures var e := Cancel(A, 1.0);
            Enabled(CONFIG, ClaimedB(), e) && Apply(CONFIG, ClaimedB(), e) == CancelledA()
  {
    hide ClaimedB, CancelledA, CanTerminalize, TombstoneClaim, TerminalFor, ControlOf, RemoveWork, Held, Stopped, Lease;
    WorkWithBOnly();
    ClaimsWithoutA();
    StopOfA();
  }

  lemma NothingToReap()
    ensures ReapKept(CancelledA().kept, 5.0) == CancelledA().kept
  {
  }

  lemma NoNodeToReap()
    ensures ReapFleet(CancelledA().fleet, 5.0) == CancelledA().fleet
  {
  }

  lemma ReapNothingYet()
    ensures Enabled(CONFIG, CancelledA(), Reap(5.0)) && Apply(CONFIG, CancelledA(), Reap(5.0)) == CancelledA()
  {
    hide ReapKept, ReapFleet, CancelledA;
    NothingToReap();
    NoNodeToReap();
  }

  /** The expiry of B would have to leave a stop instruction, and the one place for it is taken. */
  lemma BlockedB()
    ensures Held(CancelledA().work, B) && DeadlineOf(CancelledA().work, B) == 5.0
    ensures !CanTerminalize(CONFIG, CancelledA(), B, Expired, false, 5.0)
    ensures CanTerminalize(CONFIG, DeferredB(), B, Cancelled, false, 5.0)
    ensures TombstoneClaim(DeferredB(), B, Cancelled, false, 5.0) == None
  {
    var s := CancelledA();
    assert ControlsOn(s.kept.controls, NODE) == {A} && OfClient(s.kept.terminals.Keys, 2) == {};
  }

  lemma DeferB()
    ensures var e := Defer(B, 5.0);
            Enabled(CONFIG, CancelledA(), e) && Apply(CONFIG, CancelledA(), e) == DeferredB()
  {
    hide CanTerminalize;
    BlockedB();
  }

  /** The run in which both requests are claimed until their deadline and A is cancelled. */
  function DeferredRun(): Run {
    var a := Then(ReservedRun(), Enqueue(A, 11, 100, 0.0), QueuedA());
    var b := Then(a, TakeClaim(A, 20, 0.0), ClaimedA());
    var c := Then(b, Enqueue(B, 12, 100, 0.0), QueuedB());
    var d := Then(c, TakeClaim(B, 20, 0.0), ClaimedB());
    var e := Then(d, Cancel(A, 1.0), CancelledA());
    var f := Then(e, Reap(5.0), CancelledA());
    Then(f, Defer(B, 5.0), DeferredB())
  }

  lemma DeferredRunIsRun()
    ensures IsRun(CONFIG, DeferredRun()) && Last(DeferredRun()) == DeferredB()
  {
    hide Enabled, Apply, TwoReserved, QueuedA, ClaimedA, QueuedB, ClaimedB, CancelledA, DeferredB, ReservedRun, IsRun;
    var a := Then(ReservedRun(), Enqueue(A, 11, 100, 0.0), QueuedA());
    var b := Then(a, TakeClaim(A, 20, 0.0), ClaimedA());
    var c := Then(b, Enqueue(B, 12, 100, 0.0), QueuedB());
    var d := Then(c, TakeClaim(B, 20, 0.0), ClaimedB());
    var e := Then(d, Cancel(A, 1.0), CancelledA());
    var f := Then(e, Reap(5.0), CancelledA());
    ReservedRunIsRun();
    EnqueueA();
    Extend(ReservedRun(), Enqueue(A, 11, 100, 0.0), QueuedA());
    TakeA();
    Extend(a, TakeClaim(A, 20, 0.0), ClaimedA());
    EnqueueB();
    Extend(b, Enqueue(B, 12, 100, 0.0), QueuedB());
    TakeB();
    Extend(c, TakeClaim(B, 20, 0.0), ClaimedB());
    CancelA();
    Extend(d, Cancel(A, 1.0), CancelledA());
    ReapNothingYet();
    Extend(e, Reap(5.0), CancelledA());
    DeferB();
    Extend(f, Defer(B, 5.0), DeferredB());
  }

  /**
    At its deadline B cannot expire and is deferred; its requester then cancels it, it ends as
    cancelled although overdue, and its consumer is left without a stop instruction.
  */
  lemma OverdueMayEndCancelled()
    ensures IsRun(CONFIG, DeferredRun()) && Last(DeferredRun()) == DeferredB()
    ensures Held(DeferredB().work, B) && DeadlineOf(DeferredB().work, B) <= 5.0 && B in DeferredB().leases.claims
    ensures Enabled(CONFIG, DeferredB(), Cancel(B, 5.0)) && !Enabled(CONFIG, DeferredB(), Expire(B, 5.0))
    ensures var k := Apply(CONFIG, DeferredB(), Cancel(B, 5.0)).kept;
            B in k.terminals && k.terminals[B].verdict == Cancelled && B !in k.controls
  {
    hide IsRun, DeferredRun, DeferredB, Held, DeadlineOf, CanTerminalize, Apply;
    DeferredRunIsRun();
    BlockedB();
    SameForB();
    CancelsB();
  }

  lemma CancelsB()
    ensures Enabled(CONFIG, DeferredB(), Cancel(B, 5.0))
    ensures var k := Apply(CONFIG, DeferredB(), Cancel(B, 5.0)).kept;
            B in k.terminals && k.terminals[B].verdict == Cancelled && B !in k.controls
  {
    hide DeferredB, Enabled, Apply, TombstoneClaim, CanTerminalize, Held, DeadlineOf;
    BlockedB();
    SameForB();
    CancelsUnstopped(DeferredB(), B, 5.0);
  }

  /** A cancellation that has nobody to stop leaves no stop instruction. */
  lemma CancelsUnstopped(s: State, id: Identity, now: Time)
    requires Held(s.work, id) && CanTerminalize(CONFIG, s, id, Cancelled, false, now) && id !in s.kept.controls
    requires TombstoneClaim(s, id, Cancelled, false, now) == None
    ensures Enabled(CONFIG, s, Cancel(id, now))
    ensures var k := Apply(CONFIG, s, Cancel(id, now)).kept;
            id in k.terminals && k.terminals[id].verdict == Cancelled && id !in k.controls
  {
    hide CanTerminalize, TombstoneClaim, RemoveWork;
  }

  lemma SameForB()
    ensures Held(DeferredB().work, B) && DeadlineOf(DeferredB().work, B) == 5.0 && B in DeferredB().leases.claims
    ensures !CanTerminalize(CONFIG, DeferredB(), B, Expired, false, 5.0)
    ensures B !in DeferredB().kept.controls
  {
    var s := DeferredB();
    assert ControlsOn(s.kept.controls, NODE) == {A};
  }

  // ----- Overdue work that expires later -----

  function ReapedB(): State {
    DeferredB().(kept := Kept(map[], map[A := Stopped(1.0)], map[]))
  }

  lemma StopElapses()
    ensures ReapKept(DeferredB().kept, 101.0) == ReapedB().kept
  {
  }

  lemma NoNodeElapses()
    ensures ReapFleet(DeferredB().fleet, 101.0) == DeferredB().fleet
  {
  }

  lemma ReapStop()
    ensures Enabled(CONFIG, DeferredB(), Reap(101.0)) && Apply(CONFIG, DeferredB(), Reap(101.0)) == ReapedB()
  {
    hide ReapKept, ReapFleet, DeferredB;
    StopElapses();
    NoNodeElapses();
  }

  lemma RoomForB101()
    ensures Held(ReapedB().work, B) && DeadlineOf(ReapedB().work, B) <= 101.0
    ensures CanTerminalize(CONFIG, ReapedB(), B, Expired, false, 101.0)
    ensures TombstoneClaim(ReapedB(), B, Expired, false, 101.0).Some?
  {
    var s := ReapedB();
    assert ControlsOn(s.kept.controls, NODE) == {} && OfClient(s.kept.terminals.Keys, 2) == {};
  }

  /** Once the stop instruction for A is gone, the next call expires B and leaves its own. */
  lemma DeferredExpiresLater()
    ensures IsRun(CONFIG, DeferredRun()) && Last(DeferredRun()) == DeferredB()
    ensures !Enabled(CONFIG, DeferredB(), Expire(B, 5.0))
    ensures Enabled(CONFIG, DeferredB(), Reap(101.0))
    ensures var s := Apply(CONFIG, DeferredB(), Reap(101.0));
            && Enabled(CONFIG, s, Expire(B, 101.0)) && OverdueReady(CONFIG, s, 101.0)
            && var k := Apply(CONFIG, s, Expire(B, 101.0)).kept;
               B in k.terminals && k.terminals[B].verdict == Expired && B in k.controls
  {
    hide StepAt, CanTerminalize, TombstoneClaim, Held, DeadlineOf, DeferredB, ReapedB, RemoveWork, ControlOf, ReapKept, ReapFleet;
    DeferredRunIsRun();
    SameForB();
    ReapStop();
    RoomForB101();
    hide DeferredRun;
  }
}
