/**
  A run of three equal nodes that shows why a fair round needs them to stay registered.
*/
module StoreTurns {
  import opened RelayTypes
  import opened StoreState
  import opened StoreRuns
  import opened StoreScheduler
  import opened StoreScenarios

  const NODES: set<NodeId> := {1, 2, 3}
  const IDLE := SchedulerState(true, false, 0)

  // ----- One turn among idle nodes -----

  /** Three idle nodes that take the same requests. */
  ghost predicate ThreeIdle(f: Fleet) {
    && f.nodes.Keys == NODES && f.scheduler.Keys == NODES && f.order.Keys == NODES
    && forall n | n in NODES :: f.nodes[n].capabilities == CAPS && f.scheduler[n] == IDLE
  }

  /** No work, nothing kept. */
  function Resting(f: Fleet, fairness: Fairness, arrivals: Arrivals): State {
    Init().(fleet := f, fairness := fairness, arrivals := arrivals)
  }

  /** A reservation that lapses well before its deadline. */
  function Brief(n: NodeId, now: Time): Reservation {
    Reservation(FP, n, now + 20.0, now + 10.0, 1)
  }

  function Turn(n: NodeId, now: Time): Event {
    Reserve(A, Brief(n, now), None, None, now)
  }

  /** The state after the turn, while the reservation stands. */
  function Taken(f: Fleet, fairness: Fairness, arrivals: Arrivals, n: NodeId, now: Time): State {
    Resting(f, AdvanceCursor(fairness, FP, n, None), Arrive(arrivals, A)).(work :=
      Work(map[A := Brief(n, now)], map[], map[], map[], map[], map[n := {A}], 0))
  }

  lemma NothingOn(f: Fleet, fairness: Fairness, arrivals: Arrivals, n: NodeId)
    requires ThreeIdle(f) && n in NODES
    ensures var s := Resting(f, fairness, arrivals);
            Eligible(CONFIG, s, FP, n) && Load(s, n) == 0 && TierOf(s, n) == CAPS.tier.Tokens()
  {
    assert ReservedOn(Resting(f, fairness, arrivals).work.reservations, n) == {};
  }

  lemma AllTied(f: Fleet, fairness: Fairness, arrivals: Arrivals)
    requires ThreeIdle(f)
    ensures Tied(CONFIG, Resting(f, fairness, arrivals), FP) == NODES
  {
    hide Resting, Load, TierOf, Eligible;
    var s := Resting(f, fairness, arrivals);
    SameFleet(f, fairness, arrivals);
    forall n | n in NODES
      ensures Eligible(CONFIG, s, FP, n) && Load(s, n) == 0 && TierOf(s, n) == CAPS.tier.Tokens()
    {
      NothingOn(f, fairness, arrivals, n);
    }
  }

  lemma SameFleet(f: Fleet, fairness: Fairness, arrivals: Arrivals)
    ensures Resting(f, fairness, arrivals).fleet == f && Resting(f, fairness, arrivals).fairness == fairness
  {
  }

  lemma TurnWork(f: Fleet, fairness: Fairness, arrivals: Arrivals, n: NodeId, now: Time)
    ensures var w := Resting(f, fairness, arrivals).work;
            && LifecycleRoom(CONFIG, w, 1) && !Held(w, A)
            && ReserveWork(w, A, Brief(n, now), None) == Taken(f, fairness, arrivals, n, now).work
  {
    var w := Resting(f, fairness, arrivals).work;
    assert OfClient(w.reservations.Keys, 1) == {} && OfClient(w.queued.Keys, 1) == {};
    assert {} + {A} == {A};
  }

  /** The node next in order takes the turn. */
  lemma TakeTurn(f: Fleet, fairness: Fairness, arrivals: Arrivals, n: NodeId, now: Time)
    requires ThreeIdle(f) && fairness.cursors.Keys <= {FP}
    requires var s := Resting(f, fairness, arrivals); NextInOrder(f.order, NODES, CursorOrder(s, FP), n)
    ensures var s, e := Resting(f, fairness, arrivals), Turn(n, now);
            && Enabled(CONFIG, s, e) && Apply(CONFIG, s, e) == Taken(f, fairness, arrivals, n, now)
            && Tied(CONFIG, s, FP) == NODES
  {
    hide ThreeIdle, Tied, NextInOrder, CursorOrder, LifecycleRoom, ReserveWork, AdvanceCursor, Arrive;
    AllTied(f, fairness, arrivals);
    TurnWork(f, fairness, arrivals, n, now);
    OrderOfThree(f);
    CursorRoom(fairness);
  }

  lemma OrderOfThree(f: Fleet)
    requires ThreeIdle(f)
    ensures f.order.Keys == NODES
  {
  }

  lemma CursorRoom(fairness: Fairness)
    requires fairness.cursors.Keys <= {FP}
    ensures FP in fairness.cursors || |fairness.cursors| < CONFIG.maxFingerprints
  {
    if FP !in fairness.cursors {
      assert fairness.cursors.Keys == {};
      assert |fairness.cursors| == |fairness.cursors.Keys|;
    }
  }

  /** The reservation lapses and leaves nothing but the cursor. */
  lemma TurnLapses(f: Fleet, fairness: Fairness, arrivals: Arrivals, n: NodeId, now: Time)
    ensures var s, e := Taken(f, fairness, arrivals, n, now), DropReservation(A, now + 10.0);
            && Enabled(CONFIG, s, e)
            && Apply(CONFIG, s, e) == Resting(f, AdvanceCursor(fairness, FP, n, None), Arrive(arrivals, A))
  {
    hide AdvanceCursor, Arrive;
    var s := Taken(f, fairness, arrivals, n, now);
    var v := RemoveWork(s.work, A);
    assert {A} - {A} == {};
    assert v.reservations == map[] && v.nodeWork == map[];
    assert v == Init().work;
  }

  // ----- The run -----

  function Three(): Fleet {
    Fleet(map[1 := Registration(CAPS, OWNER, 0.0, 100.0), 2 := Registration(CAPS, OWNER, 0.0, 100.0),
              3 := Registration(CAPS, OWNER, 0.0, 100.0)],
          map[1 := IDLE, 2 := IDLE, 3 := IDLE], map[1 := 0, 2 := 1, 3 := 2], 3, map[], map[], map[])
  }

  /** Node 2 has been removed and has registered again under a new owner. */
  function ThreeAgain(): Fleet {
    Fleet(map[1 := Registration(CAPS, OWNER, 0.0, 100.0), 2 := Registration(CAPS, 8, 30.0, 130.0),
              3 := Registration(CAPS, OWNER, 0.0, 100.0)],
          map[1 := IDLE, 2 := IDLE, 3 := IDLE], map[1 := 0, 2 := 3, 3 := 2], 4, map[],
          map[FenceKey(2, OWNER) := FormerAuthority(ExplicitUnregister, 30.0, 230.0)],
          map[2 := NodeTombstone(OWNER, ExplicitUnregister, 30.0, true, 130.0)])
  }

  function TwoLeaving(): Fleet {
    Fleet(map[1 := Registration(CAPS, OWNER, 0.0, 100.0), 3 := Registration(CAPS, OWNER, 0.0, 100.0)],
          map[1 := IDLE, 3 := IDLE], map[1 := 0, 3 := 2], 3, map[2 := PendingTransition(OWNER, ExplicitUnregister, 30.0)],
          map[FenceKey(2, OWNER) := FormerAuthority(ExplicitUnregister, 30.0, 230.0)],
          map[2 := NodeTombstone(OWNER, ExplicitUnregister, 30.0, true, 130.0)])
  }

  function TwoLeft(): Fleet {
    TwoLeaving().(pending := map[])
  }

  function FirstOf(n: nat): Fleet
    requires n <= 3
  {
    if n == 0 then Init().fleet
    else if n == 1 then
      Fleet(map[1 := Registration(CAPS, OWNER, 0.0, 100.0)], map[1 := IDLE], map[1 := 0], 1, map[], map[], map[])
    else if n == 2 then
      Fleet(map[1 := Registration(CAPS, OWNER, 0.0, 100.0), 2 := Registration(CAPS, OWNER, 0.0, 100.0)],
            map[1 := IDLE, 2 := IDLE], map[1 := 0, 2 := 1], 2, map[], map[], map[])
    else Three()
  }

  const NONE := Fairness(map[], 0)
  const NOBODY := Arrivals(map[], 0)

  /** The cursor after `k` turns, the last of them taken by `n`. */
  function After(n: NodeId, k: nat): Fairness {
    Fairness(map[FP := Cursor(n, k)], k)
  }

  function Came(k: nat): Arrivals
    requires k > 0
  {
    Arrivals(map[A := k - 1], k)
  }

  lemma RegisterNext(n: nat)
    requires n < 3
    ensures var e := Register(n + 1, CAPS, OWNER, 0.0);
            Enabled(CONFIG, Resting(FirstOf(n), NONE, NOBODY), e)
            && Apply(CONFIG, Resting(FirstOf(n), NONE, NOBODY), e) == Resting(FirstOf(n + 1), NONE, NOBODY)
  {
    assert Init().fleet == Fleet(map[], map[], map[], 0, map[], map[], map[]);
  }

  function Registrations(): Run {
    var one := Then(Run([Init()], []), Register(1, CAPS, OWNER, 0.0), Resting(FirstOf(1), NONE, NOBODY));
    var two := Then(one, Register(2, CAPS, OWNER, 0.0), Resting(FirstOf(2), NONE, NOBODY));
    Then(two, Register(3, CAPS, OWNER, 0.0), Resting(Three(), NONE, NOBODY))
  }

  lemma RegistrationsRun()
    ensures IsRun(CONFIG, Registrations()) && Last(Registrations()) == Resting(Three(), NONE, NOBODY)
    ensures |Registrations().log| == 3
  {
    var one := Then(Run([Init()], []), Register(1, CAPS, OWNER, 0.0), Resting(FirstOf(1), NONE, NOBODY));
    var two := Then(one, Register(2, CAPS, OWNER, 0.0), Resting(FirstOf(2), NONE, NOBODY));
    StartIsRun();
    assert Init() == Resting(FirstOf(0), NONE, NOBODY) && FirstOf(3) == Three();
    hide Enabled, Apply, Resting, FirstOf, IsRun, Init, Three;
    RegisterNext(0);
    Extend(Run([Init()], []), Register(1, CAPS, OWNER, 0.0), Resting(FirstOf(1), NONE, NOBODY));
    RegisterNext(1);
    Extend(one, Register(2, CAPS, OWNER, 0.0), Resting(FirstOf(2), NONE, NOBODY));
    RegisterNext(2);
    Extend(two, Register(3, CAPS, OWNER, 0.0), Resting(Three(), NONE, NOBODY));
  }

  /** `r` goes on with a turn of `n` whose reservation lapses. */
  function WithTurn(r: Run, f: Fleet, fairness: Fairness, arrivals: Arrivals, n: NodeId, now: Time): Run {
    Then(Then(r, Turn(n, now), Taken(f, fairness, arrivals, n, now)),
         DropReservation(A, now + 10.0), Resting(f, AdvanceCursor(fairness, FP, n, None), Arrive(arrivals, A)))
  }

  lemma TurnRuns(r: Run, f: Fleet, fairness: Fairness, arrivals: Arrivals, n: NodeId, now: Time)
    requires IsRun(CONFIG, r) && Last(r) == Resting(f, fairness, arrivals)
    requires ThreeIdle(f) && fairness.cursors.Keys <= {FP}
    requires NextInOrder(f.order, NODES, CursorOrder(Last(r), FP), n)
    ensures var t := WithTurn(r, f, fairness, arrivals, n, now);
            && IsRun(CONFIG, t) && Last(t) == Resting(f, AdvanceCursor(fairness, FP, n, None), Arrive(arrivals, A))
            && |t.log| == |r.log| + 2 && r.log <= t.log && r.states <= t.states
            && SelectsAmong(CONFIG, t, |r.log|, FP, NODES) && t.log[|r.log|].reservation.node == n
  {
    hide Enabled, Apply, Resting, Taken, ThreeIdle, Tied, NextInOrder, CursorOrder, StepAt, AdvanceCursor, Arrive;
    var mid := Then(r, Turn(n, now), Taken(f, fairness, arrivals, n, now));
    TakeTurn(f, fairness, arrivals, n, now);
    Extend(r, Turn(n, now), Taken(f, fairness, arrivals, n, now));
    TurnLapses(f, fairness, arrivals, n, now);
    Extend(mid, DropReservation(A, now + 10.0), Resting(f, AdvanceCursor(fairness, FP, n, None), Arrive(arrivals, A)));
    var t := WithTurn(r, f, fairness, arrivals, n, now);
    assert t.states[|r.log|] == Last(r);
  }

  lemma CursorMoves(n: NodeId, m: NodeId, k: nat)
    ensures AdvanceCursor(NONE, FP, m, None) == After(m, 1) && Arrive(NOBODY, A) == Came(1)
    ensures AdvanceCursor(After(n, k), FP, m, None) == After(m, k + 1)
    ensures k > 0 ==> Arrive(Came(k), A) == Came(k + 1)
  {
  }

  /** Who is next: at first 1, after 1 it is 2, after 2 it is 3, and after 3 it is 2 again once 2 has come back. */
  lemma NextOfThree()
    ensures NextInOrder(Three().order, NODES, CursorOrder(Resting(Three(), NONE, NOBODY), FP), 1)
    ensures NextInOrder(Three().order, NODES, CursorOrder(Resting(Three(), After(1, 1), Came(1)), FP), 2)
    ensures NextInOrder(Three().order, NODES, CursorOrder(Resting(Three(), After(2, 2), Came(2)), FP), 3)
    ensures NextInOrder(ThreeAgain().order, NODES, CursorOrder(Resting(ThreeAgain(), After(3, 3), Came(3)), FP), 2)
    ensures ThreeIdle(Three()) && ThreeIdle(ThreeAgain())
  {
  }

  function FirstTurns(): Run {
    var one := WithTurn(Registrations(), Three(), NONE, NOBODY, 1, 0.0);
    var two := WithTurn(one, Three(), After(1, 1), Came(1), 2, 10.0);
    WithTurn(two, Three(), After(2, 2), Came(2), 3, 20.0)
  }

  lemma FirstTurnsRun()
    ensures var r := FirstTurns();
            && IsRun(CONFIG, r) && Last(r) == Resting(Three(), After(3, 3), Came(3)) && |r.log| == 9
            && SelectsAmong(CONFIG, r, 5, FP, NODES) && r.log[5].reservation.node == 2
            && SelectsAmong(CONFIG, r, 7, FP, NODES) && r.log[7].reservation.node == 3
  {
    hide IsRun, Resting, Three, ThreeAgain, ThreeIdle, NextInOrder, CursorOrder, Registrations, WithTurn, AdvanceCursor, Arrive, After,
         Came, SelectsAmong;
    RegistrationsRun();
    NextOfThree();
    CursorMoves(1, 1, 0);
    CursorMoves(1, 2, 1);
    CursorMoves(2, 3, 2);
    CursorNamed(1, 1);
    CursorNamed(2, 2);
    var one := WithTurn(Registrations(), Three(), NONE, NOBODY, 1, 0.0);
    TurnRuns(Registrations(), Three(), NONE, NOBODY, 1, 0.0);
    var two := WithTurn(one, Three(), After(1, 1), Came(1), 2, 10.0);
    TurnRuns(one, Three(), After(1, 1), Came(1), 2, 10.0);
    TurnRuns(two, Three(), After(2, 2), Came(2), 3, 20.0);
    SelectsLater(two, FirstTurns(), 5);
  }

  lemma CursorNamed(n: NodeId, k: nat)
    ensures After(n, k).cursors.Keys <= {FP} && NONE.cursors.Keys <= {FP}
  {
  }

  lemma SelectsLater(r: Run, t: Run, i: nat)
    requires IsRun(CONFIG, r) && IsRun(CONFIG, t) && r.log <= t.log && r.states <= t.states
    requires SelectsAmong(CONFIG, r, i, FP, NODES)
    ensures SelectsAmong(CONFIG, t, i, FP, NODES) && t.log[i] == r.log[i]
  {
    hide StepAt, Tied;
    assert t.states[i] == r.states[i];
  }

  lemma TwoLeaves()
    ensures var s, e := Resting(Three(), After(3, 3), Came(3)), StartTransition(2, ExplicitUnregister, 30.0);
            Enabled(CONFIG, s, e) && Apply(CONFIG, s, e) == Resting(TwoLeaving(), After(3, 3), Came(3))
  {
    hide Three, TwoLeaving, StartFleet, TransitionRoom, After;
    WithoutTwo();
    CursorElsewhere();
    assert WorkOf(Init().work, 2) == {};
  }

  lemma WithoutTwo()
    ensures 2 in Three().nodes && TransitionRoom(CONFIG, Three(), 2)
    ensures StartFleet(CONFIG, Three(), 2, ExplicitUnregister, true, 30.0) == TwoLeaving()
  {
    var f := Three();
    assert f.nodes - {2} == TwoLeaving().nodes;
    assert f.scheduler - {2} == TwoLeaving().scheduler;
    assert f.order - {2} == TwoLeaving().order;
  }

  lemma CursorElsewhere()
    ensures After(3, 3).(cursors := CursorsWithout(After(3, 3).cursors, 2)) == After(3, 3)
  {
    assert CursorsWithout(After(3, 3).cursors, 2) == After(3, 3).cursors;
  }

  lemma TwoHasLeft()
    ensures var s, e := Resting(TwoLeaving(), After(3, 3), Came(3)), CompleteTransition(2, 30.0);
            Enabled(CONFIG, s, e) && Apply(CONFIG, s, e) == Resting(TwoLeft(), After(3, 3), Came(3))
  {
    assert CompleteFleet(CONFIG, TwoLeaving(), 2, 30.0) == TwoLeft();
  }

  lemma TwoComesBack()
    ensures var s, e := Resting(TwoLeft(), After(3, 3), Came(3)), Register(2, CAPS, 8, 30.0);
            Enabled(CONFIG, s, e) && Apply(CONFIG, s, e) == Resting(ThreeAgain(), After(3, 3), Came(3))
  {
    hide TwoLeft, ThreeAgain, RegisterFleet, After;
    WithTwoAgain();
  }

  lemma WithTwoAgain()
    ensures RegisterFleet(CONFIG, TwoLeft(), 2, CAPS, 8, 30.0) == ThreeAgain()
    ensures var f := TwoLeft(); 2 !in f.pending && 2 !in f.nodes && |f.nodes| < CONFIG.maxNodes && FenceKey(2, 8) !in f.fences
  {
  }

  function Comeback(): Run {
    var leaving := Then(FirstTurns(), StartTransition(2, ExplicitUnregister, 30.0), Resting(TwoLeaving(), After(3, 3), Came(3)));
    var left := Then(leaving, CompleteTransition(2, 30.0), Resting(TwoLeft(), After(3, 3), Came(3)));
    Then(left, Register(2, CAPS, 8, 30.0), Resting(ThreeAgain(), After(3, 3), Came(3)))
  }

  lemma ComebackRun()
    ensures IsRun(CONFIG, Comeback()) && Last(Comeback()) == Resting(ThreeAgain(), After(3, 3), Came(3))
    ensures |Comeback().log| == 12 && FirstTurns().log <= Comeback().log && FirstTurns().states <= Comeback().states
  {
    hide IsRun, Resting, Three, TwoLeaving, TwoLeft, ThreeAgain, FirstTurns, After, Came, Enabled, Apply;
    FirstTurnsRun();
    var leaving := Then(FirstTurns(), StartTransition(2, ExplicitUnregister, 30.0), Resting(TwoLeaving(), After(3, 3), Came(3)));
    var left := Then(leaving, CompleteTransition(2, 30.0), Resting(TwoLeft(), After(3, 3), Came(3)));
    TwoLeaves();
    Extend(FirstTurns(), StartTransition(2, ExplicitUnregister, 30.0), Resting(TwoLeaving(), After(3, 3), Came(3)));
    TwoHasLeft();
    Extend(leaving, CompleteTransition(2, 30.0), Resting(TwoLeft(), After(3, 3), Came(3)));
    TwoComesBack();
    Extend(left, Register(2, CAPS, 8, 30.0), Resting(ThreeAgain(), After(3, 3), Came(3)));
  }

  function UnfairRun(): Run {
    WithTurn(Comeback(), ThreeAgain(), After(3, 3), Came(3), 2, 30.0)
  }

  /**
    The tied nodes of a fair round must stay registered, not merely be tied again.  In this run node 1
    has had its turn; the next three, each among the same three nodes, go to 2, to 3, and, as only
    the removal of 2 and its return came in between, to 2.
  */
  lemma ReregistrationSkips() returns (r: Run)
    ensures IsRun(CONFIG, r) && |r.log| > 12
    ensures SelectsAmong(CONFIG, r, 5, FP, NODES) && SelectsAmong(CONFIG, r, 7, FP, NODES)
    ensures SelectsAmong(CONFIG, r, 12, FP, NODES)
    ensures r.log[5].reservation.node == 2 && r.log[7].reservation.node == 3 && r.log[12].reservation.node == 2
    ensures Undisturbed(r, 5, 7, FP, NODES)
    ensures forall m: nat | 7 < m < 12 && Disturbs(r.log[m], FP, NODES) :: r.log[m] == StartTransition(2, ExplicitUnregister, 30.0)
  {
    r := UnfairRun();
    InBetween();
    hide IsRun, Resting, Three, TwoLeaving, TwoLeft, ThreeAgain, ThreeIdle, NextInOrder, CursorOrder, FirstTurns, Comeback,
         WithTurn, After, Came, SelectsAmong, Disturbs, Undisturbed;
    FirstTurnsRun();
    ComebackRun();
    NextOfThree();
    CursorNamed(3, 3);
    TurnRuns(Comeback(), ThreeAgain(), After(3, 3), Came(3), 2, 30.0);
    SelectsLater(FirstTurns(), UnfairRun(), 5);
    SelectsLater(FirstTurns(), UnfairRun(), 7);
  }

  lemma InBetween()
    ensures |UnfairRun().log| > 12 && Undisturbed(UnfairRun(), 5, 7, FP, NODES)
    ensures forall m: nat | 7 < m < 12 && Disturbs(UnfairRun().log[m], FP, NODES) ::
              UnfairRun().log[m] == StartTransition(2, ExplicitUnregister, 30.0)
  {
    hide Resting, Taken;
  }
}
