/**
  Which node a request is given to, told by the history alone: what nodes offered when they last
  registered or renewed, what they last reported, and which was served last.
*/
module StoreOffers {
  import opened RelayTypes
  import opened StoreState
  import opened StoreInvariant
  import opened StoreRuns
  import opened StoreCalls
  import opened StoreScheduler

  // ----- What the history says -----

  /** What a registered node last offered and reported, and when in the history it registered. */
  datatype Terms = Terms(capabilities: Capabilities, report: SchedulerState, since: nat)

  function TermsOf(log: seq<Event>, n: NodeId): Option<Terms> {
    if log == [] then None
    else
      var before, e := TermsOf(log[..|log| - 1], n), log[|log| - 1];
      if e.Register? && e.node == n then Some(Terms(e.capabilities, SchedulerState(true, false, 0), |log| - 1))
      else if e.StartTransition? && e.node == n then None
      else if before.None? then None
      else if e.Renew? && e.node == n then Some(before.value.(capabilities := e.capabilities))
      else if e.SetScheduler? && e.node == n then Some(before.value.(report := e.state))
      else before
  }

  /** A node that was chosen, and when in the history. */
  datatype Service = Service(node: NodeId, at: nat)

  /** The last choice for the fingerprint, while the node stays registered and it is remembered. */
  function ServedLast(log: seq<Event>, fp: Fingerprint): Option<Service> {
    if log == [] then None
    else
      var before, e := ServedLast(log[..|log| - 1], fp), log[|log| - 1];
      if e.Reserve? && e.reservation.fingerprint == fp then Some(Service(e.reservation.node, |log| - 1))
      else if e.Reserve? && e.victim == Some(fp) then None
      else if e.StartTransition? && before.Some? && before.value.node == e.node then None
      else before
  }

  lemma TermsNext(log: seq<Event>, e: Event, n: NodeId)
    ensures var before, after := TermsOf(log, n), TermsOf(log + [e], n);
            after == (if e.Register? && e.node == n then Some(Terms(e.capabilities, SchedulerState(true, false, 0), |log|))
                      else if e.StartTransition? && e.node == n then None
                      else if before.None? then None
                      else if e.Renew? && e.node == n then Some(before.value.(capabilities := e.capabilities))
                      else if e.SetScheduler? && e.node == n then Some(before.value.(report := e.state))
                      else before)
  {
    assert (log + [e])[..|log|] == log;
  }

  // ----- The store's maps say the same -----

  ghost predicate Agrees(f: Fleet, log: seq<Event>, n: NodeId) {
    match TermsOf(log, n)
    case None => n !in f.nodes
    case Some(t) =>
      && n in f.nodes && n in f.scheduler && n in f.order && t.since < |log|
      && f.nodes[n].capabilities == t.capabilities && f.scheduler[n] == t.report
  }

  /** Places in the order of registration are the order of the registrations. */
  ghost predicate OrderAgrees(f: Fleet, log: seq<Event>) {
    forall m, n | m in f.order && n in f.order && TermsOf(log, m).Some? && TermsOf(log, n).Some? ::
      f.order[m] < f.order[n] <==> TermsOf(log, m).value.since < TermsOf(log, n).value.since
  }

  ghost predicate CursorAgrees(a: Fairness, log: seq<Event>, fp: Fingerprint) {
    match ServedLast(log, fp)
    case None => fp !in a.cursors
    case Some(last) => fp in a.cursors && a.cursors[fp].node == last.node && last.at < |log|
  }

  /** The order of activity is the order of the choices. */
  ghost predicate ActivityAgrees(a: Fairness, log: seq<Event>) {
    forall f, g | f in a.cursors && g in a.cursors && ServedLast(log, f).Some? && ServedLast(log, g).Some? ::
      a.cursors[f].activity < a.cursors[g].activity <==> ServedLast(log, f).value.at < ServedLast(log, g).value.at
  }

  /** What an event does to a node's registration. */
  lemma FleetStep(c: Config, s: State, e: Event, n: NodeId)
    requires Enabled(c, s, e) && FleetInv(s.fleet)
    ensures var f, g := s.fleet, Apply(c, s, e).fleet;
            if e.Register? && e.node == n then
              && n !in f.nodes && n in g.nodes && n in g.scheduler && n in g.order
              && g.nodes[n].capabilities == e.capabilities && g.scheduler[n] == SchedulerState(true, false, 0)
              && g.order[n] == f.nextOrder
            else if e.StartTransition? && e.node == n then n !in g.nodes && n !in g.order
            else
              && (n in g.nodes <==> n in f.nodes) && (n in g.order <==> n in f.order)
              && (n in f.nodes ==>
                    && n in g.scheduler
                    && g.nodes[n].capabilities == (if e.Renew? && e.node == n then e.capabilities else f.nodes[n].capabilities)
                    && g.scheduler[n] == (if e.SetScheduler? && e.node == n then e.state else f.scheduler[n])
                    && g.order[n] == f.order[n])
  {
    hide FleetInv, Enabled, Apply;
    SameKeys(s.fleet);
    if e.Register? {
      RegisterStep(c, s, e);
    } else if e.StartTransition? {
      RemovalStep(c, s, e);
    } else {
      FleetElsewhere(c, s, e);
    }
  }

  lemma SameKeys(f: Fleet)
    requires FleetInv(f)
    ensures f.scheduler.Keys == f.nodes.Keys && f.order.Keys == f.nodes.Keys
  {
  }

  /** Registrations, places and reports change by few events only. */
  lemma FleetElsewhere(c: Config, s: State, e: Event)
    requires Enabled(c, s, e) && !e.Register? && !e.StartTransition?
    ensures var f, g := s.fleet, Apply(c, s, e).fleet;
            && g.order == f.order
            && (e.Renew? ==> e.node in f.nodes)
            && g.nodes == (if e.Renew? then f.nodes[e.node := f.nodes[e.node].(capabilities := e.capabilities,
                                                                              leaseExpiry := e.now + c.leaseTtl)] else f.nodes)
            && g.scheduler == (if e.SetScheduler? then f.scheduler[e.node := e.state] else f.scheduler)
  {
    hide CanTerminalize, TransitionRoom, Selected, Evicts, LifecycleRoom, QueueRoom, ResponseRoom, ClaimRoom,
         LiveOwnedClaim, ReapKept, RemoveWork, TombstoneClaim, TerminalFor, ControlOf, Conclude, ReserveWork,
         AdvanceCursor, EnqueueWork, CompletedBy, ResponseTo;
  }

  lemma RegisterStep(c: Config, s: State, e: Event)
    requires Enabled(c, s, e) && e.Register?
    ensures var f, g := s.fleet, Apply(c, s, e).fleet;
            && e.node !in f.nodes
            && g.nodes == f.nodes[e.node := Registration(e.capabilities, e.credential, e.now, e.now + c.leaseTtl)]
            && g.scheduler == f.scheduler[e.node := SchedulerState(true, false, 0)]
            && g.order == f.order[e.node := f.nextOrder]
  {
  }

  lemma RemovalStep(c: Config, s: State, e: Event)
    requires Enabled(c, s, e) && e.StartTransition?
    ensures var f, g := s.fleet, Apply(c, s, e).fleet;
            g.nodes == f.nodes - {e.node} && g.scheduler == f.scheduler - {e.node} && g.order == f.order - {e.node}
  {
    hide TransitionRoom, CursorsWithout, WorkOf;
  }

  lemma AgreesNext(c: Config, s: State, e: Event, log: seq<Event>, n: NodeId)
    requires Enabled(c, s, e) && FleetInv(s.fleet) && Agrees(s.fleet, log, n)
    ensures Agrees(Apply(c, s, e).fleet, log + [e], n)
  {
    hide Enabled, Apply, TermsOf;
    FleetStep(c, s, e, n);
    TermsNext(log, e, n);
  }

  lemma OrderAgreesNext(c: Config, s: State, e: Event, log: seq<Event>)
    requires Enabled(c, s, e) && FleetInv(s.fleet) && FleetInv(Apply(c, s, e).fleet) && OrderAgrees(s.fleet, log)
    requires forall n :: Agrees(s.fleet, log, n)
    ensures OrderAgrees(Apply(c, s, e).fleet, log + [e])
  {
    hide Enabled, Apply, TermsOf;
    var g := Apply(c, s, e).fleet;
    forall m, n | m in g.order && n in g.order && TermsOf(log + [e], m).Some? && TermsOf(log + [e], n).Some?
      ensures g.order[m] < g.order[n] <==> TermsOf(log + [e], m).value.since < TermsOf(log + [e], n).value.since
    {
      FleetStep(c, s, e, m);
      FleetStep(c, s, e, n);
      TermsNext(log, e, m);
      TermsNext(log, e, n);
      assert Agrees(s.fleet, log, m) && Agrees(s.fleet, log, n);
    }
  }

  lemma CursorsStep(c: Config, s: State, e: Event, fp: Fingerprint)
    requires Enabled(c, s, e)
    ensures var a, b := s.fairness.cursors, Apply(c, s, e).fairness.cursors;
            if e.Reserve? && e.reservation.fingerprint == fp then
              fp in b && b[fp] == Cursor(e.reservation.node, s.fairness.activity + 1)
            else if (e.Reserve? && e.victim == Some(fp)) || (e.StartTransition? && fp in a && a[fp].node == e.node) then fp !in b
            else (fp in b <==> fp in a) && (fp in a ==> b[fp] == a[fp])
  {
    hide CanTerminalize, TransitionRoom, Selected, Evicts, LifecycleRoom, QueueRoom, ResponseRoom, ClaimRoom,
         LiveOwnedClaim, ReapKept, ReapFleet, RemoveWork, TombstoneClaim, TerminalFor, ControlOf, Conclude, ReserveWork,
         EnqueueWork, CompletedBy, ResponseTo, StartFleet, CompleteFleet, RegisterFleet;
  }

  lemma CursorAgreesNext(c: Config, s: State, e: Event, log: seq<Event>, fp: Fingerprint)
    requires Enabled(c, s, e) && CursorAgrees(s.fairness, log, fp)
    ensures CursorAgrees(Apply(c, s, e).fairness, log + [e], fp)
  {
    hide Enabled, Apply, ServedLast;
    CursorsStep(c, s, e, fp);
    ServedNext(log, e, fp);
  }

  lemma ServedNext(log: seq<Event>, e: Event, fp: Fingerprint)
    ensures var before, after := ServedLast(log, fp), ServedLast(log + [e], fp);
            after == (if e.Reserve? && e.reservation.fingerprint == fp then Some(Service(e.reservation.node, |log|))
                      else if e.Reserve? && e.victim == Some(fp) then None
                      else if e.StartTransition? && before.Some? && before.value.node == e.node then None
                      else before)
  {
    assert (log + [e])[..|log|] == log;
  }

  lemma ActivityAgreesNext(c: Config, s: State, e: Event, log: seq<Event>)
    requires Enabled(c, s, e) && CursorInv(s.fairness, s.fleet) && ActivityAgrees(s.fairness, log)
    requires forall fp :: CursorAgrees(s.fairness, log, fp)
    ensures ActivityAgrees(Apply(c, s, e).fairness, log + [e])
  {
    hide Enabled, Apply, ServedLast;
    var b := Apply(c, s, e).fairness.cursors;
    forall f, g | f in b && g in b && ServedLast(log + [e], f).Some? && ServedLast(log + [e], g).Some?
      ensures b[f].activity < b[g].activity <==>
                ServedLast(log + [e], f).value.at < ServedLast(log + [e], g).value.at
    {
      CursorsStep(c, s, e, f);
      CursorsStep(c, s, e, g);
      ServedNext(log, e, f);
      ServedNext(log, e, g);
      assert CursorAgrees(s.fairness, log, f) && CursorAgrees(s.fairness, log, g);
    }
  }

  /** In every state of every run the maps agree with the history. */
  lemma {:induction false} HistoryAgrees(c: Config, r: Run, i: nat)
    requires IsRun(c, r) && i < |r.states|
    ensures forall n :: Agrees(r.states[i].fleet, r.log[..i], n)
    ensures OrderAgrees(r.states[i].fleet, r.log[..i])
    ensures forall fp :: CursorAgrees(r.states[i].fairness, r.log[..i], fp)
    ensures ActivityAgrees(r.states[i].fairness, r.log[..i])
  {
    hide Enabled, Apply, Consistent, Bounded, WorkInv, FleetInv, Agrees, OrderAgrees, CursorAgrees, ActivityAgrees;
    if i == 0 {
      NothingAgrees();
    } else {
      var s, e, log := r.states[i - 1], r.log[i - 1], r.log[..i - 1];
      HistoryAgrees(c, r, i - 1);
      RunFleet(c, r, i - 1);
      RunFleet(c, r, i);
      assert StepAt(c, r, i - 1);
      assert r.log[..i] == log + [e];
      forall n: NodeId
        ensures Agrees(r.states[i].fleet, r.log[..i], n)
      {
        AgreesNext(c, s, e, log, n);
      }
      OrderAgreesNext(c, s, e, log);
      ActivityAgreesNext(c, s, e, log);
      forall fp: Fingerprint
        ensures CursorAgrees(r.states[i].fairness, r.log[..i], fp)
      {
        CursorAgreesNext(c, s, e, log, fp);
      }
    }
  }

  lemma RunFleet(c: Config, r: Run, i: nat)
    requires IsRun(c, r) && i < |r.states|
    ensures FleetInv(r.states[i].fleet) && WorkInv(r.states[i].work) && QueueInv(r.states[i].work)
    ensures CursorInv(r.states[i].fairness, r.states[i].fleet)
  {
    hide StepAt, Bounded, WorkInv, FleetInv, QueueInv, ClaimInv, HousedInv, OverInv, KeptInv, CursorInv;
    RunInv(c, r, i);
  }

  lemma NothingAgrees()
    ensures forall n :: Agrees(Init().fleet, [], n)
    ensures OrderAgrees(Init().fleet, [])
    ensures forall fp :: CursorAgrees(Init().fairness, [], fp)
    ensures ActivityAgrees(Init().fairness, [])
  {
  }

  // ----- Load -----

  /** The requests that are live on the node, reserved or queued. */
  ghost function LiveOn(w: Work, n: NodeId): set<Identity> {
    set id | id in w.reservations.Keys + w.queued.Keys && NodeOf(w, id) == n
  }

  ghost function Ids(q: seq<QueuedRequest>): set<Identity> {
    set x | x in q :: x.id
  }

  lemma {:induction false} IdsCount(q: seq<QueuedRequest>)
    requires forall i, j | 0 <= i < j < |q| :: q[i].id != q[j].id
    ensures |Ids(q)| == |q|
  {
    if q != [] {
      var last, rest := q[|q| - 1], q[..|q| - 1];
      IdsCount(rest);
      assert q == rest + [last];
      assert Ids(q) == Ids(rest) + {last.id};
      assert last.id !in Ids(rest);
    }
  }

  lemma QueueCount(w: Work, n: NodeId)
    requires WorkInv(w) && QueueInv(w)
    ensures Ids(QueueOf(w, n)) == set id | id in w.queued && w.queued[id].node == n
    ensures |Ids(QueueOf(w, n))| == |QueueOf(w, n)|
  {
    var q := QueueOf(w, n);
    forall i, j | 0 <= i < j < |q|
      ensures q[i].id != q[j].id
    {
      assert q[i] in q && q[j] in q;
      assert q[i].sequence < q[j].sequence;
    }
    IdsCount(q);
    forall id | id in w.queued && w.queued[id].node == n
      ensures id in Ids(q)
    {
      assert w.queued[id] in q;
    }
  }

  /** What the scheduler counts as load is the live work and what the node has reported. */
  lemma LoadIsLive(s: State, n: NodeId)
    requires WorkInv(s.work) && QueueInv(s.work) && n in s.fleet.scheduler
    ensures Load(s, n) == |LiveOn(s.work, n)| + s.fleet.scheduler[n].claimedWork
    ensures |ReservedOn(s.work.reservations, n)| + |QueueOf(s.work, n)| == |LiveOn(s.work, n)|
  {
    hide QueueInv, WorkInv, QueueOf, LiveOn, ReservedOn;
    QueueCount(s.work, n);
    LiveSplits(s.work, n);
  }

  lemma LiveSplits(w: Work, n: NodeId)
    requires WorkInv(w)
    ensures var queued := set id | id in w.queued && w.queued[id].node == n;
            LiveOn(w, n) == ReservedOn(w.reservations, n) + queued && ReservedOn(w.reservations, n) !! queued
  {
  }

  // ----- Candidates -----

  /** The node offers model, tier and context, is well, and has room for one more request. */
  ghost predicate CanTake(c: Config, w: Work, t: Terms, n: NodeId, fp: Fingerprint) {
    && fp.model in t.capabilities.models
    && fp.tier.Tokens() <= t.capabilities.tier.Tokens() && fp.tier.Tokens() <= t.capabilities.contextTokens
    && t.report.healthy && !t.report.draining
    && |LiveOn(w, n)| + t.report.claimedWork < t.capabilities.maxConcurrency
    && |ReservedOn(w.reservations, n)| < c.maxReservationsPerNode && |LiveOn(w, n)| < c.maxQueueDepthPerNode
  }

  ghost predicate Candidate(c: Config, w: Work, log: seq<Event>, fp: Fingerprint, n: NodeId) {
    TermsOf(log, n).Some? && CanTake(c, w, TermsOf(log, n).value, n, fp)
  }

  /** The smaller tier, or of equal tiers the less loaded node. */
  ghost predicate Before(w: Work, log: seq<Event>, n: NodeId, m: NodeId)
    requires TermsOf(log, n).Some? && TermsOf(log, m).Some?
  {
    var t, u := TermsOf(log, n).value, TermsOf(log, m).value;
    || t.capabilities.tier.Tokens() < u.capabilities.tier.Tokens()
    || (&& t.capabilities.tier == u.capabilities.tier
        && |LiveOn(w, n)| + t.report.claimedWork <= |LiveOn(w, m)| + u.report.claimedWork)
  }

  ghost predicate BestCandidate(c: Config, w: Work, log: seq<Event>, fp: Fingerprint, n: NodeId) {
    Candidate(c, w, log, fp, n) && forall m | Candidate(c, w, log, fp, m) :: Before(w, log, n, m)
  }

  /** The node registered after the one served last; all did if none is remembered. */
  ghost predicate ComesAfter(log: seq<Event>, fp: Fingerprint, n: NodeId)
    requires TermsOf(log, n).Some?
  {
    var last := ServedLast(log, fp);
    last.Some? && TermsOf(log, last.value.node).Some? ==>
      TermsOf(log, last.value.node).value.since < TermsOf(log, n).value.since
  }

  /** Of the best, the first to have registered after the one served last, or the first of all. */
  ghost predicate InTurn(c: Config, w: Work, log: seq<Event>, fp: Fingerprint, n: NodeId) {
    && BestCandidate(c, w, log, fp, n)
    && forall m | BestCandidate(c, w, log, fp, m) ::
         && (ComesAfter(log, fp, m) ==> ComesAfter(log, fp, n))
         && ((ComesAfter(log, fp, m) <==> ComesAfter(log, fp, n)) ==>
               TermsOf(log, n).value.since <= TermsOf(log, m).value.since)
  }

  /** The state and the history of it. */
  ghost predicate Told(s: State, log: seq<Event>) {
    && WorkInv(s.work) && QueueInv(s.work) && FleetInv(s.fleet) && CursorInv(s.fairness, s.fleet)
    && (forall n :: Agrees(s.fleet, log, n)) && OrderAgrees(s.fleet, log) && forall fp :: CursorAgrees(s.fairness, log, fp)
  }

  lemma RunTold(c: Config, r: Run, i: nat)
    requires IsRun(c, r) && i < |r.states|
    ensures Told(r.states[i], r.log[..i])
  {
    hide StepAt, WorkInv, QueueInv, FleetInv, CursorInv, Agrees, OrderAgrees, CursorAgrees;
    RunFleet(c, r, i);
    HistoryAgrees(c, r, i);
  }

  lemma CandidateIff(c: Config, s: State, log: seq<Event>, fp: Fingerprint, n: NodeId)
    requires Told(s, log)
    ensures n in s.fleet.nodes && Eligible(c, s, fp, n) <==> Candidate(c, s.work, log, fp, n)
    ensures n in s.fleet.nodes <==> TermsOf(log, n).Some?
    ensures n in s.fleet.nodes ==>
              && n in s.fleet.scheduler && n in s.fleet.order
              && TierOf(s, n) == TermsOf(log, n).value.capabilities.tier.Tokens()
              && Load(s, n) == |LiveOn(s.work, n)| + TermsOf(log, n).value.report.claimedWork
  {
    hide TermsOf, WorkInv, QueueInv, OrderAgrees, CursorAgrees, CursorInv, ReservedOn, QueueOf, LiveOn;
    assert Agrees(s.fleet, log, n);
    if n in s.fleet.nodes {
      LoadIsLive(s, n);
    }
  }

  lemma BestIff(c: Config, s: State, log: seq<Event>, fp: Fingerprint, n: NodeId)
    requires Told(s, log)
    ensures n in Tied(c, s, fp) <==> BestCandidate(c, s.work, log, fp, n)
  {
    hide TermsOf, Told, Eligible, TierOf, Load, CanTake, LiveOn;
    forall m
      ensures m in s.fleet.nodes && Eligible(c, s, fp, m) <==> Candidate(c, s.work, log, fp, m)
      ensures m in s.fleet.nodes <==> TermsOf(log, m).Some?
      ensures m in s.fleet.nodes ==>
                && m in s.fleet.scheduler
                && TierOf(s, m) == TermsOf(log, m).value.capabilities.tier.Tokens()
                && Load(s, m) == |LiveOn(s.work, m)| + TermsOf(log, m).value.report.claimedWork
    {
      CandidateIff(c, s, log, fp, m);
    }
    assert forall a: Tier, b: Tier :: a.Tokens() == b.Tokens() ==> a == b;
  }

  lemma TurnIff(c: Config, s: State, log: seq<Event>, fp: Fingerprint, n: NodeId)
    requires Told(s, log)
    ensures Selected(c, s, fp, n) <==> InTurn(c, s.work, log, fp, n)
  {
    hide TermsOf, ServedLast, Tied, BestCandidate, WorkInv, QueueInv;
    forall m
      ensures m in Tied(c, s, fp) <==> BestCandidate(c, s.work, log, fp, m)
      ensures BestCandidate(c, s.work, log, fp, m) ==> m in s.fleet.order && TermsOf(log, m).Some?
      ensures BestCandidate(c, s.work, log, fp, m) ==> (ComesAfter(log, fp, m) <==> s.fleet.order[m] > CursorOrder(s, fp))
    {
      BestIff(c, s, log, fp, m);
      BestIsRegistered(c, s, log, fp, m);
      AfterIff(s, log, fp, m);
    }
    OrdersAgree(s, log);
    hide Told, ComesAfter, CursorOrder;
  }

  lemma BestIsRegistered(c: Config, s: State, log: seq<Event>, fp: Fingerprint, n: NodeId)
    requires Told(s, log)
    ensures BestCandidate(c, s.work, log, fp, n) ==> n in s.fleet.nodes && n in s.fleet.order && TermsOf(log, n).Some?
  {
    hide TermsOf, CanTake, Told;
    CandidateIff(c, s, log, fp, n);
  }

  lemma AfterIff(s: State, log: seq<Event>, fp: Fingerprint, n: NodeId)
    requires Told(s, log)
    ensures n in s.fleet.order && TermsOf(log, n).Some? ==> (ComesAfter(log, fp, n) <==> s.fleet.order[n] > CursorOrder(s, fp))
  {
    hide TermsOf, ServedLast, WorkInv, QueueInv;
    assert CursorAgrees(s.fairness, log, fp);
    if fp in s.fairness.cursors {
      assert Agrees(s.fleet, log, s.fairness.cursors[fp].node);
    }
  }

  lemma OrdersAgree(s: State, log: seq<Event>)
    requires Told(s, log)
    ensures forall m, n | m in s.fleet.order && n in s.fleet.order && TermsOf(log, m).Some? && TermsOf(log, n).Some? ::
              s.fleet.order[n] <= s.fleet.order[m] <==> TermsOf(log, n).value.since <= TermsOf(log, m).value.since
  {
    hide TermsOf, ServedLast, WorkInv, QueueInv;
  }

  // ----- Main results -----

  /**
    Every reservation goes to a node that last offered the model and enough tier and context, last
    reported itself well, and has room; among those to one of the smallest tier and then the least
    load; and among equals to the next in turn.
  */
  lemma GivenInTurn(c: Config, r: Run, i: nat)
    requires IsRun(c, r) && i < |r.log| && r.log[i].Reserve?
    ensures InTurn(c, r.states[i].work, r.log[..i], r.log[i].reservation.fingerprint, r.log[i].reservation.node)
  {
    hide InTurn, Told, Selected;
    RunTold(c, r, i);
    SelectionStep(c, r, i);
    TurnIff(c, r.states[i], r.log[..i], r.log[i].reservation.fingerprint, r.log[i].reservation.node);
  }

  /** There is room for one more request of this client. */
  predicate LifecyclesLeft(c: Config, w: Work, client: Digest) {
    && |w.reservations| < c.maxReservations && |w.reservations| + |w.queued| < c.maxLifecycles
    && |OfClient(w.reservations.Keys + w.queued.Keys, client)| < c.maxReservationsPerClient
  }

  lemma LifecyclesIff(c: Config, w: Work, client: Digest)
    requires WorkInv(w)
    ensures LifecyclesLeft(c, w, client) <==> LifecycleRoom(c, w, client)
  {
    var a, b := OfClient(w.reservations.Keys, client), OfClient(w.queued.Keys, client);
    assert OfClient(w.reservations.Keys + w.queued.Keys, client) == a + b && a !! b;
  }

  /** A selection that is new and in time, for a request that is not known. */
  predicate NewRequest(c: Config, s: State, id: Identity, deadline: Time, now: Time) {
    now < deadline <= now + c.maxRequestTtl && id !in s.kept.terminals && !Held(s.work, id)
  }

  lemma UnknownIff(c: Config, s: State, id: Identity, fp: Fingerprint, deadline: Time, cancel: Option<Digest>, now: Time)
    ensures SelectKnown(c, s, id, fp, deadline, cancel, now) == Some(Raised(NoCapacity)) <==>
              NewRequest(c, s, id, deadline, now) && !LifecycleRoom(c, s.work, id.client)
    ensures SelectKnown(c, s, id, fp, deadline, cancel, now) == None <==>
              NewRequest(c, s, id, deadline, now) && LifecycleRoom(c, s.work, id.client)
    ensures var known := SelectKnown(c, s, id, fp, deadline, cancel, now);
            known.Some? && known.value.Ok? ==> !known.value.value.created
  {
    hide LifecycleRoom;
  }

  lemma SomeCandidateIff(c: Config, s: State, log: seq<Event>, fp: Fingerprint)
    requires Told(s, log)
    ensures (exists n :: n in s.fleet.nodes && Eligible(c, s, fp, n)) <==> (exists n :: Candidate(c, s.work, log, fp, n))
  {
    hide Told, Eligible, Candidate;
    forall n
      ensures n in s.fleet.nodes && Eligible(c, s, fp, n) <==> Candidate(c, s.work, log, fp, n)
    {
      CandidateIff(c, s, log, fp, n);
    }
  }

  lemma SelectedIsEligible(c: Config, s: State, fp: Fingerprint, n: NodeId)
    requires Selected(c, s, fp, n)
    ensures n in s.fleet.nodes && Eligible(c, s, fp, n)
  {
    hide Eligible;
  }

  lemma EvictsIff(c: Config, s: State, fp: Fingerprint, victim: Option<Fingerprint>)
    requires Evicts(c, s, fp, victim)
    ensures !CursorsFull(c, s, fp)
  {
    hide ActiveFingerprint;
  }

  /**
    A new request is reserved exactly when some registered node can take it and there is room for
    it and for its cursor; only for lack of these is it refused as without capacity.
  */
  lemma ReservedIff(c: Config, r: Run, i: nat, id: Identity, fp: Fingerprint, deadline: Time, cancel: Option<Digest>,
                    token: Digest, now: Time, d: Decision<Selection>)
    requires IsRun(c, r) && i < |r.states| && SelectCall(c, r.states[i], id, fp, deadline, cancel, token, now, d)
    ensures var s := r.states[i];
            var room := && LifecyclesLeft(c, s.work, id.client) && !CursorsFull(c, s, fp)
                        && exists n :: Candidate(c, s.work, r.log[..i], fp, n);
            && (d.outcome.Ok? && d.outcome.value.created <==> NewRequest(c, s, id, deadline, now) && room)
            && (d.outcome == Raised(NoCapacity) <==> NewRequest(c, s, id, deadline, now) && !room)
  {
    hide StepAt, Told, Candidate, CursorsFull, LifecyclesLeft, NewRequest, LifecycleRoom, SelectKnown, Eligible, Selected, Evicts;
    var s := r.states[i];
    RunTold(c, r, i);
    RunFleet(c, r, i);
    LifecyclesIff(c, s.work, id.client);
    UnknownIff(c, s, id, fp, deadline, cancel, now);
    SomeCandidateIff(c, s, r.log[..i], fp);
    if SelectKnown(c, s, id, fp, deadline, cancel, now).None? && d.outcome.Ok? {
      SelectedIsEligible(c, s, fp, d.events[0].reservation.node);
      EvictsIff(c, s, fp, d.events[0].victim);
    }
  }

  /** The answer to a new selection is the reservation that is stored, with the token issued for it. */
  lemma ReservationIsAnswered(c: Config, s: State, id: Identity, fp: Fingerprint, deadline: Time, cancel: Option<Digest>,
                              token: Digest, now: Time, d: Decision<Selection>)
    requires SelectCall(c, s, id, fp, deadline, cancel, token, now, d) && d.outcome.Ok? && d.outcome.value.created
    ensures |d.events| == 1 && Enabled(c, s, d.events[0])
    ensures var t, answer := Apply(c, s, d.events[0]), d.outcome.value;
            && id in t.work.reservations && answer.expiry.Some?
            && t.work.reservations[id] == Reservation(fp, answer.node, deadline, answer.expiry.value, token)
            && answer.token == Some(token) && answer.fingerprint == fp && answer.deadline == deadline
            && answer.stage == StageReserved
            && answer.expiry.value <= deadline && answer.expiry.value <= now + c.reservationTtl
            && (answer.expiry.value == deadline || answer.expiry.value == now + c.reservationTtl)
            && (cancel.Some? ==> id in t.work.cancelTokens && t.work.cancelTokens[id] == cancel.value)
  {
    hide SelectKnown, Selected, Evicts, LifecycleRoom, AdvanceCursor;
    UnknownIff(c, s, id, fp, deadline, cancel, now);
    SelectEnabled(c, s, id, fp, deadline, cancel, token, now, d);
  }

  /** The node of a new reservation is the one whose turn it is. */
  lemma ReservedInTurn(c: Config, r: Run, id: Identity, fp: Fingerprint, deadline: Time, cancel: Option<Digest>,
                       token: Digest, now: Time, d: Decision<Selection>)
    requires IsRun(c, r) && SelectCall(c, Last(r), id, fp, deadline, cancel, token, now, d)
    requires d.outcome.Ok? && d.outcome.value.created
    ensures InTurn(c, Last(r).work, r.log, fp, d.outcome.value.node)
  {
    hide StepAt, InTurn, Told, Selected, Evicts, SelectKnown, LifecycleRoom;
    RunTold(c, r, |r.log|);
    assert r.log[..|r.log|] == r.log;
    UnknownIff(c, Last(r), id, fp, deadline, cancel, now);
    TurnIff(c, Last(r), r.log, fp, d.outcome.value.node);
  }

  // ----- Forgetting -----

  function FingerprintOf(w: Work, id: Identity): Fingerprint
    requires Held(w, id)
  {
    if id in w.reservations then w.reservations[id].fingerprint else w.queued[id].fingerprint
  }

  ghost predicate Unused(w: Work, fp: Fingerprint) {
    forall id | Held(w, id) :: FingerprintOf(w, id) != fp
  }

  lemma UnusedIff(w: Work, fp: Fingerprint)
    requires WorkInv(w)
    ensures Unused(w, fp) <==> !ActiveFingerprint(w, fp)
  {
    if i :| i in w.reservations && w.reservations[i].fingerprint == fp {
      assert Held(w, i) && FingerprintOf(w, i) == fp;
    }
    if i :| i in w.queued && w.queued[i].fingerprint == fp {
      assert Held(w, i) && FingerprintOf(w, i) == fp;
    }
  }

  lemma VictimStep(c: Config, s: State, e: Event, f: Fingerprint)
    requires Enabled(c, s, e) && e.Reserve? && e.victim.Some?
    ensures var a := s.fairness.cursors;
            && e.reservation.fingerprint !in a && |a| >= c.maxFingerprints && e.victim.value in a
            && !ActiveFingerprint(s.work, e.victim.value)
            && (f in a && !ActiveFingerprint(s.work, f) ==> a[e.victim.value].activity <= a[f].activity)
  {
    hide Selected, LifecycleRoom, ActiveFingerprint;
  }

  /**
    A choice is forgotten for another fingerprint only when no more can be remembered and the other
    is not; it is one that no live request needs, and of those the one made longest ago.
  */
  lemma ForgetsLongestAgo(c: Config, r: Run, i: nat, f: Fingerprint)
    requires IsRun(c, r) && i < |r.log| && r.log[i].Reserve? && r.log[i].victim.Some?
    ensures var e, log, w := r.log[i], r.log[..i], r.states[i].work;
            && |r.states[i].fairness.cursors| >= c.maxFingerprints && ServedLast(log, e.reservation.fingerprint).None?
            && Unused(w, e.victim.value) && ServedLast(log, e.victim.value).Some?
            && (Unused(w, f) && ServedLast(log, f).Some? ==>
                  ServedLast(log, e.victim.value).value.at <= ServedLast(log, f).value.at)
  {
    hide Enabled, Apply, ServedLast, Unused, ActiveFingerprint, WorkInv, Agrees, OrderAgrees, CursorInv;
    var s, e, log := r.states[i], r.log[i], r.log[..i];
    assert StepAt(c, r, i);
    RunFleet(c, r, i);
    HistoryAgrees(c, r, i);
    VictimStep(c, s, e, f);
    UnusedIff(s.work, e.victim.value);
    UnusedIff(s.work, f);
    assert CursorAgrees(s.fairness, log, e.victim.value) && CursorAgrees(s.fairness, log, f);
    assert CursorAgrees(s.fairness, log, e.reservation.fingerprint);
  }
}
