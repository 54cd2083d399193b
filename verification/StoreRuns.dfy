/**
  What holds over every run of the store: any series of enabled events from the empty state, in
  whatever order callers produce them.
*/
module StoreRuns {
  import opened RelayTypes
  import opened StoreState
  import opened StoreInvariant

  /** `states[i]` is the state before `log[i]`. */
  datatype Run = Run(states: seq<State>, log: seq<Event>)

  ghost predicate StepAt(c: Config, r: Run, i: nat)
    requires |r.states| == |r.log| + 1 && i < |r.log|
  {
    Enabled(c, r.states[i], r.log[i]) && r.states[i + 1] == Apply(c, r.states[i], r.log[i])
  }

  ghost predicate IsRun(c: Config, r: Run) {
    && c.Valid()
    && |r.states| == |r.log| + 1
    && r.states[0] == Init()
    && forall i: nat | i < |r.log| :: StepAt(c, r, i)
  }

  ghost function Last(r: Run): State
    requires r.states != []
  {
    r.states[|r.states| - 1]
  }

  /** Every state of every run satisfies the invariant. */
  lemma {:induction false} RunInv(c: Config, r: Run, i: nat)
    requires IsRun(c, r) && i < |r.states|
    ensures Inv(c, r.states[i])
  {
    hide Consistent, Bounded, Enabled, Apply;
    if i == 0 {
      InitInv(c);
    } else {
      RunInv(c, r, i - 1);
      assert StepAt(c, r, i - 1);
      EventInv(c, r.states[i - 1], r.log[i - 1]);
    }
  }

  lemma RunExtends(c: Config, r: Run, e: Event)
    requires IsRun(c, r) && Enabled(c, Last(r), e)
    ensures IsRun(c, Run(r.states + [Apply(c, Last(r), e)], r.log + [e]))
  {
    hide Enabled, Apply;
    var q := Run(r.states + [Apply(c, Last(r), e)], r.log + [e]);
    forall i: nat | i < |q.log|
      ensures StepAt(c, q, i)
    {
      if i < |r.log| {
        assert StepAt(c, r, i);
      }
    }
  }

  // ----- Fencing by claim generation -----

  predicate Exercises(e: Event, g: nat) {
    (e.RenewClaim? || e.Accept?) && e.generation == g
  }

  /** No claim of generation `g` can be renewed or completed, now or later. */
  predicate Dead(s: State, g: nat) {
    && g <= s.leases.nextGeneration
    && forall id | id in s.leases.claims && s.leases.claims[id].generation == g ::
         s.leases.claims[id].node !in s.fleet.nodes
  }

  /** Events that change neither the claims nor, for their nodes, who is registered. */
  predicate LeavesClaims(e: Event) {
    !(e.TakeClaim? || e.RenewClaim? || e.StartTransition? || e.Register?)
  }

  lemma ClaimsShrink(c: Config, s: State, e: Event)
    requires Enabled(c, s, e) && LeavesClaims(e)
    ensures var t := Apply(c, s, e);
            && t.leases.nextGeneration == s.leases.nextGeneration
            && t.fleet.nodes.Keys == s.fleet.nodes.Keys
            && (forall id | id in t.leases.claims :: id in s.leases.claims && t.leases.claims[id] == s.leases.claims[id])
  {
    hide CanTerminalize, TransitionRoom, Selected, Evicts, LifecycleRoom, QueueRoom, ResponseRoom,
         LiveOwnedClaim, ReapKept, RemoveWork, Conclude, TerminalFor, ControlOf, ReserveWork,
         AdvanceCursor, EnqueueWork, CompletedBy, ResponseTo;
  }

  lemma DeadStaysDead(c: Config, s: State, e: Event, g: nat)
    requires Consistent(s) && Enabled(c, s, e) && Dead(s, g)
    ensures Dead(Apply(c, s, e), g)
  {
    hide WorkInv, QueueInv, WorkBounds, FleetInv, FleetBounds, HousedInv, OverInv, KeptInv, KeptBounds,
         CursorInv;
    if LeavesClaims(e) {
      ClaimsShrink(c, s, e);
    } else if e.Register? {
      PendingOwnsClaims(s.leases, s.work, s.fleet);
    }
  }

  lemma PendingOwnsClaims(l: Leases, w: Work, f: Fleet)
    requires ClaimInv(l, w, f)
    ensures forall id | id in l.claims :: l.claims[id].node in f.nodes || l.claims[id].node in f.pending
  {
  }

  lemma DeadIsNeverExercised(c: Config, s: State, e: Event, g: nat)
    requires Enabled(c, s, e) && Dead(s, g)
    ensures !Exercises(e, g)
  {
  }

  /** `e` supersedes, terminalizes or drops the claim on `id`, or removes the node that holds it. */
  predicate Ends(s: State, e: Event, id: Identity)
    requires id in s.leases.claims
  {
    || (e.TakeClaim? && e.id == id)
    || ((e.Expire? || e.Teardown? || e.Cancel? || e.Accept?) && e.id == id)
    || (e.StartTransition? && e.node == s.leases.claims[id].node)
  }

  lemma EndedClaimIsDead(c: Config, s: State, e: Event, id: Identity)
    requires Consistent(s) && Enabled(c, s, e) && id in s.leases.claims && Ends(s, e, id)
    ensures Dead(Apply(c, s, e), s.leases.claims[id].generation)
  {
    hide WorkInv, QueueInv, WorkBounds, FleetInv, FleetBounds, HousedInv, OverInv, KeptInv, KeptBounds,
         CursorInv, CanTerminalize, TransitionRoom, ResponseRoom, ClaimRoom;
  }

  lemma {:induction false} DeadForTheRestOfTheRun(c: Config, r: Run, i: nat, j: nat, g: nat)
    requires IsRun(c, r) && i <= j < |r.states| && Dead(r.states[i], g)
    ensures Dead(r.states[j], g)
  {
    hide Consistent, Bounded, Enabled, Apply, Dead;
    if i < j {
      DeadForTheRestOfTheRun(c, r, i, j - 1, g);
      RunInv(c, r, j - 1);
      assert StepAt(c, r, j - 1);
      DeadStaysDead(c, r.states[j - 1], r.log[j - 1], g);
    }
  }

  /**
    Fencing: once a claim has been superseded, terminalized or its node removed, no later renewal
    and no later response succeeds with its generation, on any request identity, however often
    identities and node names are reused.
  */
  lemma Fencing(c: Config, r: Run, i: nat, j: nat, id: Identity)
    requires IsRun(c, r) && i < j < |r.log|
    requires id in r.states[i].leases.claims && Ends(r.states[i], r.log[i], id)
    ensures !Exercises(r.log[j], r.states[i].leases.claims[id].generation)
  {
    hide Consistent, Bounded, Enabled, Apply, Dead, Ends;
    var g := r.states[i].leases.claims[id].generation;
    RunInv(c, r, i);
    assert StepAt(c, r, i) && StepAt(c, r, j);
    EndedClaimIsDead(c, r.states[i], r.log[i], id);
    DeadForTheRestOfTheRun(c, r, i + 1, j, g);
    DeadIsNeverExercised(c, r.states[j], r.log[j], g);
  }

  // ----- Generations -----

  lemma GenerationStep(c: Config, s: State, e: Event)
    requires Enabled(c, s, e)
    ensures Apply(c, s, e).leases.nextGeneration == s.leases.nextGeneration + (if e.TakeClaim? then 1 else 0)
  {
    hide CanTerminalize, TransitionRoom, Selected, Evicts, LifecycleRoom, QueueRoom, ResponseRoom,
         LiveOwnedClaim, ReapKept, RemoveWork, Conclude, TerminalFor, ControlOf, ReserveWork,
         AdvanceCursor, EnqueueWork, CompletedBy, ResponseTo;
  }

  lemma {:induction false} GenerationsGrow(c: Config, r: Run, i: nat, j: nat)
    requires IsRun(c, r) && i <= j < |r.states|
    ensures r.states[i].leases.nextGeneration <= r.states[j].leases.nextGeneration
  {
    hide Enabled, Apply;
    if i < j {
      GenerationsGrow(c, r, i, j - 1);
      assert StepAt(c, r, j - 1);
      GenerationStep(c, r.states[j - 1], r.log[j - 1]);
    }
  }

  /** `log[i]` is the claim event that created `k` for the request `id`. */
  ghost predicate Issues(r: Run, i: nat, id: Identity, k: Claim)
    requires |r.states| == |r.log| + 1
  {
    && i < |r.log|
    && r.log[i].TakeClaim? && r.log[i].id == id && r.log[i].consumer == k.consumer
    && r.states[i + 1].leases.nextGeneration == k.generation
    && id in r.states[i].work.queued && r.states[i].work.queued[id].node == k.node
  }

  /** Later claims have larger generations, so each generation has exactly one claim event. */
  lemma GenerationsIncrease(c: Config, r: Run, i: nat, j: nat)
    requires IsRun(c, r) && i < j < |r.log| && r.log[i].TakeClaim? && r.log[j].TakeClaim?
    ensures r.states[i + 1].leases.nextGeneration < r.states[j + 1].leases.nextGeneration
  {
    hide Enabled, Apply;
    GenerationsGrow(c, r, i + 1, j);
    assert StepAt(c, r, j);
    GenerationStep(c, r.states[j], r.log[j]);
  }

  lemma ClaimStep(c: Config, s: State, e: Event, id: Identity)
    requires Enabled(c, s, e) && id in Apply(c, s, e).leases.claims
    ensures var k := Apply(c, s, e).leases.claims[id];
            if e.TakeClaim? && e.id == id then
              && id in s.work.queued && s.work.queued[id].node == k.node && k.consumer == e.consumer
              && k.generation == s.leases.nextGeneration + 1
            else
              && id in s.leases.claims
              && k == s.leases.claims[id].(lease := k.lease)
  {
    hide CanTerminalize, TransitionRoom, Selected, Evicts, LifecycleRoom, QueueRoom, ResponseRoom,
         ReapKept, RemoveWork, Conclude, TerminalFor, ControlOf, ReserveWork,
         AdvanceCursor, EnqueueWork, CompletedBy, ResponseTo;
  }

  /** Every claim goes back to the event that issued it, for the same request, node and consumer. */
  lemma {:induction false} ClaimHasIssuer(c: Config, r: Run, j: nat, id: Identity) returns (i: nat)
    requires IsRun(c, r) && j < |r.states| && id in r.states[j].leases.claims
    ensures i < j && Issues(r, i, id, r.states[j].leases.claims[id])
  {
    hide Enabled, Apply;
    assert j != 0;
    assert StepAt(c, r, j - 1);
    ClaimStep(c, r.states[j - 1], r.log[j - 1], id);
    GenerationStep(c, r.states[j - 1], r.log[j - 1]);
    if r.log[j - 1].TakeClaim? && r.log[j - 1].id == id {
      i := j - 1;
    } else {
      i := ClaimHasIssuer(c, r, j - 1, id);
    }
  }

  /**
    A renewal or a response succeeds only for the request, node and consumer to which its generation
    was issued, and only while that node is registered with the owner that took the claim.
  */
  lemma ExercisedByItsOwner(c: Config, r: Run, j: nat) returns (i: nat)
    requires IsRun(c, r) && j < |r.log| && (r.log[j].RenewClaim? || r.log[j].Accept?)
    ensures i < j
    ensures var s, id := r.states[j], r.log[j].id;
            && id in s.leases.claims
            && Issues(r, i, id, s.leases.claims[id])
            && r.states[i + 1].leases.nextGeneration == r.log[j].generation
            && s.leases.claims[id].node in s.fleet.nodes
            && s.fleet.nodes[s.leases.claims[id].node].credential == s.leases.claims[id].credential
  {
    hide Apply;
    assert StepAt(c, r, j);
    i := ClaimHasIssuer(c, r, j, r.log[j].id);
  }

  // ----- Owners -----

  /** The same registration, renewed perhaps. */
  predicate SameOwner(f: Fleet, g: Fleet, n: NodeId) {
    && n in f.nodes && n in g.nodes && n in f.order && n in g.order
    && g.nodes[n].credential == f.nodes[n].credential
    && g.nodes[n].registeredAt == f.nodes[n].registeredAt
    && g.order[n] == f.order[n]
  }

  lemma OwnerStep(c: Config, s: State, e: Event, n: NodeId)
    requires n in s.fleet.order && n in s.fleet.nodes && Enabled(c, s, e) && !(e.StartTransition? && e.node == n)
    ensures SameOwner(s.fleet, Apply(c, s, e).fleet, n)
  {
    hide CanTerminalize, TransitionRoom, Selected, Evicts, LifecycleRoom, QueueRoom, ResponseRoom, ClaimRoom,
         LiveOwnedClaim, ReapKept, RemoveWork, TombstoneClaim, TerminalFor, ControlOf, Conclude, ReserveWork,
         AdvanceCursor, EnqueueWork, CompletedBy, ResponseTo;
  }

  /** A registered node keeps its owner and its place in the order until a transition removes it. */
  lemma {:induction false} OwnerUntilRemoved(c: Config, r: Run, i: nat, j: nat, n: NodeId)
    requires IsRun(c, r) && i <= j < |r.states| && n in r.states[i].fleet.nodes
    requires forall m: nat | i <= m < j :: !(r.log[m].StartTransition? && r.log[m].node == n)
    ensures SameOwner(r.states[i].fleet, r.states[j].fleet, n)
  {
    hide Enabled, Apply, Consistent, Bounded;
    if i == j {
      RunInv(c, r, i);
      RegisteredHasOrder(c, r.states[i], n);
    } else {
      OwnerUntilRemoved(c, r, i, j - 1, n);
      assert StepAt(c, r, j - 1);
      OwnerStep(c, r.states[j - 1], r.log[j - 1], n);
    }
  }

  lemma RegisteredHasOrder(c: Config, s: State, n: NodeId)
    requires Consistent(s) && n in s.fleet.nodes
    ensures n in s.fleet.order
  {
    hide WorkInv, QueueInv, WorkBounds, FleetBounds, HousedInv, OverInv, KeptInv, KeptBounds, ClaimInv, CursorInv;
  }

  /** The event that gave the node its lease. */
  predicate GrantsLease(e: Event, n: NodeId) {
    (e.Register? || e.Renew?) && e.node == n
  }

  lemma LeaseStep(c: Config, s: State, e: Event, n: NodeId)
    requires Enabled(c, s, e) && n in Apply(c, s, e).fleet.nodes
    ensures var t := Apply(c, s, e).fleet.nodes[n];
            if GrantsLease(e, n) then t.leaseExpiry == e.now + c.leaseTtl
            else n in s.fleet.nodes && t == s.fleet.nodes[n]
  {
    hide CanTerminalize, TransitionRoom, Selected, Evicts, LifecycleRoom, QueueRoom, ResponseRoom, ClaimRoom,
         LiveOwnedClaim, ReapKept, RemoveWork, TombstoneClaim, TerminalFor, ControlOf, Conclude, ReserveWork,
         AdvanceCursor, EnqueueWork, CompletedBy, ResponseTo;
  }

  /** A registered node's lease runs from its last registration or renewal. */
  lemma {:induction false} LeaseIsFromLastRenewal(c: Config, r: Run, j: nat, n: NodeId) returns (i: nat)
    requires IsRun(c, r) && j < |r.states| && n in r.states[j].fleet.nodes
    ensures i < j && GrantsLease(r.log[i], n)
    ensures r.states[j].fleet.nodes[n].leaseExpiry == r.log[i].now + c.leaseTtl
    ensures forall m: nat | i < m < j :: !GrantsLease(r.log[m], n)
  {
    hide Enabled, Apply;
    assert j != 0;
    assert StepAt(c, r, j - 1);
    LeaseStep(c, r.states[j - 1], r.log[j - 1], n);
    if GrantsLease(r.log[j - 1], n) {
      i := j - 1;
    } else {
      i := LeaseIsFromLastRenewal(c, r, j - 1, n);
    }
  }

  /**
    A node is removed as lapsed only a full lease after its last registration or renewal, so a node
    that renews in time stays until it is unregistered explicitly.
  */
  lemma LapsesOnlyAfterLease(c: Config, r: Run, j: nat) returns (i: nat)
    requires IsRun(c, r) && j < |r.log| && r.log[j].StartTransition? && r.log[j].cause == LeaseExpired
    ensures i < j && GrantsLease(r.log[i], r.log[j].node) && r.log[i].now + c.leaseTtl <= r.log[j].now
    ensures forall m: nat | i < m < j :: !GrantsLease(r.log[m], r.log[j].node)
  {
    hide Apply;
    assert StepAt(c, r, j);
    i := LeaseIsFromLastRenewal(c, r, j, r.log[j].node);
  }

  predicate Reports(e: Event, n: NodeId) {
    (e.Register? || e.SetScheduler?) && e.node == n
  }

  function Reported(e: Event): SchedulerState
    requires e.Register? || e.SetScheduler?
  {
    if e.SetScheduler? then e.state else SchedulerState(true, false, 0)
  }

  lemma ReportStep(c: Config, s: State, e: Event, n: NodeId)
    requires Enabled(c, s, e) && n in Apply(c, s, e).fleet.nodes && n in Apply(c, s, e).fleet.scheduler
    ensures if Reports(e, n) then Apply(c, s, e).fleet.scheduler[n] == Reported(e)
            else n in s.fleet.nodes && n in s.fleet.scheduler && Apply(c, s, e).fleet.scheduler[n] == s.fleet.scheduler[n]
  {
    hide CanTerminalize, TransitionRoom, Selected, Evicts, LifecycleRoom, QueueRoom, ResponseRoom, ClaimRoom,
         LiveOwnedClaim, ReapKept, RemoveWork, TombstoneClaim, TerminalFor, ControlOf, Conclude, ReserveWork,
         AdvanceCursor, EnqueueWork, CompletedBy, ResponseTo;
  }

  /** What the scheduler goes by is what the node last reported since it registered. */
  lemma {:induction false} SchedulerStateIsLastReport(c: Config, r: Run, j: nat, n: NodeId) returns (i: nat)
    requires IsRun(c, r) && j < |r.states| && n in r.states[j].fleet.nodes && n in r.states[j].fleet.scheduler
    ensures i < j && Reports(r.log[i], n) && r.states[j].fleet.scheduler[n] == Reported(r.log[i])
    ensures forall m: nat | i < m < j :: !Reports(r.log[m], n)
  {
    hide Enabled, Apply;
    assert j != 0;
    assert StepAt(c, r, j - 1);
    ReportStep(c, r.states[j - 1], r.log[j - 1], n);
    if Reports(r.log[j - 1], n) {
      i := j - 1;
    } else {
      i := SchedulerStateIsLastReport(c, r, j - 1, n);
    }
  }

  // ----- Outcomes -----

  predicate Concludes(e: Event) {
    e.Expire? || e.Teardown? || e.Cancel? || e.Accept?
  }

  /** All of a terminal record but its retrieval state. */
  predicate SameRecord(a: Terminal, b: Terminal) {
    b == a.(retrieval := b.retrieval)
  }

  predicate RetrievalMoves(a: Retrieval, b: Retrieval) {
    a == b || (a == ResponseReady && (b == Acknowledged || b == RetrievalExpired))
  }

  /** A retained record never changes its outcome; it goes only when its retention has elapsed. */
  lemma RecordsAreFinal(c: Config, s: State, e: Event, id: Identity)
    requires Consistent(s) && Enabled(c, s, e) && id in s.kept.terminals
    ensures var t := Apply(c, s, e);
            if id in t.kept.terminals then
              && SameRecord(s.kept.terminals[id], t.kept.terminals[id])
              && RetrievalMoves(s.kept.terminals[id].retrieval, t.kept.terminals[id].retrieval)
            else
              e.Reap? && s.kept.terminals[id].expiry <= e.now
  {
    hide WorkInv, QueueInv, WorkBounds, FleetInv, FleetBounds, HousedInv, KeptInv, KeptBounds, ClaimInv,
         CursorInv, CanTerminalize, TransitionRoom, ResponseRoom, ClaimRoom, Selected, Evicts,
         RemoveWork, TerminalFor, ReserveWork, EnqueueWork;
  }

  /** A request stops being live only by a conclusion, which records it, or by a lapsed reservation. */
  lemma LeavesOnlyWithRecord(c: Config, s: State, e: Event, id: Identity)
    requires Consistent(s) && Enabled(c, s, e) && Held(s.work, id) && !Held(Apply(c, s, e).work, id)
    ensures e.DropReservation? || (Concludes(e) && e.id == id && id in Apply(c, s, e).kept.terminals)
    ensures id in s.work.queued ==> Concludes(e) && e.id == id
    ensures id !in s.kept.terminals
  {
    hide QueueInv, WorkBounds, FleetInv, FleetBounds, HousedInv, KeptInv, KeptBounds, ClaimInv,
         CursorInv, CanTerminalize, TransitionRoom, ResponseRoom, ClaimRoom, Selected, Evicts,
         TerminalFor;
  }

  /** Becoming live takes a reservation of an identity without a terminal record. */
  lemma BecomesLiveByReserving(c: Config, s: State, e: Event, id: Identity)
    requires Enabled(c, s, e) && !Held(s.work, id) && Held(Apply(c, s, e).work, id)
    ensures e.Reserve? && e.id == id && id !in s.kept.terminals
  {
    hide CanTerminalize, TransitionRoom, ResponseRoom, ClaimRoom, Selected, Evicts, TerminalFor;
  }

  lemma ConclusionRecords(c: Config, s: State, e: Event)
    requires Enabled(c, s, e) && Concludes(e)
    ensures Held(s.work, e.id) && !Held(Apply(c, s, e).work, e.id) && e.id in Apply(c, s, e).kept.terminals
  {
    hide CanTerminalize, ResponseRoom, TerminalFor;
  }

  /** From step `i` to state `j` nothing has reaped records due at `expiry`. */
  predicate NotReapedAt(r: Run, i: nat, j: nat, expiry: Time)
    requires i <= j <= |r.log|
  {
    forall m: nat | i <= m < j :: !(r.log[m].Reap? && expiry <= r.log[m].now)
  }

  lemma {:induction false} RecordStays(c: Config, r: Run, i: nat, j: nat, id: Identity)
    requires IsRun(c, r) && i <= j < |r.states| && id in r.states[i].kept.terminals
    requires NotReapedAt(r, i, j, r.states[i].kept.terminals[id].expiry)
    ensures id in r.states[j].kept.terminals
    ensures SameRecord(r.states[i].kept.terminals[id], r.states[j].kept.terminals[id])
  {
    hide Enabled, Apply, Consistent, Bounded;
    if i < j {
      RecordStays(c, r, i, j - 1, id);
      RunInv(c, r, j - 1);
      assert StepAt(c, r, j - 1);
      RecordsAreFinal(c, r.states[j - 1], r.log[j - 1], id);
    }
  }

  /**
    At most one outcome: a second conclusion of the same identity comes only after the retention
    of the first record has elapsed and the identity has been reserved afresh.
  */
  lemma OneOutcomePerLifecycle(c: Config, r: Run, i: nat, j: nat) returns (k: nat, m: nat)
    requires IsRun(c, r) && i < j < |r.log|
    requires Concludes(r.log[i]) && Concludes(r.log[j]) && r.log[i].id == r.log[j].id
    ensures i < m < k < j
    ensures r.log[k].Reserve? && r.log[k].id == r.log[i].id
    ensures r.log[i].id in r.states[i + 1].kept.terminals
    ensures r.log[m].Reap? && r.states[i + 1].kept.terminals[r.log[i].id].expiry <= r.log[m].now
  {
    hide Enabled, Apply, Consistent, Bounded;
    var id := r.log[i].id;
    assert StepAt(c, r, i) && StepAt(c, r, j);
    ConclusionRecords(c, r.states[i], r.log[i]);
    ConclusionRecords(c, r.states[j], r.log[j]);
    k := LastReservation(c, r, i + 1, j, id);
    var expiry := r.states[i + 1].kept.terminals[id].expiry;
    if NotReapedAt(r, i + 1, k, expiry) {
      RecordStays(c, r, i + 1, k, id);
      assert StepAt(c, r, k);
      BecomesLiveByReserving(c, r.states[k], r.log[k], id);
    }
    m :| i + 1 <= m < k && r.log[m].Reap? && expiry <= r.log[m].now;
  }

  lemma {:induction false} LastReservation(c: Config, r: Run, i: nat, j: nat, id: Identity) returns (k: nat)
    requires IsRun(c, r) && i <= j < |r.states| && !Held(r.states[i].work, id) && Held(r.states[j].work, id)
    ensures i <= k < j && r.log[k].Reserve? && r.log[k].id == id
    ensures !Held(r.states[k].work, id) && Held(r.states[k + 1].work, id)
  {
    hide Enabled, Apply, Held;
    if i == j {
      k := i;
    } else {
      assert StepAt(c, r, j - 1);
      if Held(r.states[j - 1].work, id) {
        k := LastReservation(c, r, i, j - 1, id);
      } else {
        BecomesLiveByReserving(c, r.states[j - 1], r.log[j - 1], id);
        k := j - 1;
      }
    }
  }

  // ----- Counting conclusions -----

  function Conclusions(events: seq<Event>): nat {
    if events == [] then 0
    else Conclusions(events[..|events| - 1]) + if Concludes(events[|events| - 1]) then 1 else 0
  }

  lemma AtMostOne(events: seq<Event>)
    ensures events == [] ==> Conclusions(events) == 0
    ensures |events| == 1 ==> Conclusions(events) == if Concludes(events[0]) then 1 else 0
  {
    if |events| == 1 {
      assert events[..0] == [];
    }
  }

  lemma {:induction false} ConclusionsConcat(a: seq<Event>, b: seq<Event>)
    ensures Conclusions(a + b) == Conclusions(a) + Conclusions(b)
  {
    if b == [] {
      assert a + b == a;
    } else {
      ConclusionsConcat(a, b[..|b| - 1]);
      assert (a + b)[..|a + b| - 1] == a + b[..|b| - 1];
    }
  }

  lemma {:induction false} NoConclusions(events: seq<Event>)
    ensures Conclusions(events) == 0 <==> forall e | e in events :: !Concludes(e)
  {
    if events != [] {
      NoConclusions(events[..|events| - 1]);
      assert events == events[..|events| - 1] + [events[|events| - 1]];
    }
  }

  // ----- Arrivals -----

  /** Every live request has a place of its own. */
  ghost predicate ArrivalInv(w: Work, a: Arrivals) {
    && (forall id | Held(w, id) :: id in a.places)
    && (forall id | id in a.places :: a.places[id] < a.next)
    && (forall i, j | i in a.places && j in a.places && a.places[i] == a.places[j] :: i == j)
  }

  lemma ArrivalStep(c: Config, s: State, e: Event)
    requires Enabled(c, s, e)
    ensures Apply(c, s, e).arrivals == if e.Reserve? then Arrive(s.arrivals, e.id) else s.arrivals
  {
    hide CanTerminalize, TransitionRoom, Selected, Evicts, LifecycleRoom, QueueRoom, ResponseRoom, ClaimRoom,
         LiveOwnedClaim, ReapKept, RemoveWork, TombstoneClaim, TerminalFor, ControlOf, Conclude, ReserveWork,
         AdvanceCursor, EnqueueWork, CompletedBy, ResponseTo, Arrive;
  }

  lemma ArrivedInv(w: Work, v: Work, a: Arrivals, id: Identity)
    requires ArrivalInv(w, a) && forall i | Held(v, i) :: Held(w, i) || i == id
    ensures ArrivalInv(v, Arrive(a, id))
  {
    hide Held;
  }

  lemma {:induction false} ArrivalsHold(c: Config, r: Run, i: nat)
    requires IsRun(c, r) && i < |r.states|
    ensures ArrivalInv(r.states[i].work, r.states[i].arrivals)
  {
    hide Enabled, Apply, Held, ArrivalInv;
    if i == 0 {
      FirstArrivals();
    } else {
      var s, e, t := r.states[i - 1], r.log[i - 1], r.states[i];
      ArrivalsHold(c, r, i - 1);
      assert StepAt(c, r, i - 1);
      ArrivalStep(c, s, e);
      forall id | Held(t.work, id) && !Held(s.work, id)
        ensures e.Reserve? && e.id == id
      {
        BecomesLiveByReserving(c, s, e, id);
      }
      if e.Reserve? {
        ArrivedInv(s.work, t.work, s.arrivals, e.id);
      } else {
        FewerArrivals(s.work, t.work, s.arrivals);
      }
    }
  }

  lemma FirstArrivals()
    ensures ArrivalInv(Init().work, Init().arrivals)
  {
  }

  lemma FewerArrivals(w: Work, v: Work, a: Arrivals)
    requires ArrivalInv(w, a) && forall i | Held(v, i) :: Held(w, i)
    ensures ArrivalInv(v, a)
  {
    hide Held;
  }

  /** A request keeps its place from one event to the next for as long as it is live. */
  lemma PlaceIsKept(c: Config, s: State, e: Event, id: Identity)
    requires Enabled(c, s, e) && Held(s.work, id)
    ensures PlaceOf(Apply(c, s, e).arrivals, id) == PlaceOf(s.arrivals, id)
  {
    hide Apply, CanTerminalize, TransitionRoom, Selected, Evicts, LifecycleRoom, QueueRoom, ResponseRoom, ClaimRoom,
         LiveOwnedClaim;
    ArrivalStep(c, s, e);
  }

  // ----- Conservation -----

  /** Requests enqueued in the first `n` steps. */
  ghost function EnqueuedCount(r: Run, n: nat): nat
    requires n <= |r.log|
  {
    if n == 0 then 0 else EnqueuedCount(r, n - 1) + (if r.log[n - 1].Enqueue? then 1 else 0)
  }

  /** Requests that were concluded while queued in the first `n` steps. */
  ghost function ConcludedCount(r: Run, n: nat): nat
    requires n <= |r.log| && |r.states| == |r.log| + 1
  {
    if n == 0 then 0
    else
      var e := r.log[n - 1];
      ConcludedCount(r, n - 1) + (if Concludes(e) && e.id in r.states[n - 1].work.queued then 1 else 0)
  }

  lemma ConclusionWork(c: Config, s: State, e: Event)
    requires Enabled(c, s, e) && (Concludes(e) || e.DropReservation?)
    ensures Held(s.work, e.id) && Apply(c, s, e).work == RemoveWork(s.work, e.id)
    ensures WorkInv(s.work) && e.DropReservation? ==> e.id !in s.work.queued
  {
    hide RemoveWork, CanTerminalize, ResponseRoom, TombstoneClaim, TerminalFor, ControlOf, Conclude, CompletedBy,
         ResponseTo;
  }

  lemma QueueCountStep(c: Config, s: State, e: Event)
    requires Consistent(s) && Enabled(c, s, e)
    ensures |Apply(c, s, e).work.queued| == |s.work.queued|
              + (if e.Enqueue? then 1 else 0)
              - (if Concludes(e) && e.id in s.work.queued then 1 else 0)
  {
    hide QueueInv, WorkBounds, FleetInv, FleetBounds, HousedInv, OverInv, KeptInv, KeptBounds, ClaimInv,
         CursorInv, CanTerminalize, TransitionRoom, ResponseRoom, ClaimRoom, QueueRoom, LifecycleRoom,
         LiveOwnedClaim, Selected, Evicts, Terminalize, ReapKept, ReapFleet, StartFleet,
         CompleteFleet, RegisterFleet, AdvanceCursor, CompletedBy, ResponseTo;
    if Concludes(e) || e.DropReservation? {
      ConclusionWork(c, s, e);
      RemoveSize(s.work.queued, e.id);
    }
  }

  lemma RemoveSize<K, V>(m: map<K, V>, k: K)
    ensures |m - {k}| == |m| - (if k in m then 1 else 0)
  {
    assert (m - {k}).Keys == m.Keys - {k};
    assert |m - {k}| == |(m - {k}).Keys| && |m| == |m.Keys|;
  }

  /** Nothing is lost: every enqueued request is still queued or was concluded exactly once. */
  lemma {:induction false} Conservation(c: Config, r: Run, n: nat)
    requires IsRun(c, r) && n <= |r.log|
    ensures EnqueuedCount(r, n) == |r.states[n].work.queued| + ConcludedCount(r, n)
  {
    hide Enabled, Apply, Consistent, Bounded;
    if n > 0 {
      Conservation(c, r, n - 1);
      RunInv(c, r, n - 1);
      assert StepAt(c, r, n - 1);
      QueueCountStep(c, r.states[n - 1], r.log[n - 1]);
    }
  }
}
