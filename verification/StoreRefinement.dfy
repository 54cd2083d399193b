/**
  The many-map store refines a single map from request identities to lifecycle phases.
*/
module StoreRefinement {
  import opened RelayTypes
  import opened StoreState
  import opened StoreInvariant
  import opened StoreRuns

  datatype Phase =
    | Reserved(node: NodeId, deadline: Time)
    | Queued(node: NodeId, deadline: Time)
    | Claimed(node: NodeId, deadline: Time, generation: nat)
    | Over(verdict: Verdict, retrieval: Retrieval)

  type Lifecycles = map<Identity, Phase>

  predicate Live(p: Phase) {
    !p.Over?
  }

  ghost function PhaseOf(s: State, id: Identity): Phase
    requires Held(s.work, id) || id in s.kept.terminals
  {
    if id in s.work.reservations then
      Reserved(s.work.reservations[id].node, s.work.reservations[id].deadline)
    else if id in s.work.queued then
      var q := s.work.queued[id];
      if id in s.leases.claims then Claimed(q.node, q.deadline, s.leases.claims[id].generation)
      else Queued(q.node, q.deadline)
    else
      Over(s.kept.terminals[id].verdict, s.kept.terminals[id].retrieval)
  }

  ghost function Abstract(s: State): Lifecycles {
    map id | id in s.work.reservations.Keys + s.work.queued.Keys + s.kept.terminals.Keys :: PhaseOf(s, id)
  }

  /** What one event may do to the lifecycle map, said without any of the store's indexes. */
  ghost predicate Allowed(a: Lifecycles, e: Event, b: Lifecycles) {
    match e
    case Reap(_) =>
      && b.Keys <= a.Keys
      && (forall id | id in a && Live(a[id]) :: id in b)
      && (forall id | id in b ::
            || b[id] == a[id]
            || (a[id] == Over(Completed, ResponseReady) && b[id] == Over(Completed, RetrievalExpired)))
    case Reserve(id, r, _, _, _) => id !in a && b == a[id := Reserved(r.node, r.deadline)]
    case DropReservation(id, _) => id in a && a[id].Reserved? && b == a - {id}
    case Enqueue(id, _, _, now) =>
      id in a && a[id].Reserved? && now < a[id].deadline && b == a[id := Queued(a[id].node, a[id].deadline)]
    case TakeClaim(id, _, now) =>
      && id in a && (a[id].Queued? || a[id].Claimed?) && now < a[id].deadline
      && exists g :: b == a[id := Claimed(a[id].node, a[id].deadline, g)]
                     && forall i | i in a && a[i].Claimed? :: a[i].generation < g
    case RenewClaim(id, g, now) =>
      id in a && a[id].Claimed? && a[id].generation == g && now < a[id].deadline && b == a
    case Accept(id, g, _, now) =>
      && id in a && a[id].Claimed? && a[id].generation == g && now < a[id].deadline
      && b == a[id := Over(Completed, ResponseReady)]
    case Expire(id, now) =>
      id in a && Live(a[id]) && a[id].deadline <= now && b == a[id := Over(Expired, CompletedUnavailable)]
    case Teardown(id, n, _) =>
      id in a && Live(a[id]) && a[id].node == n && b == a[id := Over(Cancelled, CompletedUnavailable)]
    case Cancel(id, _) => id in a && Live(a[id]) && b == a[id := Over(Cancelled, CompletedUnavailable)]
    case AckResponse(id, _) =>
      id in a && a[id] == Over(Completed, ResponseReady) && b == a[id := Over(Completed, Acknowledged)]
    case _ => b == a
  }

  lemma SameAbstract(s: State, t: State)
    requires t.work.reservations == s.work.reservations && t.work.queued == s.work.queued
    requires t.leases.claims.Keys == s.leases.claims.Keys
    requires forall id | id in s.leases.claims :: t.leases.claims[id].generation == s.leases.claims[id].generation
    requires t.kept.terminals == s.kept.terminals
    ensures Abstract(t) == Abstract(s)
  {
    forall id | Held(s.work, id) || id in s.kept.terminals
      ensures PhaseOf(t, id) == PhaseOf(s, id)
    {
    }
  }

  lemma AgreeElsewhere<K, V>(m: map<K, V>, n: map<K, V>, k: K)
    requires m - {k} == n - {k}
    ensures forall i | i != k :: (i in m <==> i in n) && (i in n ==> m[i] == n[i])
  {
    forall i | i != k
      ensures (i in m <==> i in n) && (i in n ==> m[i] == n[i])
    {
      assert i in m <==> i in m - {k};
      assert i in n <==> i in n - {k};
      if i in n {
        assert (m - {k})[i] == m[i] && (n - {k})[i] == n[i];
      }
    }
  }

  ghost predicate SameElsewhere(s: State, t: State, id: Identity) {
    && t.work.reservations - {id} == s.work.reservations - {id}
    && t.work.queued - {id} == s.work.queued - {id}
    && t.leases.claims - {id} == s.leases.claims - {id}
    && t.kept.terminals - {id} == s.kept.terminals - {id}
  }

  lemma SamePhase(s: State, t: State, id: Identity, i: Identity)
    requires SameElsewhere(s, t, id) && i != id
    ensures i in Abstract(t) <==> i in Abstract(s)
    ensures i in Abstract(s) ==> Abstract(t)[i] == Abstract(s)[i]
  {
    AgreeElsewhere(t.work.reservations, s.work.reservations, id);
    AgreeElsewhere(t.work.queued, s.work.queued, id);
    AgreeElsewhere(t.leases.claims, s.leases.claims, id);
    AgreeElsewhere(t.kept.terminals, s.kept.terminals, id);
  }

  lemma MapsAgree<K(!new), V>(a: map<K, V>, b: map<K, V>, k: K)
    requires forall i | i != k :: (i in b <==> i in a) && (i in a ==> b[i] == a[i])
    ensures k in b ==> b == a[k := b[k]]
    ensures k !in b ==> b == a - {k}
  {
  }

  /** Phases are unchanged except at `id`. */
  lemma OnlyThisPhase(s: State, t: State, id: Identity)
    requires SameElsewhere(s, t, id)
    ensures id in Abstract(t) ==> Abstract(t) == Abstract(s)[id := Abstract(t)[id]]
    ensures id !in Abstract(t) ==> Abstract(t) == Abstract(s) - {id}
  {
    hide SameElsewhere, Abstract;
    forall i | i != id
      ensures (i in Abstract(t) <==> i in Abstract(s)) && (i in Abstract(s) ==> Abstract(t)[i] == Abstract(s)[i])
    {
      SamePhase(s, t, id, i);
    }
    MapsAgree(Abstract(s), Abstract(t), id);
  }

  lemma PutAbstract(s: State, t: State, id: Identity)
    requires Held(t.work, id) || id in t.kept.terminals
    requires SameElsewhere(s, t, id)
    ensures Abstract(t) == Abstract(s)[id := PhaseOf(t, id)]
  {
    hide SameElsewhere;
    OnlyThisPhase(s, t, id);
  }

  lemma ConclusionSplit(c: Config, s: State, e: Event)
    requires Enabled(c, s, e) && Concludes(e)
    ensures var t := Apply(c, s, e);
            && SameElsewhere(s, t, e.id)
            && e.id !in t.work.reservations && e.id !in t.work.queued && e.id in t.kept.terminals
            && t.kept.terminals[e.id].retrieval == (if e.Accept? then ResponseReady else CompletedUnavailable)
            && t.kept.terminals[e.id].verdict == (if e.Accept? then Completed else if e.Expire? then Expired else Cancelled)
  {
    hide CanTerminalize, ResponseRoom, LiveOwnedClaim, TombstoneClaim;
  }

  lemma ConclusionRefines(c: Config, s: State, e: Event)
    requires WorkInv(s.work) && ClaimInv(s.leases, s.work, s.fleet) && OverInv(s.work, s.kept)
    requires Enabled(c, s, e) && Concludes(e)
    ensures Allowed(Abstract(s), e, Abstract(Apply(c, s, e)))
  {
    hide CanTerminalize, ResponseRoom, Terminalize, SameElsewhere;
    var t := Apply(c, s, e);
    ConclusionSplit(c, s, e);
    PutAbstract(s, t, e.id);
    assert Held(s.work, e.id) && e.id !in s.kept.terminals;
  }

  lemma ReserveRefines(c: Config, s: State, e: Event)
    requires e.Reserve? && Enabled(c, s, e)
    ensures Allowed(Abstract(s), e, Abstract(Apply(c, s, e)))
  {
    hide Selected, Evicts, LifecycleRoom;
    PutAbstract(s, Apply(c, s, e), e.id);
  }

  lemma EnqueueRefines(c: Config, s: State, e: Event)
    requires e.Enqueue? && Enabled(c, s, e) && e.id !in s.leases.claims
    ensures Allowed(Abstract(s), e, Abstract(Apply(c, s, e)))
  {
    hide QueueRoom;
    PutAbstract(s, Apply(c, s, e), e.id);
  }

  lemma AckResponseRefines(c: Config, s: State, e: Event)
    requires e.AckResponse? && Enabled(c, s, e) && !Held(s.work, e.id)
    requires s.kept.terminals[e.id].verdict == Completed
    ensures Allowed(Abstract(s), e, Abstract(Apply(c, s, e)))
  {
    PutAbstract(s, Apply(c, s, e), e.id);
  }

  lemma ClaimPhases(s: State, t: State, id: Identity)
    requires WorkInv(s.work) && ClaimInv(s.leases, s.work, s.fleet)
    requires t.work == s.work && t.kept == s.kept && SameElsewhere(s, t, id)
    requires id in s.work.queued && id in t.leases.claims
    requires t.leases.claims[id].generation == s.leases.nextGeneration + 1
    ensures var a, b := Abstract(s), Abstract(t);
            var g := t.leases.claims[id].generation;
            && id in a && (a[id].Queued? || a[id].Claimed?) && a[id].deadline == s.work.queued[id].deadline
            && b == a[id := Claimed(a[id].node, a[id].deadline, g)]
            && forall i | i in a && a[i].Claimed? :: a[i].generation < g
  {
    PutAbstract(s, t, id);
  }

  lemma ClaimRefines(c: Config, s: State, e: Event)
    requires WorkInv(s.work) && ClaimInv(s.leases, s.work, s.fleet) && e.TakeClaim? && Enabled(c, s, e)
    ensures Allowed(Abstract(s), e, Abstract(Apply(c, s, e)))
  {
    hide ClaimRoom, SameElsewhere, Abstract, WorkInv, ClaimInv;
    ClaimElsewhere(c, s, e);
    ClaimPhases(s, Apply(c, s, e), e.id);
  }

  lemma ClaimElsewhere(c: Config, s: State, e: Event)
    requires e.TakeClaim? && Enabled(c, s, e)
    ensures SameElsewhere(s, Apply(c, s, e), e.id)
  {
  }

  lemma RenewalRefines(c: Config, s: State, e: Event)
    requires WorkInv(s.work) && ClaimInv(s.leases, s.work, s.fleet) && e.RenewClaim? && Enabled(c, s, e)
    ensures Allowed(Abstract(s), e, Abstract(Apply(c, s, e)))
  {
    SameAbstract(s, Apply(c, s, e));
  }

  lemma DropElsewhere(c: Config, s: State, e: Event)
    requires e.DropReservation? && Enabled(c, s, e)
    ensures var t := Apply(c, s, e);
            SameElsewhere(s, t, e.id) && e.id !in t.work.reservations && e.id !in t.work.queued && t.kept == s.kept
  {
  }

  lemma DropRefines(c: Config, s: State, e: Event)
    requires e.DropReservation? && Enabled(c, s, e) && e.id !in s.kept.terminals
    ensures Allowed(Abstract(s), e, Abstract(Apply(c, s, e)))
  {
    hide SameElsewhere, Apply;
    DropElsewhere(c, s, e);
    OnlyThisPhase(s, Apply(c, s, e), e.id);
  }

  lemma ReapPhases(s: State, t: State, now: Time, id: Identity)
    requires t.work == s.work && t.leases == s.leases && t.kept == ReapKept(s.kept, now)
    requires KeptInv(s.kept, s.leases.nextGeneration)
    ensures id in Abstract(s) && Live(Abstract(s)[id]) ==> id in Abstract(t)
    ensures id in Abstract(t) ==>
              && id in Abstract(s)
              && (|| Abstract(t)[id] == Abstract(s)[id]
                  || (Abstract(s)[id] == Over(Completed, ResponseReady)
                      && Abstract(t)[id] == Over(Completed, RetrievalExpired)))
  {
  }

  lemma ReapRefines(c: Config, s: State, e: Event)
    requires KeptInv(s.kept, s.leases.nextGeneration) && e.Reap?
    ensures Allowed(Abstract(s), e, Abstract(Apply(c, s, e)))
  {
    hide Abstract, ReapKept, KeptInv;
    forall id: Identity {
      ReapPhases(s, Apply(c, s, e), e.now, id);
    }
  }

  /** What the refinement needs to know about the identity an event is about. */
  lemma AboutOneIdentity(c: Config, s: State, id: Identity)
    requires Consistent(s)
    ensures id in s.work.reservations ==> id !in s.leases.claims
    ensures Held(s.work, id) ==> id !in s.kept.terminals
    ensures id in s.kept.responses ==> id in s.kept.terminals && s.kept.terminals[id].verdict == Completed
  {
  }

  lemma InvParts(c: Config, s: State)
    requires Consistent(s)
    ensures WorkInv(s.work) && ClaimInv(s.leases, s.work, s.fleet)
    ensures KeptInv(s.kept, s.leases.nextGeneration) && OverInv(s.work, s.kept)
  {
  }

  lemma OtherRefines(c: Config, s: State, e: Event)
    requires Enabled(c, s, e)
    requires e.Defer? || e.StartTransition? || e.CompleteTransition? || e.Register? || e.Renew?
             || e.SetScheduler? || e.AckControl?
    ensures Allowed(Abstract(s), e, Abstract(Apply(c, s, e)))
  {
    hide Abstract;
    SameAbstract(s, Apply(c, s, e));
  }

  /** Every event of the many-map store is an allowed step of the one-map specification. */
  lemma Refinement(c: Config, s: State, e: Event)
    requires Consistent(s) && Enabled(c, s, e)
    ensures Allowed(Abstract(s), e, Abstract(Apply(c, s, e)))
  {
    hide Consistent, Bounded;
    hide Allowed, Abstract, WorkInv, ClaimInv, KeptInv, OverInv;
    InvParts(c, s);
    if Concludes(e) {
      ConclusionRefines(c, s, e);
    } else if e.Reserve? {
      ReserveRefines(c, s, e);
    } else if e.Enqueue? {
      AboutOneIdentity(c, s, e.id);
      EnqueueRefines(c, s, e);
    } else if e.AckResponse? {
      AboutOneIdentity(c, s, e.id);
      AckResponseRefines(c, s, e);
    } else if e.TakeClaim? {
      ClaimRefines(c, s, e);
    } else if e.RenewClaim? {
      RenewalRefines(c, s, e);
    } else if e.DropReservation? {
      AboutOneIdentity(c, s, e.id);
      DropRefines(c, s, e);
    } else if e.Reap? {
      ReapRefines(c, s, e);
    } else {
      OtherRefines(c, s, e);
    }
  }

  lemma RunRefines(c: Config, r: Run, i: nat)
    requires IsRun(c, r) && i < |r.log|
    ensures Allowed(Abstract(r.states[i]), r.log[i], Abstract(r.states[i + 1]))
  {
    hide Consistent, Bounded, Enabled, Apply, Allowed, Abstract;
    RunInv(c, r, i);
    assert StepAt(c, r, i);
    Refinement(c, r.states[i], r.log[i]);
  }
}
