/**
  For each event, the guard and the change in the form in which the store's methods establish them,
  and what the invariant says at the places where the methods rely on it.
*/
module StoreEvents {
  import opened RelayTypes
  import opened StoreState
  import opened StoreInvariant
  import opened StoreRuns
  import opened StoreCalls
  import opened StoreDrain
  import opened StoreHousekeeping

  lemma MinusTwice<K, V>(m: map<K, V>, k: K)
    ensures m - {k} - {k} == m - {k}
    ensures k !in m ==> m - {k} == m
  {
  }

  lemma DiscardTwice(work: map<NodeId, set<Identity>>, n: NodeId, id: Identity)
    ensures Discard(Discard(work, n, id), n, id) == Discard(work, n, id)
  {
    var once := Discard(work, n, id);
    if n in once {
      assert once[n] - {id} == once[n];
    }
  }

  // ----- Events, one case at a time -----

  /** Reaping one stored response. */
  function ReapOne(k: Kept, id: Identity, now: Time): Kept
    requires id in k.responses
  {
    if k.responses[id].replayExpiry > now then k
    else k.(responses := k.responses - {id},
            terminals := if id in k.terminals then k.terminals[id := ReapTerminal(k, id, now)] else k.terminals)
  }

  /** Reaping the stored responses of `ids`, in any order. */
  function ReapSome(k: Kept, ids: set<Identity>, now: Time): Kept {
    k.(responses := map i | i in k.responses && (i !in ids || k.responses[i].replayExpiry > now) :: k.responses[i],
       terminals := map i | i in k.terminals :: if i in ids then ReapTerminal(k, i, now) else k.terminals[i])
  }

  lemma ReapNone(k: Kept, now: Time)
    ensures ReapSome(k, {}, now) == k
  {
  }

  lemma ReapNext(k: Kept, ids: set<Identity>, id: Identity, now: Time)
    requires id !in ids && id in k.responses
    ensures id in ReapSome(k, ids, now).responses
    ensures ReapOne(ReapSome(k, ids, now), id, now) == ReapSome(k, ids + {id}, now)
  {
  }

  lemma ReapAll(k: Kept, now: Time)
    ensures var r := ReapSome(k, k.responses.Keys, now);
            ReapKept(k, now) == Kept(r.responses,
                                     map i | i in r.terminals && !(r.terminals[i].expiry <= now) :: r.terminals[i],
                                     map i | i in r.controls && !(r.controls[i].expiry <= now) :: r.controls[i])
  {
  }

  lemma ReapStep(c: Config, s: State, now: Time)
    ensures Enabled(c, s, StoreState.Reap(now))
    ensures Apply(c, s, StoreState.Reap(now)) == s.(kept := ReapKept(s.kept, now), fleet := ReapFleet(s.fleet, now))
  {
  }

  lemma TeardownEvent(c: Config, s: State, n: NodeId, id: Identity, now: Time)
    requires n in s.fleet.pending && Held(s.work, id) && NodeOf(s.work, id) == n
    ensures CanTeardown(c, s, id, now) <==> CanTerminalize(c, s, id, Cancelled, true, now)
    ensures CanTeardown(c, s, id, now) ==>
              && Enabled(c, s, Teardown(id, n, now))
              && Apply(c, s, Teardown(id, n, now)) == TeardownOne(c, s, id, now)
    ensures TeardownOne(c, s, id, now) == Terminalize(c, s, id, Cancelled, ServerUnregistered, true, now)
  {
    hide CanTerminalize, Terminalize;
  }

  /** Live work is either reserved or queued, and only queued work is claimed. */
  lemma HeldOnce(c: Config, s: State, id: Identity)
    requires Consistent(s)
    ensures !(id in s.work.reservations && id in s.work.queued)
    ensures id in s.leases.claims ==> id in s.work.queued
    ensures Held(s.work, id) ==> id !in s.kept.terminals
  {
    hide QueueInv, WorkBounds, FleetInv, FleetBounds, HousedInv, KeptInv, KeptBounds, CursorInv;
  }

  lemma StartStep(c: Config, s: State, n: NodeId, cause: Cause, now: Time)
    requires n in s.fleet.nodes && n !in s.fleet.pending && TransitionRoom(c, s.fleet, n)
    requires cause == LeaseExpired ==> s.fleet.nodes[n].leaseExpiry <= now
    ensures Enabled(c, s, StartTransition(n, cause, now))
    ensures Apply(c, s, StartTransition(n, cause, now)) == Started(c, s, n, cause, now)
  {
    hide TransitionRoom, StartFleet;
  }

  lemma FenceOfPending(c: Config, s: State, n: NodeId)
    requires Consistent(s) && n in s.fleet.pending
    ensures FenceKey(n, s.fleet.pending[n].credential) in s.fleet.fences
  {
    hide FleetInv;
    PendingHasFence(s.fleet, n);
  }

  lemma CompleteStep(c: Config, s: State, n: NodeId, now: Time)
    requires n in s.fleet.pending && FenceKey(n, s.fleet.pending[n].credential) in s.fleet.fences
    ensures WorkOf(s.work, n) == {} ==>
              && Enabled(c, s, CompleteTransition(n, now))
              && Apply(c, s, CompleteTransition(n, now)) == Finished(c, s, n, now)
    ensures WorkOf(s.work, n) != {} ==> Finished(c, s, n, now) == s
  {
    hide CompleteFleet;
  }

  lemma DueEvents(c: Config, s: State, id: Identity, now: Time)
    requires Held(s.work, id) && DeadlineOf(s.work, id) <= now
    ensures if CanTerminalize(c, s, id, Expired, false, now) then
              && Enabled(c, s, Expire(id, now))
              && Apply(c, s, Expire(id, now)) == Terminalize(c, s, id, Expired, DeadlineExpired, false, now)
            else
              && Enabled(c, s, Defer(id, now))
              && Apply(c, s, Defer(id, now)) == s.(deferred := s.deferred + {id})
  {
    hide CanTerminalize, Terminalize;
  }

  lemma DropEvent(c: Config, s: State, id: Identity, now: Time)
    requires Consistent(s) && id in s.work.reservations && s.work.reservations[id].expiry <= now && id !in s.deferred
    ensures Enabled(c, s, DropReservation(id, now))
    ensures Apply(c, s, DropReservation(id, now)) == s.(work := RemoveWork(s.work, id))
    ensures id !in s.work.queued && id !in s.work.queuedTokens
  {
    hide QueueInv, WorkBounds, ClaimInv, FleetInv, FleetBounds, HousedInv, OverInv, KeptInv, KeptBounds, CursorInv,
         RemoveWork;
  }

  lemma RenewEvent(c: Config, s: State, n: NodeId, caps: Capabilities, now: Time)
    requires n in s.fleet.nodes
    ensures Enabled(c, s, Renew(n, caps, now))
    ensures Apply(c, s, Renew(n, caps, now))
              == s.(fleet := s.fleet.(nodes := s.fleet.nodes[n := s.fleet.nodes[n].(capabilities := caps, leaseExpiry := now + c.leaseTtl)]))
  {
  }

  lemma SchedulerEvent(c: Config, s: State, n: NodeId, state: SchedulerState, now: Time)
    requires n in s.fleet.nodes
    ensures Enabled(c, s, SetScheduler(n, state, now))
    ensures Apply(c, s, SetScheduler(n, state, now))
              == s.(fleet := s.fleet.(scheduler := s.fleet.scheduler[n := state]))
  {
  }

  lemma RegisterEvent(c: Config, s: State, n: NodeId, caps: Capabilities, owner: Digest, now: Time)
    requires n !in s.fleet.nodes && n !in s.fleet.pending && |s.fleet.nodes| < c.maxNodes
    requires FenceKey(n, owner) !in s.fleet.fences
    ensures Enabled(c, s, Register(n, caps, owner, now))
    ensures Apply(c, s, Register(n, caps, owner, now)) == s.(fleet := RegisterFleet(c, s.fleet, n, caps, owner, now))
  {
    hide RegisterFleet;
  }

  lemma EnqueueEvent(c: Config, s: State, id: Identity, cancel: Digest, envelope: Envelope, now: Time)
    requires Enabled(c, s, Enqueue(id, cancel, envelope, now))
    ensures id in s.work.reservations
    ensures Apply(c, s, Enqueue(id, cancel, envelope, now)) == s.(work := EnqueueWork(s.work, id, cancel, envelope, now))
  {
    hide QueueRoom, EnqueueWork;
  }

  lemma ClaimEvent(c: Config, s: State, id: Identity, consumer: Digest, now: Time)
    requires Enabled(c, s, TakeClaim(id, consumer, now))
    ensures id in s.work.queued && s.work.queued[id].node in s.fleet.nodes
    ensures var q := s.work.queued[id];
            var k := ClaimOn(c, q, s.fleet.nodes[q.node].credential, consumer, s.leases.nextGeneration + 1, now);
            Apply(c, s, TakeClaim(id, consumer, now))
              == s.(leases := Leases(s.leases.claims[id := k], s.leases.nextGeneration + 1))
  {
    hide ClaimRoom, ClaimOn;
  }

  lemma FirstIsQueuedOn(c: Config, s: State, n: NodeId, now: Time)
    requires Consistent(s)
    ensures var first := FirstClaimable(QueueOf(s.work, n), s.leases.claims, now);
            first.Some? ==> first.value.id in s.work.queued && s.work.queued[first.value.id] == first.value
                            && first.value.node == n
  {
    hide WorkInv, QueueInv, FirstClaimable;
    InvSaysQueue(c, s);
    FirstIsEarliestOn(s, n, now);
  }

  lemma RenewClaimEvent(c: Config, s: State, id: Identity, generation: nat, now: Time)
    requires Enabled(c, s, RenewClaim(id, generation, now))
    ensures id in s.leases.claims
    ensures var k := s.leases.claims[id];
            Apply(c, s, RenewClaim(id, generation, now))
              == s.(leases := s.leases.(claims := s.leases.claims[id := k.(lease := Min(now + c.claimTtl, k.deadline))]))
  {
  }

  lemma AckControlEvent(c: Config, s: State, id: Identity, now: Time)
    requires id in s.kept.controls
    ensures Enabled(c, s, AckControl(id, now))
    ensures Apply(c, s, AckControl(id, now))
              == s.(kept := s.kept.(controls := s.kept.controls[id := s.kept.controls[id].(acknowledged := true)]))
  {
  }

  lemma AckResponseEvent(c: Config, s: State, id: Identity, now: Time)
    requires id in s.kept.responses && id in s.kept.terminals && s.kept.terminals[id].retrieval == ResponseReady
    ensures Enabled(c, s, AckResponse(id, now))
    ensures Apply(c, s, AckResponse(id, now))
              == s.(kept := s.kept.(responses := s.kept.responses - {id},
                                    terminals := s.kept.terminals[id := s.kept.terminals[id].(retrieval := Acknowledged)]))
  {
  }

  /** The records kept once the claim on `id` has been answered. */
  function KeptAnswer(c: Config, s: State, id: Identity, envelope: Envelope, now: Time): Kept
    requires id in s.leases.claims && id in s.work.queuedTokens && id in s.work.cancelTokens
  {
    var claim := s.leases.claims[id];
    s.kept.(responses := s.kept.responses[id := ResponseTo(c, claim, envelope, now)],
            terminals := s.kept.terminals[id := CompletedBy(c, s.work, id, claim, envelope, now)])
  }

  lemma AcceptEvent(c: Config, s: State, id: Identity, generation: nat, envelope: Envelope, now: Time)
    requires Enabled(c, s, Accept(id, generation, envelope, now))
    ensures id in s.leases.claims && id in s.work.queued && id in s.work.queuedTokens && id in s.work.cancelTokens
    ensures Apply(c, s, Accept(id, generation, envelope, now))
              == s.(work := RemoveWork(s.work, id),
                    leases := s.leases.(claims := s.leases.claims - {id}),
                    kept := KeptAnswer(c, s, id, envelope, now))
  {
    hide RemoveWork, ResponseTo, CompletedBy, ResponseRoom;
  }

  lemma ConcludeEvents(c: Config, s: State, id: Identity, now: Time)
    requires Held(s.work, id)
    ensures CanTerminalize(c, s, id, Cancelled, false, now) ==>
              && Enabled(c, s, Cancel(id, now))
              && Apply(c, s, Cancel(id, now)) == Terminalize(c, s, id, Cancelled, RequesterCancelled, false, now)
    ensures CanTerminalize(c, s, id, Expired, false, now) && DeadlineOf(s.work, id) <= now ==>
              && Enabled(c, s, Expire(id, now))
              && Apply(c, s, Expire(id, now)) == Terminalize(c, s, id, Expired, DeadlineExpired, false, now)
  {
    hide CanTerminalize, Terminalize;
  }

  lemma ReserveEvent(c: Config, s: State, id: Identity, r: Reservation, cancel: Option<Digest>,
                     victim: Option<Fingerprint>, now: Time)
    requires Enabled(c, s, Reserve(id, r, cancel, victim, now))
    ensures Apply(c, s, Reserve(id, r, cancel, victim, now))
              == s.(work := ReserveWork(s.work, id, r, cancel),
                    fairness := AdvanceCursor(s.fairness, r.fingerprint, r.node, victim),
                    arrivals := Arrive(s.arrivals, id))
  {
    hide ReserveWork, AdvanceCursor, LifecycleRoom, Selected, Evicts;
  }

  lemma FleetKeys(f: Fleet)
    requires FleetInv(f)
    ensures f.scheduler.Keys == f.nodes.Keys && f.order.Keys == f.nodes.Keys
  {
  }

  lemma NothingEligible(c: Config, s: State, fp: Fingerprint, eligible: set<NodeId>)
    requires eligible == (set n | n in s.fleet.nodes && Eligible(c, s, fp, n))
    ensures eligible == {} ==> forall n | n in s.fleet.nodes :: !Eligible(c, s, fp, n)
  {
    forall n | n in s.fleet.nodes && Eligible(c, s, fp, n)
      ensures n in eligible
    {
    }
  }

  lemma TiedIsRegistered(c: Config, s: State, fp: Fingerprint)
    ensures Tied(c, s, fp) <= s.fleet.nodes.Keys
  {
  }

  /** Taking the smallest tier first and the smallest load in it leaves exactly the tied nodes. */
  lemma TiedIsLeastOfLeast(c: Config, s: State, fp: Fingerprint, tiers: map<NodeId, nat>, loads: map<NodeId, nat>,
                           smallest: set<NodeId>, tied: set<NodeId>)
    requires tiers.Keys == loads.Keys == set n | n in s.fleet.nodes && Eligible(c, s, fp, n)
    requires forall n | n in tiers ::
               && n in s.fleet.nodes && n in s.fleet.scheduler
               && tiers[n] == TierOf(s, n) && loads[n] == Load(s, n)
    requires smallest == (set n | n in tiers && forall m | m in tiers :: tiers[n] <= tiers[m])
    requires tied == (set n | n in smallest && forall m | m in smallest :: loads[n] <= loads[m])
    requires smallest != {}
    ensures tied == Tied(c, s, fp)
  {
    hide Eligible, TierOf, Load;
    var some :| some in smallest;
    forall n | n in tied
      ensures n in Tied(c, s, fp)
    {
      forall m | m in s.fleet.nodes && Eligible(c, s, fp, m)
        ensures NoWorse(s, n, m)
      {
        assert m in tiers;
        if m !in smallest {
          var k :| k in tiers && tiers[m] > tiers[k];
        }
      }
    }
    forall n | n in Tied(c, s, fp)
      ensures n in tied
    {
      assert n in tiers;
      assert forall m | m in tiers :: NoWorse(s, n, m);
      assert n in smallest;
    }
  }

  lemma InvSaysQueue(c: Config, s: State)
    requires Consistent(s)
    ensures WorkInv(s.work) && QueueInv(s.work)
  {
    hide WorkInv, QueueInv;
  }
}
