/**
  The in-memory relay state store: the dictionaries of the original as mutable fields, one method
  per public operation, each proved to perform exactly the events its decision function names.

  The ghost field `run` is the history of events; `Valid` says that the fields are what that
  history leaves, so every property of runs holds of every store.
*/
module RelayStateStore {
  import opened RelayTypes
  import opened StoreState
  import opened StoreInvariant
  import opened StoreRuns
  import opened StoreCalls
  import opened StoreDrain
  import opened StoreClock
  import opened StoreHousekeeping
  import opened StoreEvents
  import opened StoreReports
  import opened StoreDeadlines
  import opened StoreAnswers
  import opened StoreOffers

  class InMemoryRelayStateStore {
    const config: Config

    var records: map<NodeId, Registration>
    var schedulerStates: map<NodeId, SchedulerState>
    var registrationOrder: map<NodeId, nat>
    var nextRegistrationOrder: nat
    var reservations: map<Identity, Reservation>
    var queued: map<Identity, QueuedRequest>
    var queuedTokenDigests: map<Identity, Digest>
    var cancellationTokenDigests: map<Identity, Digest>
    var nodeQueues: map<NodeId, seq<QueuedRequest>>
    var claims: map<Identity, Claim>
    var responses: map<Identity, Response>
    var terminals: map<Identity, Terminal>
    var controlTombstones: map<Identity, ControlTombstone>
    var nodeTombstones: map<NodeId, NodeTombstone>
    var pendingNodeTransitions: map<NodeId, PendingTransition>
    var formerNodeAuthorities: map<FenceKey, FormerAuthority>
    var nodeWorkIdentities: map<NodeId, set<Identity>>
    var deferredDeadlineIdentities: set<Identity>
    var nextClaimGeneration: nat
    var fairnessCursors: map<Fingerprint, Cursor>
    var fairnessActivity: nat
    var nextQueueSequence: nat

    /** Stands for the insertion order of the dictionaries above. */
    var arrivalPlaces: map<Identity, nat>
    var nextArrival: nat

    ghost var run: Run

    ghost function WorkView(): Work
      reads `reservations, `queued, `queuedTokenDigests, `cancellationTokenDigests, `nodeQueues
      reads `nodeWorkIdentities, `nextQueueSequence
    {
      Work(reservations, queued, queuedTokenDigests, cancellationTokenDigests, nodeQueues, nodeWorkIdentities,
           nextQueueSequence)
    }

    ghost function KeptView(): Kept
      reads `responses, `terminals, `controlTombstones
    {
      Kept(responses, terminals, controlTombstones)
    }

    ghost function FleetView(): Fleet
      reads `records, `schedulerStates, `registrationOrder, `nextRegistrationOrder, `pendingNodeTransitions
      reads `formerNodeAuthorities, `nodeTombstones
    {
      Fleet(records, schedulerStates, registrationOrder, nextRegistrationOrder, pendingNodeTransitions,
            formerNodeAuthorities, nodeTombstones)
    }

    ghost function LeasesView(): Leases
      reads `claims, `nextClaimGeneration
    {
      Leases(claims, nextClaimGeneration)
    }

    ghost function ArrivalsView(): Arrivals
      reads `arrivalPlaces, `nextArrival
    {
      Arrivals(arrivalPlaces, nextArrival)
    }

    ghost function FairnessView(): Fairness
      reads `fairnessCursors, `fairnessActivity
    {
      Fairness(fairnessCursors, fairnessActivity)
    }

    ghost function View(): State
      reads `reservations, `queued, `queuedTokenDigests, `cancellationTokenDigests, `nodeQueues
      reads `nodeWorkIdentities, `nextQueueSequence, `claims, `nextClaimGeneration
      reads `responses, `terminals, `controlTombstones
      reads `records, `schedulerStates, `registrationOrder, `nextRegistrationOrder, `pendingNodeTransitions
      reads `formerNodeAuthorities, `nodeTombstones, `fairnessCursors, `fairnessActivity
      reads `deferredDeadlineIdentities, `arrivalPlaces, `nextArrival
    {
      State(WorkView(), LeasesView(), KeptView(), FleetView(), FairnessView(), deferredDeadlineIdentities, ArrivalsView())
    }

    ghost predicate Valid()
      reads this
    {
      IsRun(config, run) && Last(run) == View()
    }

    constructor (config: Config)
      requires config.Valid()
      ensures Valid() && this.config == config && run.log == []
      ensures View() == Init()
    {
      this.config := config;
      records, schedulerStates, registrationOrder, nextRegistrationOrder := map[], map[], map[], 0;
      reservations, queued, queuedTokenDigests, cancellationTokenDigests := map[], map[], map[], map[];
      nodeQueues, nodeWorkIdentities, nextQueueSequence := map[], map[], 0;
      claims, nextClaimGeneration := map[], 0;
      responses, terminals, controlTombstones := map[], map[], map[];
      nodeTombstones, pendingNodeTransitions, formerNodeAuthorities := map[], map[], map[];
      deferredDeadlineIdentities, fairnessCursors, fairnessActivity := {}, map[], 0;
      arrivalPlaces, nextArrival := map[], 0;
      run := Run([Init()], []);
    }

    /** Enter into the history an event that has just been performed on the fields. */
    ghost method Record(e: Event)
      requires IsRun(config, run) && Enabled(config, Last(run), e)
      requires View() == Apply(config, Last(run), e)
      modifies `run
      ensures Valid() && Continues(old(run), run, [e]) && View() == old(View())
    {
      hide View, Enabled, Apply;
      RunExtends(config, run, e);
      run := Run(run.states + [View()], run.log + [e]);
    }

    /** Record a housekeeping event performed on the state `s`. */
    ghost method RecordKept(e: Event, s: State, now: Time)
      requires IsRun(config, run) && Last(run) == s && Enabled(config, s, e) && View() == Apply(config, s, e)
      requires Reaped(s, now) && Housekeeping(e, now)
      modifies `run
      ensures Valid() && Housekept(old(run), run, now) && View() == old(View()) && Reaped(View(), now)
      ensures Continues(old(run), run, [e])
      ensures OverdueDeferred(config, s, now) ==> OverdueDeferred(config, View(), now)
    {
      hide IsRun, View, Enabled, Apply, Reaped, OverdueDeferred, Housekeeping;
      ghost var at := run;
      Record(e);
      EventsHousekept(at, run, [e], now);
      HousekeptKeeps(config, at, run, now);
    }

    lemma ValidInv()
      requires Valid()
      ensures Inv(config, View()) && config.Valid()
    {
      hide Consistent, Bounded;
      RunInv(config, run, |run.log|);
    }

    /** What holds of runs whose clock never runs backwards holds of this store. */
    lemma ClockReaches(now: Time)
      requires Valid() && Monotone(run) && NotBefore(run, now)
      ensures ClockInv(config, View(), now)
    {
      hide ClockInv, View;
      ClockHolds(config, run, |run.log|, now);
    }

    lemma WorkFields()
      ensures View().work == WorkView() && View().arrivals == ArrivalsView()
      ensures WorkView().reservations == reservations && WorkView().queued == queued
      ensures WorkView().cancelTokens == cancellationTokenDigests && WorkView().queuedTokens == queuedTokenDigests
      ensures WorkView().nodeQueues == nodeQueues && WorkView().nodeWork == nodeWorkIdentities
      ensures WorkView().nextSequence == nextQueueSequence
    {
    }

    lemma KeptFields()
      ensures View().kept == KeptView()
      ensures KeptView().responses == responses && KeptView().terminals == terminals
      ensures KeptView().controls == controlTombstones
    {
    }

    lemma LeaseFields()
      ensures View().leases == LeasesView()
      ensures LeasesView().claims == claims && LeasesView().nextGeneration == nextClaimGeneration
    {
    }

    lemma FairnessFields()
      ensures View().fairness == FairnessView()
      ensures FairnessView().cursors == fairnessCursors && FairnessView().activity == fairnessActivity
    {
    }

    lemma FleetFields()
      ensures View().fleet == FleetView()
      ensures FleetView().nodes == records && FleetView().scheduler == schedulerStates
      ensures FleetView().order == registrationOrder && FleetView().nextOrder == nextRegistrationOrder
      ensures FleetView().pending == pendingNodeTransitions && FleetView().fences == formerNodeAuthorities
      ensures FleetView().nodeTombstones == nodeTombstones
    {
    }

    // ----- Retention -----

    static method DropWhere<K(!new), V>(m: map<K, V>, expired: (K, V) -> bool) returns (kept: map<K, V>)
      ensures kept == map k | k in m && !expired(k, m[k]) :: m[k]
    {
      kept := m;
      var todo := m.Keys;
      while todo != {}
        invariant todo <= m.Keys
        invariant kept == map k | k in m && (k in todo || !expired(k, m[k])) :: m[k]
        decreases |todo|
      {
        var k :| k in todo;
        todo := todo - {k};
        if expired(k, m[k]) {
          kept := kept - {k};
        }
      }
    }

    method ReapResponse(id: Identity, now: Time)
      requires id in responses
      modifies `responses, `terminals
      ensures KeptView() == ReapOne(old(KeptView()), id, now)
    {
      if responses[id].replayExpiry <= now {
        responses := responses - {id};
        if id in terminals && terminals[id].retrieval == ResponseReady {
          terminals := terminals[id := terminals[id].(retrieval := RetrievalExpired)];
        }
      }
    }

    /** Drop responses past their replay time, closing the retrieval of their terminal records. */
    method ReapResponses(now: Time)
      modifies `responses, `terminals
      ensures KeptView() == ReapSome(old(KeptView()), old(responses).Keys, now)
    {
      hide ReapOne, ReapSome, KeptView;
      KeptFields();
      ghost var k, done := KeptView(), {};
      ReapNone(k, now);
      var all := responses;
      var todo := all.Keys;
      while todo != {}
        invariant todo !! done && todo + done == all.Keys
        invariant KeptView() == ReapSome(k, done, now)
        decreases |todo|
      {
        var id :| id in todo;
        KeptFields();
        ReapNext(k, done, id, now);
        ReapResponse(id, now);
        todo, done := todo - {id}, done + {id};
      }
      assert done == all.Keys;
    }

    method ReapKeptRecords(now: Time)
      modifies `responses, `terminals, `controlTombstones
      ensures KeptView() == ReapKept(old(KeptView()), now)
    {
      hide ReapSome, ReapKept;
      ReapAll(KeptView(), now);
      ReapResponses(now);
      terminals := DropWhere(terminals, (_, t: Terminal) => t.expiry <= now);
      controlTombstones := DropWhere(controlTombstones, (_, t: ControlTombstone) => t.expiry <= now);
    }

    method ReapNodeRecords(now: Time)
      modifies `nodeTombstones, `formerNodeAuthorities
      ensures FleetView() == ReapFleet(old(FleetView()), now)
    {
      nodeTombstones := DropWhere(nodeTombstones, (_, t: NodeTombstone) => t.expiry <= now);
      var pending := pendingNodeTransitions;
      formerNodeAuthorities := DropWhere(formerNodeAuthorities,
        (k: FenceKey, a: FormerAuthority) => a.expiry <= now && !FenceReserved(pending, k));
    }

    method ReapMaps(now: Time)
      modifies this
      ensures View() == old(View()).(kept := ReapKept(old(KeptView()), now), fleet := ReapFleet(old(FleetView()), now))
      ensures run == old(run)
    {
      hide ReapKept, ReapFleet, WorkView, KeptView, FleetView;
      ReapKeptRecords(now);
      ReapNodeRecords(now);
    }

    method ReapRetained(now: Time)
      requires Valid()
      modifies this
      ensures Valid() && Continues(old(run), run, [StoreState.Reap(now)])
      ensures View() == Apply(config, old(View()), StoreState.Reap(now))
      ensures Reaped(View(), now) && Housekept(old(run), run, now)
      ensures View().work == old(View()).work && View().fleet.nodes == old(View()).fleet.nodes
      ensures View().deferred == old(View()).deferred && View().fleet.pending == old(View()).fleet.pending
      ensures View() == AfterReap(config, old(View()), now) && Quiet(old(run), run)
    {
      ReapIsAfterReap(config, View(), now);
      ReapStep(config, View(), now);
      ReapReaps(config, View(), now);
      assert View().kept == KeptView() && View().fleet == FleetView();
      hide IsRun, Reaped, ReapKept, ReapFleet, Enabled, Apply, View, KeptView, FleetView, AfterReap, Quiet;
      ReapMaps(now);
      Record(StoreState.Reap(now));
      EventsQuiet(old(run), run, [StoreState.Reap(now)]);
    }

    // ----- Terminalization -----

    method DiscardNodeWorkIdentity(n: NodeId, id: Identity)
      modifies `nodeWorkIdentities
      ensures nodeWorkIdentities == Discard(old(nodeWorkIdentities), n, id)
    {
      if n in nodeWorkIdentities {
        var rest := nodeWorkIdentities[n] - {id};
        if rest == {} {
          nodeWorkIdentities := nodeWorkIdentities - {n};
        } else {
          nodeWorkIdentities := nodeWorkIdentities[n := rest];
        }
      }
    }

    static method RemainingQueue(queue: seq<QueuedRequest>, x: QueuedRequest) returns (remaining: seq<QueuedRequest>)
      ensures remaining == Without(queue, x)
    {
      remaining := [];
      for i := 0 to |queue|
        invariant remaining + Without(queue[i..], x) == Without(queue, x)
      {
        assert queue[i..] == [queue[i]] + queue[i + 1..];
        if queue[i] != x {
          remaining := remaining + [queue[i]];
        }
      }
    }

    method RemoveQueuedIdentity(id: Identity, q: QueuedRequest)
      modifies `queued, `queuedTokenDigests, `cancellationTokenDigests, `nodeQueues, `claims, `nodeWorkIdentities
      ensures queued == old(queued) - {id}
      ensures queuedTokenDigests == old(queuedTokenDigests) - {id}
      ensures cancellationTokenDigests == old(cancellationTokenDigests) - {id}
      ensures nodeQueues == Dequeue(old(nodeQueues), q)
      ensures claims == old(claims) - {id}
      ensures nodeWorkIdentities == Discard(old(nodeWorkIdentities), q.node, id)
    {
      queued := queued - {id};
      queuedTokenDigests := queuedTokenDigests - {id};
      cancellationTokenDigests := cancellationTokenDigests - {id};
      var queue := if q.node in nodeQueues then nodeQueues[q.node] else [];
      var remaining := RemainingQueue(queue, q);
      if remaining != [] {
        nodeQueues := nodeQueues[q.node := remaining];
      } else {
        nodeQueues := nodeQueues - {q.node};
      }
      claims := claims - {id};
      DiscardNodeWorkIdentity(q.node, id);
    }

    /** Take `id` out of every work dictionary; queued work also gives up its place and its claim. */
    method RemoveLiveWork(id: Identity, n: NodeId)
      requires Held(WorkView(), id) && n == NodeOf(WorkView(), id)
      requires !(id in reservations && id in queued) && (id in claims ==> id in queued)
      modifies `reservations, `queued, `queuedTokenDigests, `cancellationTokenDigests, `nodeQueues, `claims
      modifies `nodeWorkIdentities, `deferredDeadlineIdentities
      ensures WorkView() == RemoveWork(old(WorkView()), id)
      ensures claims == old(claims) - {id}
      ensures deferredDeadlineIdentities == old(deferredDeadlineIdentities) - {id}
    {
      MinusTwice(queued, id);
      MinusTwice(claims, id);
      MinusTwice(cancellationTokenDigests, id);
      MinusTwice(queuedTokenDigests, id);
      DiscardTwice(nodeWorkIdentities, n, id);
      reservations := reservations - {id};
      if id in queued {
        RemoveQueuedIdentity(id, queued[id]);
      }
      cancellationTokenDigests := cancellationTokenDigests - {id};
      queuedTokenDigests := queuedTokenDigests - {id};
      deferredDeadlineIdentities := deferredDeadlineIdentities - {id};
      DiscardNodeWorkIdentity(n, id);
    }

    /** The claim to stop when `id` ends with this verdict, if there is one. */
    method ClaimToStop(id: Identity, verdict: Verdict, now: Time, force: bool) returns (stopped: Option<Claim>)
      requires Held(WorkView(), id)
      ensures stopped == TombstoneClaim(View(), id, verdict, force, now)
    {
      var deadline := if id in reservations then reservations[id].deadline else queued[id].deadline;
      stopped := None;
      if id in claims {
        var claim := claims[id];
        if || force
           || (verdict == Cancelled && claim.lease > now)
           || (verdict == Expired && claim.lease >= deadline)
        {
          stopped := Some(claim);
        }
      }
    }

    /** Whether retained capacity admits one more terminal record and, if needed, one tombstone. */
    method HasRoomToTerminalize(client: Digest, stopped: Option<Claim>) returns (room: bool)
      ensures room <==> TerminalRoom(config, KeptView(), client)
                        && (stopped.Some? ==> ControlRoom(config, KeptView(), stopped.value.node))
    {
      if |terminals| >= config.maxTerminals || |OfClient(terminals.Keys, client)| >= config.maxTerminalsPerClient {
        return false;
      }
      if stopped.Some? {
        var onNode := |ControlsOn(controlTombstones, stopped.value.node)|;
        if |controlTombstones| >= config.maxControls || onNode >= config.maxControlsPerNode {
          return false;
        }
      }
      return true;
    }

    method WriteTerminal(id: Identity, verdict: Verdict, reason: Reason, stopped: Option<Claim>, now: Time)
      requires Held(WorkView(), id)
      modifies `terminals, `controlTombstones
      ensures KeptView() == Conclude(old(KeptView()), id,
                              TerminalFor(config, old(WorkView()), id, stopped, verdict, reason, now),
                              if stopped.Some? then Some(ControlOf(config, stopped.value, verdict, reason, now)) else None)
    {
      var node := if id in reservations then reservations[id].node else queued[id].node;
      var cancelToken := if id in cancellationTokenDigests then Some(cancellationTokenDigests[id]) else None;
      terminals := terminals[id := Terminal(
        node,
        if stopped.Some? then Some(stopped.value.credential) else None,
        if stopped.Some? then Some(stopped.value.consumer) else None,
        if stopped.Some? then stopped.value.generation else 0,
        None, now, now, now + config.terminalRetention,
        verdict, CompletedUnavailable, None, None, reason, cancelToken)];
      if stopped.Some? {
        controlTombstones := controlTombstones[id := ControlTombstone(
          stopped.value.node, stopped.value.credential, stopped.value.consumer, stopped.value.generation,
          verdict, reason, stopped.value.deadline, false,
          Min(now + config.controlTtl, now + 300.0))];
      }
    }

    /** The writes of a terminalization that has room. */
    method WriteOutcome(id: Identity, verdict: Verdict, reason: Reason, stopped: Option<Claim>, now: Time)
      requires Held(WorkView(), id)
      requires !(id in reservations && id in queued) && (id in claims ==> id in queued)
      modifies `terminals, `controlTombstones
      modifies `reservations, `queued, `queuedTokenDigests, `cancellationTokenDigests, `nodeQueues, `claims
      modifies `nodeWorkIdentities, `deferredDeadlineIdentities
      ensures WorkView() == RemoveWork(old(WorkView()), id)
      ensures claims == old(claims) - {id}
      ensures deferredDeadlineIdentities == old(deferredDeadlineIdentities) - {id}
      ensures KeptView() == Conclude(old(KeptView()), id,
                              TerminalFor(config, old(WorkView()), id, stopped, verdict, reason, now),
                              if stopped.Some? then Some(ControlOf(config, stopped.value, verdict, reason, now)) else None)
    {
      hide KeptView, Conclude, ControlOf, TerminalFor, RemoveWork;
      WriteTerminal(id, verdict, reason, stopped, now);
      RemoveLiveWork(id, if id in reservations then reservations[id].node else queued[id].node);
    }

    /** Record the outcome of live work once, or raise without any change if there is no room. */
    method TerminalizeLocked(id: Identity, verdict: Verdict, reason: Reason, now: Time, force: bool)
      returns (done: bool)
      requires Held(WorkView(), id)
      requires !(id in reservations && id in queued) && (id in claims ==> id in queued)
      modifies this
      ensures run == old(run)
      ensures done <==> CanTerminalize(config, old(View()), id, verdict, force, now)
      ensures View() == if done then Terminalize(config, old(View()), id, verdict, reason, force, now) else old(View())
    {
      hide WorkView, KeptView, FleetView, FairnessView, Conclude, TerminalRoom, ControlRoom, ControlOf, TerminalFor,
           RemoveWork, TombstoneClaim;
      var stopped := ClaimToStop(id, verdict, now, force);
      done := HasRoomToTerminalize(id.client, stopped);
      if done {
        WriteOutcome(id, verdict, reason, stopped, now);
      }
    }

    // ----- Node transitions -----

    method DropCursorsOf(n: NodeId)
      modifies `fairnessCursors
      ensures FairnessView() == old(FairnessView()).(cursors := CursorsWithout(old(fairnessCursors), n))
    {
      fairnessCursors := DropWhere(fairnessCursors, (_, cursor: Cursor) => cursor.node == n);
    }

    method WithdrawNode(n: NodeId)
      modifies `records, `schedulerStates, `registrationOrder, `fairnessCursors
      ensures FleetView() == old(FleetView()).(nodes := old(records) - {n}, scheduler := old(schedulerStates) - {n},
                                               order := old(registrationOrder) - {n})
      ensures FairnessView() == old(FairnessView()).(cursors := CursorsWithout(old(fairnessCursors), n))
    {
      records := records - {n};
      schedulerStates := schedulerStates - {n};
      registrationOrder := registrationOrder - {n};
      DropCursorsOf(n);
    }

    method FenceNode(n: NodeId, owner: Digest, cause: Cause, idle: bool, now: Time)
      modifies `pendingNodeTransitions, `formerNodeAuthorities, `nodeTombstones
      ensures pendingNodeTransitions == old(pendingNodeTransitions)[n := PendingTransition(owner, cause, now)]
      ensures formerNodeAuthorities == old(formerNodeAuthorities)[FenceKey(n, owner) :=
                                         FormerAuthority(cause, now, now + config.terminalRetention)]
      ensures nodeTombstones == old(nodeTombstones)[n := NodeTombstone(owner, cause, now, idle,
                                                                       Min(now + config.nodeTombstoneTtl, now + 300.0))]
    {
      pendingNodeTransitions := pendingNodeTransitions[n := PendingTransition(owner, cause, now)];
      formerNodeAuthorities :=
        formerNodeAuthorities[FenceKey(n, owner) := FormerAuthority(cause, now, now + config.terminalRetention)];
      nodeTombstones := nodeTombstones[n := NodeTombstone(owner, cause, now, idle,
                                                         Min(now + config.nodeTombstoneTtl, now + 300.0))];
    }

    /** Eligibility is removed before any work is touched. */
    method StartNodeTransition(n: NodeId, cause: Cause, now: Time)
      requires n in records
      modifies `records, `schedulerStates, `registrationOrder, `fairnessCursors, `pendingNodeTransitions
      modifies `formerNodeAuthorities, `nodeTombstones
      ensures FleetView() == StartFleet(config, old(FleetView()), n, cause, WorkOf(WorkView(), n) == {}, now)
      ensures FairnessView() == old(FairnessView()).(cursors := CursorsWithout(old(fairnessCursors), n))
    {
      hide FairnessView, CursorsWithout;
      var owner := records[n].credential;
      var idle := n !in nodeWorkIdentities || nodeWorkIdentities[n] == {};
      assert idle == (WorkOf(WorkView(), n) == {});
      hide WorkView, WorkOf;
      WithdrawNode(n);
      FenceNode(n, owner, cause, idle, now);
    }

    method CompleteNodeTransition(n: NodeId, now: Time)
      requires n in pendingNodeTransitions
      requires FenceKey(n, pendingNodeTransitions[n].credential) in formerNodeAuthorities
      modifies `pendingNodeTransitions, `formerNodeAuthorities, `nodeTombstones
      ensures FleetView() == CompleteFleet(config, old(FleetView()), n, now)
    {
      var key := FenceKey(n, pendingNodeTransitions[n].credential);
      formerNodeAuthorities :=
        formerNodeAuthorities[key := formerNodeAuthorities[key].(expiry := now + config.terminalRetention)];
      pendingNodeTransitions := pendingNodeTransitions - {n};
      if n in nodeTombstones {
        nodeTombstones := nodeTombstones[n := nodeTombstones[n].(completed := true)];
      }
    }

    method HasRoomToStart(n: NodeId) returns (room: bool)
      requires n in records
      ensures room <==> TransitionRoom(config, FleetView(), n)
    {
      if |pendingNodeTransitions| >= config.maxPending {
        return false;
      }
      if FenceKey(n, records[n].credential) !in formerNodeAuthorities && |formerNodeAuthorities| >= config.maxFences {
        return false;
      }
      if n !in nodeTombstones && |nodeTombstones| >= config.maxNodeTombstones {
        return false;
      }
      return true;
    }

    /** The latest retained fence that answers for a node nobody has registered. */
    method LatestAuthority(n: NodeId, supplied: Option<Digest>, cause: Cause) returns (latest: Option<FenceKey>)
      ensures if latest.Some? then LatestFence(FleetView(), n, supplied, cause, latest.value)
              else forall k | k in formerNodeAuthorities :: !FenceMatches(FleetView(), n, supplied, cause, k)
    {
      var f := formerNodeAuthorities;
      var todo := f.Keys;
      latest := None;
      while todo != {}
        invariant todo <= f.Keys
        invariant latest.Some? ==> latest.value in f && FenceMatches(FleetView(), n, supplied, cause, latest.value)
        invariant forall k | k in f && k !in todo && FenceMatches(FleetView(), n, supplied, cause, k) ::
                    latest.Some? && f[k].transitionAt <= f[latest.value].transitionAt
        decreases |todo|
      {
        var k :| k in todo;
        todo := todo - {k};
        if && k.node == n
           && (if cause == ExplicitUnregister then supplied == Some(k.owner) else f[k].cause == cause)
           && (latest.None? || f[latest.value].transitionAt < f[k].transitionAt)
        {
          latest := Some(k);
        }
      }
    }

    /** The answer of a transition call that does no work; `None`: the call goes ahead. */
    method TransitionGate(n: NodeId, supplied: Option<Digest>, cause: Cause, now: Time)
      returns (answer: Option<Outcome<Transition>>)
      ensures Gate(config, FleetView(), n, supplied, cause, now, answer)
    {
      if n in pendingNodeTransitions {
        var pending := pendingNodeTransitions[n];
        if cause != pending.cause {
          return Some(Raised(Conflict));
        }
        if cause == ExplicitUnregister && supplied != Some(pending.credential) {
          return Some(Raised(CredentialMismatch));
        }
        return None;
      }
      if n !in records {
        if n in nodeTombstones && cause == ExplicitUnregister {
          var tombstone := nodeTombstones[n];
          if supplied != Some(tombstone.credential) {
            return Some(Raised(CredentialMismatch));
          }
          return Some(Ok(AlreadyComplete(tombstone.cause, tombstone.transitionAt)));
        }
        var latest := LatestAuthority(n, supplied, cause);
        if latest.None? {
          return Some(Ok(NotFound));
        }
        var completed := formerNodeAuthorities[latest.value];
        return Some(Ok(AlreadyComplete(completed.cause, completed.transitionAt)));
      }
      if cause == ExplicitUnregister && supplied != Some(records[n].credential) {
        return Some(Raised(CredentialMismatch));
      }
      if cause == LeaseExpired && records[n].leaseExpiry > now {
        return Some(Ok(LeaseActive));
      }
      var room := HasRoomToStart(n);
      return if room then None else Some(Raised(CapacityExceeded));
    }

    method TeardownItem(n: NodeId, id: Identity, now: Time)
      returns (done: bool, reserved: nat, waiting: nat, claimed: nat)
      requires Valid() && n in View().fleet.pending && id in WorkOf(View().work, n)
      modifies this
      ensures Valid()
      ensures done <==> CanTeardown(config, old(View()), id, now)
      ensures if done
              then View() == TeardownOne(config, old(View()), id, now) && Continues(old(run), run, [Teardown(id, n, now)])
              else View() == old(View()) && run == old(run)
      ensures reserved == if id in old(View()).work.reservations then 1 else 0
      ensures waiting == if id in old(View()).work.queued then 1 else 0
      ensures claimed == if id in old(View()).leases.claims then 1 else 0
    {
      ValidInv();
      NothingToSkip(config, View(), n, id);
      TeardownEvent(config, View(), n, id, now);
      assert View().fleet == FleetView() && View().work == WorkView();
      assert View().leases.claims == claims;
      assert WorkView().reservations == reservations && WorkView().queued == queued;
      hide IsRun, Consistent, Bounded, WorkView, KeptView, FleetView, LeasesView, FairnessView, View, Enabled, Apply, CanTerminalize, Terminalize,
           Held, NodeOf, WorkOf;
      reserved := if id in reservations then 1 else 0;
      waiting := if id in queued then 1 else 0;
      claimed := if id in claims then 1 else 0;
      done := TerminalizeLocked(id, Cancelled, ServerUnregistered, now, true);
      if done {
        Record(Teardown(id, n, now));
      }
    }

    /** Work off one batch in order, stopping at the first item that finds no room. */
    method TeardownBatch(n: NodeId, batch: seq<Identity>, now: Time)
      returns (processed: nat, reserved: nat, waiting: nat, claimed: nat)
      requires Valid() && n in View().fleet.pending && IsBatch(config, View().work, View().arrivals, n, batch)
      modifies this
      ensures Valid() && View() == TeardownAll(config, old(View()), batch, now)
      ensures processed == TeardownCount(config, old(View()), batch, now)
      ensures Continues(old(run), run, Teardowns(batch[..processed], n, now))
      ensures reserved == Among(batch[..processed], old(View()).work.reservations.Keys)
      ensures waiting == Among(batch[..processed], old(View()).work.queued.Keys)
      ensures claimed == Among(batch[..processed], old(View()).leases.claims.Keys)
    {
      ghost var before := View();
      BatchStart(config, before, n, batch, now);
      processed, reserved, waiting, claimed := 0, 0, 0, 0;
      hide IsRun, Consistent, Bounded, View, WorkOf, TeardownOne, CanTeardown, TeardownAll, TeardownCount, Among;
      while processed < |batch|
        invariant processed <= |batch| && Valid()
        invariant BatchAt(config, before, View(), n, batch, processed, now, reserved, waiting, claimed)
        invariant Continues(old(run), run, Teardowns(batch[..processed], n, now))
      {
        ghost var s, at := View(), run;
        ValidInv();
        var done, r, w, k := TeardownItem(n, batch[processed], now);
        if !done {
          break;
        }
        BatchStep(config, before, s, n, batch, processed, now, reserved, waiting, claimed);
        TeardownsStep(batch, processed, n, now);
        ContinuesTwice(old(run), at, run, Teardowns(batch[..processed], n, now), [Teardown(batch[processed], n, now)]);
        processed, reserved, waiting, claimed := processed + 1, reserved + r, waiting + w, claimed + k;
      }
      BatchStops(config, before, View(), n, batch, processed, now, reserved, waiting, claimed);
    }

    method StartMaps(n: NodeId, cause: Cause, now: Time)
      requires n in View().fleet.nodes && n !in View().fleet.pending
      modifies this
      ensures View() == Started(config, old(View()), n, cause, now) && run == old(run)
    {
      hide StartFleet, CursorsWithout, WorkView, KeptView, LeasesView, FleetView, FairnessView, WorkOf;
      FairnessFields();
      FleetFields();
      StartNodeTransition(n, cause, now);
    }

    method BeginTransition(n: NodeId, cause: Cause, now: Time)
      requires Valid() && n in View().fleet.nodes && n !in View().fleet.pending
      requires TransitionRoom(config, View().fleet, n)
      requires cause == LeaseExpired ==> View().fleet.nodes[n].leaseExpiry <= now
      modifies this
      ensures Valid() && View() == Started(config, old(View()), n, cause, now)
      ensures Continues(old(run), run, [StartTransition(n, cause, now)])
    {
      hide IsRun, View, Enabled, Apply, TransitionRoom, Started;
      StartStep(config, View(), n, cause, now);
      StartMaps(n, cause, now);
      Record(StartTransition(n, cause, now));
    }

    static method FirstByPlace(ids: set<Identity>, places: map<Identity, nat>) returns (first: Identity)
      requires ids != {}
      ensures first in ids
      ensures forall id | id in ids ::
                (if first in places then places[first] else 0) <= (if id in places then places[id] else 0)
    {
      first :| first in ids;
      var todo := ids - {first};
      while todo != {}
        invariant todo <= ids && first in ids
        invariant forall id | id in ids && id !in todo ::
                    (if first in places then places[first] else 0) <= (if id in places then places[id] else 0)
        decreases |todo|
      {
        var id :| id in todo;
        todo := todo - {id};
        if (if id in places then places[id] else 0) < (if first in places then places[first] else 0) {
          first := id;
        }
      }
    }

    /** As much of the node's work as one call may process, the earliest first. */
    method ChooseBatch(n: NodeId) returns (batch: seq<Identity>)
      ensures IsBatch(config, WorkView(), ArrivalsView(), n, batch)
    {
      var all := if n in nodeWorkIdentities then nodeWorkIdentities[n] else {};
      var todo := all;
      batch := [];
      while todo != {} && |batch| < config.batchSize
        invariant todo <= all && |all| == |batch| + |todo| && |batch| <= config.batchSize
        invariant forall i | 0 <= i < |batch| :: batch[i] in all && batch[i] !in todo
        invariant forall id | id in all && id !in todo :: id in batch
        invariant Distinct(batch) && EarliestFirst(all, ArrivalsView(), batch)
        decreases |todo|
      {
        var id := FirstByPlace(todo, arrivalPlaces);
        EarliestNext(all, ArrivalsView(), batch, todo, id);
        todo := todo - {id};
        batch := batch + [id];
      }
    }

    method CompleteMaps(n: NodeId, now: Time) returns (continuation: bool)
      requires n in View().fleet.pending && FenceKey(n, View().fleet.pending[n].credential) in View().fleet.fences
      modifies this
      ensures View() == Finished(config, old(View()), n, now) && run == old(run)
      ensures continuation == (WorkOf(old(View()).work, n) != {})
    {
      hide CompleteFleet, WorkView, FleetView;
      FleetFields();
      WorkFields();
      continuation := n in nodeWorkIdentities && nodeWorkIdentities[n] != {};
      if !continuation {
        CompleteNodeTransition(n, now);
      }
    }

    /** Complete the transition of a pending node unless it still has work. */
    method FinishTransition(n: NodeId, now: Time) returns (continuation: bool)
      requires Valid() && n in View().fleet.pending
      modifies this
      ensures Valid() && View() == Finished(config, old(View()), n, now)
      ensures continuation == (WorkOf(old(View()).work, n) != {})
      ensures Continues(old(run), run, if continuation then [] else [CompleteTransition(n, now)])
    {
      hide IsRun, Consistent, Bounded, View, Enabled, Apply, Finished, CompleteFleet, WorkOf;
      ValidInv();
      FenceOfPending(config, View(), n);
      CompleteStep(config, View(), n, now);
      continuation := CompleteMaps(n, now);
      if !continuation {
        Record(CompleteTransition(n, now));
      }
    }

    /** Work off one batch of a pending node. */
    method AdvanceTransition(n: NodeId, now: Time) returns (answer: Transition, ghost batch: seq<Identity>)
      requires Valid() && n in View().fleet.pending
      modifies this
      ensures Valid() && IsBatch(config, old(View()).work, old(View()).arrivals, n, batch)
      ensures View() == Advance(config, old(View()), n, batch, now)
      ensures Continues(old(run), run, AdvanceEvents(config, old(View()), n, batch, now))
      ensures answer == AdvanceReport(config, old(View()), n, batch, now)
    {
      hide IsRun, Consistent, Bounded, View, Finished, TeardownAll, TeardownCount, WorkOf, Among, IsBatch, WorkView, FleetView;
      FleetFields();
      WorkFields();
      var pending := pendingNodeTransitions[n];
      var chosen := ChooseBatch(n);
      batch := chosen;
      var processed, reserved, waiting, claimed := TeardownBatch(n, chosen, now);
      var continuation := FinishTransition(n, now);
      answer := Progress(continuation, pending.cause, pending.transitionAt, processed, reserved, waiting, claimed, processed);
    }

    /** Start the transition of a registered node and work off its first batch. */
    method StartAndAdvance(n: NodeId, cause: Cause, now: Time) returns (answer: Transition, ghost batch: seq<Identity>)
      requires Valid() && n in View().fleet.nodes && n !in View().fleet.pending
      requires TransitionRoom(config, View().fleet, n)
      requires cause == LeaseExpired ==> View().fleet.nodes[n].leaseExpiry <= now
      modifies this
      ensures Valid() && n in Started(config, old(View()), n, cause, now).fleet.pending
      ensures var u := Started(config, old(View()), n, cause, now);
              && IsBatch(config, u.work, u.arrivals, n, batch)
              && View() == Advance(config, u, n, batch, now)
              && Continues(old(run), run, [StartTransition(n, cause, now)] + AdvanceEvents(config, u, n, batch, now))
              && answer == AdvanceReport(config, u, n, batch, now)
    {
      hide IsRun, View, TransitionRoom, Advance, AdvanceEvents, AdvanceReport, IsBatch;
      ghost var u := Started(config, View(), n, cause, now);
      assert n in u.fleet.pending;
      BeginTransition(n, cause, now);
      ghost var at := run;
      answer, batch := AdvanceTransition(n, now);
      ContinuesTwice(old(run), at, run, [StartTransition(n, cause, now)], AdvanceEvents(config, u, n, batch, now));
    }

    /** Refuse or answer at the gate, or work off one batch of a starting or started transition. */
    method TransitionNodeLocked(n: NodeId, supplied: Option<Digest>, cause: Cause, now: Time)
      returns (out: Outcome<Transition>, ghost batch: seq<Identity>)
      requires Valid()
      modifies this
      ensures Valid() && old(run).log <= run.log && Continues(old(run), run, run.log[|old(run).log|..])
      ensures TransitionCall(config, old(View()), n, supplied, cause, batch, now, View(), run.log[|old(run).log|..], out)
    {
      hide IsRun, View, FleetView, WorkView, TransitionRoom, Advance, AdvanceEvents, AdvanceReport, IsBatch, LatestFence,
           FenceMatches, StartFleet;
      FleetFields();
      batch := [];
      var gate := TransitionGate(n, supplied, cause, now);
      if gate.Some? {
        out := gate.value;
        assert run.log[|old(run).log|..] == [];
        return;
      }
      var answer: Transition;
      ghost var events;
      if n in pendingNodeTransitions {
        answer, batch := AdvanceTransition(n, now);
        events := AdvanceEvents(config, old(View()), n, batch, now);
      } else {
        answer, batch := StartAndAdvance(n, cause, now);
        events := [StartTransition(n, cause, now)]
                  + AdvanceEvents(config, Started(config, old(View()), n, cause, now), n, batch, now);
      }
      assert run.log[|old(run).log|..] == events;
      out := Ok(answer);
    }

    // ----- Housekeeping -----

    static method FirstNode(nodes: set<NodeId>) returns (first: NodeId)
      requires nodes != {}
      ensures first in nodes && forall n | n in nodes :: first <= n
    {
      first :| first in nodes;
      var todo := nodes - {first};
      while todo != {}
        invariant todo <= nodes && first in nodes
        invariant forall n | n in nodes && n !in todo :: first <= n
        decreases |todo|
      {
        var n :| n in todo;
        todo := todo - {n};
        if n < first {
          first := n;
        }
      }
    }

    method ExpireNode(n: NodeId, now: Time) returns (removed: bool)
      requires Valid() && Reaped(View(), now) && n in Lapsed(View().fleet, now)
      modifies this
      ensures Valid() && Reaped(View(), now) && Housekept(old(run), run, now)
      ensures if removed then View().fleet.nodes == old(View()).fleet.nodes - {n}
                              && Lapsed(View().fleet, now) == Lapsed(old(View()).fleet, now) - {n}
              else View() == old(View()) && Stuck(config, View(), now)
      ensures NodeLapses(config, old(run), run, n, now, removed)
    {
      hide IsRun, Consistent, Bounded, WorkInv, FleetInv, View, Reaped, Lapsed, Stuck, TransitionCall, Housekeeping,
           NodeLapses, ArrivalInv;
      ghost var s, at := View(), run;
      ValidInv();
      InvSaysFleet(config, s);
      var out, batch := TransitionNodeLocked(n, None, LeaseExpired, now);
      LapsedCall(config, s, n, batch, now, View(), run.log[|at.log|..], out);
      LapsedNodeCall(config, at, run, n, batch, now, out);
      EventsHousekept(at, run, run.log[|at.log|..], now);
      HousekeptKeeps(config, at, run, now);
      removed := out.Ok?;
    }

    /** Advance the first pending transition, unless this sweep has just started it. */
    method ContinuePending(started: set<NodeId>, now: Time)
      requires Valid() && Reaped(View(), now)
      modifies this
      ensures Valid() && Reaped(View(), now) && Housekept(old(run), run, now)
      ensures View().fleet.nodes == old(View()).fleet.nodes
      ensures started == {} ==>
                if old(View()).fleet.pending == map[] then View() == old(View())
                else exists n, batch :: SweepOf(config, old(View()), View(), n, batch, now)
      ensures Quiet(old(run), run) <==> !PendingReady(config, old(View()), started, now)
    {
      hide IsRun, View, FleetView, Reaped, TransitionCall, Housekeeping, SweepOf, FirstHasRoom, Quiet;
      FleetFields();
      ghost var s, at := View(), run;
      NothingQuiet(run);
      if pendingNodeTransitions != map[] {
        var n := FirstNode(pendingNodeTransitions.Keys);
        LeastIs(pendingNodeTransitions.Keys, n);
        if n !in started {
          var pending := pendingNodeTransitions[n];
          var supplied := if pending.cause == ExplicitUnregister then Some(pending.credential) else None;
          var out, batch := TransitionNodeLocked(n, supplied, pending.cause, now);
          PendingCall(config, s, n, batch, now, View(), run.log[|at.log|..], out);
          PendingQuiet(config, at, run, n, batch, now, out);
          EventsHousekept(at, run, run.log[|at.log|..], now);
          HousekeptKeeps(config, at, run, now);
        }
      }
    }

    /** Remove lapsed nodes in order; failing in between leaves the earlier removals in place. */
    method RemoveLapsed(lapsed: set<NodeId>, now: Time) returns (done: bool)
      requires Valid() && Reaped(View(), now) && lapsed == Lapsed(View().fleet, now)
      modifies this
      ensures Valid() && Reaped(View(), now) && Housekept(old(run), run, now)
      ensures if done then Lapsed(View().fleet, now) == {} else Stuck(config, View(), now)
      ensures lapsed == {} ==> done && View() == old(View())
      ensures NodesLapse(config, old(run), run, lapsed, now, done)
    {
      hide IsRun, View, FleetView, Reaped, Stuck, Housekeeping, Lapsed, NodeLapses, NodesLapse, SoFar;
      SoFarFirst(config, run, lapsed, now);
      var todo := lapsed;
      while todo != {}
        invariant Valid() && Reaped(View(), now) && Housekept(old(run), run, now)
        invariant todo == Lapsed(View().fleet, now)
        invariant lapsed == {} ==> View() == old(View())
        invariant SoFar(config, old(run), run, lapsed, todo, now)
        decreases |todo|
      {
        var n := FirstNode(todo);
        ghost var at := run;
        var removed := ExpireNode(n, now);
        HousekeptTwice(old(run), at, run, now);
        if !removed {
          SoFarFails(config, old(run), at, run, lapsed, todo, n, now);
          return false;
        }
        SoFarNext(config, old(run), at, run, lapsed, todo, n, now);
        todo := todo - {n};
      }
      SoFarEnds(config, old(run), run, lapsed, now);
      done := true;
    }

    method ExpireLocked(now: Time, continuePending: bool) returns (out: Outcome<map<NodeId, Registration>>)
      requires Valid()
      modifies this
      ensures Valid() && Reaped(View(), now) && Housekept(old(run), run, now)
      ensures if out.Raised? then out.error == CapacityExceeded && Stuck(config, View(), now)
              else LeasesLive(View(), now)
      ensures out.Ok? ==> out.value == map n | n in Lapsed(old(View()).fleet, now) :: old(View()).fleet.nodes[n]
      ensures continuePending && Lapsed(old(View()).fleet, now) == {} ==>
                out.Ok? && Sweep(config, old(View()), View(), now)
      ensures Quiet(old(run), run) <==> !ExpireConcludes(config, old(View()), now, continuePending)
    {
      hide IsRun, View, FleetView, Reaped, LeasesLive, Apply, Stuck, Housekeeping, SweepOf, Quiet, AfterReap, NodesLapse,
           PendingReady, ExpireConcludes;
      ghost var s := View();
      ReapRetained(now);
      ghost var reaped := run;
      SameLapsed(s.fleet, View().fleet, now);
      FleetFields();
      var lapsed := map n | n in records && records[n].leaseExpiry <= now :: records[n];
      assert lapsed.Keys == Lapsed(View().fleet, now);
      hide Lapsed;
      ghost var at := run;
      var done := RemoveLapsed(lapsed.Keys, now);
      HousekeptTwice(old(run), at, run, now);
      ghost var swept := run;
      if !done {
        ExpireQuietIff(config, old(run), reaped, swept, run, lapsed.Keys, now, done, continuePending);
        return Raised(CapacityExceeded);
      }
      NoneLapsed(View(), now);
      if continuePending {
        ghost var t := View();
        at := run;
        ContinuePending(lapsed.Keys, now);
        HousekeptTwice(old(run), at, run, now);
        SameLapsed(t.fleet, View().fleet, now);
        NoneLapsed(View(), now);
      }
      ExpireQuietIff(config, old(run), reaped, swept, run, lapsed.Keys, now, done, continuePending);
      out := Ok(lapsed);
    }

    method ConcludeMaps(id: Identity, now: Time) returns (done: bool)
      requires Held(View().work, id)
      requires !(id in View().work.reservations && id in View().work.queued)
      requires id in View().leases.claims ==> id in View().work.queued
      modifies this
      ensures done <==> CanTerminalize(config, old(View()), id, Expired, false, now)
      ensures View() == if done then Terminalize(config, old(View()), id, Expired, DeadlineExpired, false, now)
                        else old(View()).(deferred := old(View()).deferred + {id})
      ensures run == old(run)
    {
      WorkFields();
      assert View().leases.claims == claims && View().deferred == deferredDeadlineIdentities;
      hide WorkView, KeptView, FleetView, LeasesView, FairnessView, Held, CanTerminalize, Terminalize;
      done := TerminalizeLocked(id, Expired, DeadlineExpired, now, false);
      if !done {
        deferredDeadlineIdentities := deferredDeadlineIdentities + {id};
      }
    }

    /** Expire one overdue item, or mark it deferred if there is no room for its record. */
    method ConcludeDueItem(id: Identity, ghost due: set<Identity>, now: Time)
      requires Valid() && Reaped(View(), now) && StillDue(config, View(), due, now) && id in due
      modifies this
      ensures Valid() && Reaped(View(), now) && Housekept(old(run), run, now)
      ensures StillDue(config, View(), due - {id}, now) && WorkedOff(old(run), run, [id], now)
    {
      hide IsRun, Consistent, Bounded, View, Reaped, StillDue, Held, DeadlineOf, CanTerminalize, Terminalize, Enabled, Apply,
           OverdueDeferred, Housekept;
      ghost var s, at := View(), run;
      DueMember(config, s, due, id, now);
      ValidInv();
      HeldOnce(config, s, id);
      DueEvents(config, s, id, now);
      var done := ConcludeMaps(id, now);
      ghost var e := if done then StoreState.Expire(id, now) else Defer(id, now);
      RecordKept(e, s, now);
      DueStep(config, s, e, due, now);
    }

    method DueNow(now: Time) returns (reserved: set<Identity>, waiting: map<Identity, nat>)
      requires Valid()
      ensures StillDue(config, View(), reserved + waiting.Keys, now)
      ensures forall id :: id in reserved + waiting.Keys <==> Held(View().work, id) && DeadlineOf(View().work, id) <= now
      ensures forall id | id in reserved :: id !in View().work.queued
      ensures forall id | id in waiting :: id in View().work.queued && waiting[id] == View().work.queued[id].sequence
    {
      hide IsRun, Consistent, Bounded, View, WorkView, StillDue;
      WorkFields();
      ValidInv();
      reserved := set id | id in reservations && reservations[id].deadline <= now;
      waiting := map id | id in queued && queued[id].deadline <= now :: queued[id].sequence;
      assert waiting.Keys == set id | id in queued && queued[id].deadline <= now;
      DueStart(config, View(), reserved + waiting.Keys, now);
      forall id | id in reserved
        ensures id !in queued
      {
        HeldOnce(config, View(), id);
      }
    }

    static method FirstWaiting(ids: set<Identity>, waiting: map<Identity, nat>) returns (first: Identity)
      requires ids != {} && ids <= waiting.Keys
      ensures first in ids && forall id | id in ids :: waiting[first] <= waiting[id]
    {
      first :| first in ids;
      var todo := ids - {first};
      while todo != {}
        invariant todo <= ids && first in ids
        invariant forall id | id in ids && id !in todo :: waiting[first] <= waiting[id]
        decreases |todo|
      {
        var id :| id in todo;
        todo := todo - {id};
        if waiting[id] < waiting[first] {
          first := id;
        }
      }
    }

    /** Deadlines come first, reservations before queued work; what has no room is deferred. */
    method ConcludeDue(now: Time) returns (ghost ids: seq<Identity>)
      requires Valid() && Reaped(View(), now)
      modifies this
      ensures Valid() && Reaped(View(), now) && Housekept(old(run), run, now)
      ensures OverdueDeferred(config, View(), now)
      ensures WorkedOff(old(run), run, ids, now) && InDueOrder(old(View()).work, old(View()).arrivals, ids)
      ensures forall id :: id in ids <==> Held(old(View()).work, id) && DeadlineOf(old(View()).work, id) <= now
      ensures Quiet(old(run), run) <==> !OverdueReady(config, old(View()), now)
      ensures Quiet(old(run), run) ==> View() == old(View()).(deferred := View().deferred)
    {
      hide IsRun, View, Reaped, StillDue, OverdueDeferred, Housekeeping, WorkedOff, InDueOrder, Quiet, OverdueReady;
      WorkFields();
      ghost var before := View();
      var reserved, waiting := DueNow(now);
      ids := ConcludeReserved(reserved, waiting.Keys, arrivalPlaces, before.work, before.arrivals, now);
      ghost var at := run;
      ghost var rest := ConcludeWaiting(waiting, ids, old(run), before.work, before.arrivals, now);
      HousekeptTwice(old(run), at, run, now);
      DueEnd(config, View(), now);
      ids := rest;
      DueQuietIff(config, old(run), run, ids, now);
    }

    method ConcludeReserved(reserved: set<Identity>, ghost others: set<Identity>, places: map<Identity, nat>,
                            ghost w: Work, ghost a: Arrivals, now: Time)
      returns (ghost ids: seq<Identity>)
      requires Valid() && Reaped(View(), now) && StillDue(config, View(), reserved + others, now) && reserved !! others
      requires places == a.places && forall id | id in reserved :: id !in w.queued
      modifies this
      ensures Valid() && Reaped(View(), now) && Housekept(old(run), run, now)
      ensures StillDue(config, View(), others, now)
      ensures WorkedOff(old(run), run, ids, now) && InDueOrder(w, a, ids) && forall id :: id in ids <==> id in reserved
    {
      hide IsRun, View, Reaped, StillDue, Housekeeping, WorkedOff, InDueOrder;
      NothingInDueOrder(w, a, run, now);
      var todo := reserved;
      ids := [];
      while todo != {}
        invariant todo <= reserved && Valid() && Reaped(View(), now) && Housekept(old(run), run, now)
        invariant StillDue(config, View(), todo + others, now)
        invariant WorkedOff(old(run), run, ids, now) && InDueOrder(w, a, ids)
        invariant forall id :: id in ids <==> id in reserved - todo
        invariant forall x, id | x in ids && id in todo :: PlaceOf(a, x) <= PlaceOf(a, id)
        decreases |todo|
      {
        var id := FirstByPlace(todo, places);
        ghost var at := run;
        ConcludeDueItem(id, todo + others, now);
        HousekeptTwice(old(run), at, run, now);
        WorkedOffNext(old(run), at, run, ids, id, now);
        NextInDueOrder(w, a, ids, id);
        assert todo + others - {id} == (todo - {id}) + others;
        todo, ids := todo - {id}, ids + [id];
      }
      assert todo + others == others;
    }

    method ConcludeWaiting(waiting: map<Identity, nat>, ghost before: seq<Identity>, ghost start: Run, ghost w: Work,
                           ghost a: Arrivals, now: Time) returns (ghost ids: seq<Identity>)
      requires Valid() && Reaped(View(), now) && StillDue(config, View(), waiting.Keys, now)
      requires WorkedOff(start, run, before, now) && InDueOrder(w, a, before) && forall id | id in before :: id !in w.queued
      requires forall id | id in waiting :: id in w.queued && waiting[id] == w.queued[id].sequence
      modifies this
      ensures Valid() && Reaped(View(), now) && Housekept(old(run), run, now)
      ensures StillDue(config, View(), {}, now)
      ensures WorkedOff(start, run, ids, now) && InDueOrder(w, a, ids)
      ensures forall id :: id in ids <==> id in before || id in waiting
    {
      hide IsRun, View, Reaped, StillDue, Housekeeping, WorkedOff, InDueOrder;
      var todo := waiting.Keys;
      ids := before;
      while todo != {}
        invariant todo <= waiting.Keys && Valid() && Reaped(View(), now) && Housekept(old(run), run, now)
        invariant StillDue(config, View(), todo, now) && WorkedOff(start, run, ids, now) && InDueOrder(w, a, ids)
        invariant forall id :: id in ids <==> id in before || id in waiting.Keys - todo
        invariant forall x, id | x in ids && x in w.queued && id in todo :: w.queued[x].sequence <= w.queued[id].sequence
        decreases |todo|
      {
        var id := FirstWaiting(todo, waiting);
        ghost var at := run;
        ConcludeDueItem(id, todo, now);
        HousekeptTwice(old(run), at, run, now);
        WorkedOffNext(start, at, run, ids, id, now);
        NextInDueOrder(w, a, ids, id);
        todo, ids := todo - {id}, ids + [id];
      }
    }

    method DropWork(id: Identity)
      requires id in reservations && id !in queued && id !in queuedTokenDigests
      modifies `reservations, `cancellationTokenDigests, `nodeWorkIdentities
      ensures WorkView() == RemoveWork(old(WorkView()), id)
    {
      var node := reservations[id].node;
      reservations := reservations - {id};
      cancellationTokenDigests := cancellationTokenDigests - {id};
      DiscardNodeWorkIdentity(node, id);
    }

    method DropMaps(id: Identity)
      requires id in View().work.reservations && id !in View().work.queued && id !in View().work.queuedTokens
      modifies this
      ensures View() == old(View()).(work := RemoveWork(old(View()).work, id)) && run == old(run)
    {
      hide WorkView, RemoveWork;
      WorkFields();
      DropWork(id);
    }

    method DropReservationItem(id: Identity, now: Time)
      requires Valid() && Reaped(View(), now) && LeasesLive(View(), now)
      requires OverdueDeferred(config, View(), now) && id in LapsedReservations(View(), now)
      modifies this
      ensures Valid() && Reaped(View(), now) && LeasesLive(View(), now) && Housekept(old(run), run, now)
      ensures OverdueDeferred(config, View(), now)
      ensures LapsedReservations(View(), now) == LapsedReservations(old(View()), now) - {id}
      ensures Quiet(old(run), run)
    {
      hide IsRun, Consistent, Bounded, View, Enabled, Apply, Reaped, LeasesLive, OverdueDeferred, LapsedReservations, Housekept,
           RemoveWork, Quiet;
      ghost var s, at := View(), run;
      LapsedMember(s, id, now);
      ValidInv();
      DropEvent(config, s, id, now);
      DropMaps(id);
      RecordKept(DropReservation(id, now), s, now);
      DropStep(config, s, id, now);
      EventsQuiet(at, run, [DropReservation(id, now)]);
    }

    method LapsedNow(now: Time) returns (lapsed: set<Identity>)
      ensures lapsed == LapsedReservations(View(), now)
    {
      hide WorkView;
      WorkFields();
      assert View().deferred == deferredDeadlineIdentities;
      lapsed := set id | id in reservations && reservations[id].expiry <= now && id !in deferredDeadlineIdentities;
    }

    /** Reservations whose time is up go in the order in which they arrived. */
    method DropLapsedReservations(now: Time)
      requires Valid() && Reaped(View(), now) && LeasesLive(View(), now)
      requires OverdueDeferred(config, View(), now)
      modifies this
      ensures Valid() && Settled(config, View(), now) && Housekept(old(run), run, now)
      ensures Quiet(old(run), run)
    {
      hide IsRun, View, WorkView, Reaped, LeasesLive, OverdueDeferred, Housekeeping, Settled, Quiet, LapsedReservations;
      NothingQuiet(run);
      var todo := LapsedNow(now);
      while todo != {}
        invariant Valid() && Reaped(View(), now) && LeasesLive(View(), now) && Housekept(old(run), run, now)
        invariant OverdueDeferred(config, View(), now)
        invariant todo == LapsedReservations(View(), now) && Quiet(old(run), run)
        decreases |todo|
      {
        var id := FirstByPlace(todo, arrivalPlaces);
        ghost var at := run;
        DropReservationItem(id, now);
        HousekeptTwice(old(run), at, run, now);
        QuietTwice(old(run), at, run);
        todo := todo - {id};
      }
      SettledNow(config, View(), now);
    }

    /** The housekeeping at the start of most calls; `false` means that it raised part-way. */
    method ReapLocked(now: Time) returns (done: bool)
      requires Valid()
      modifies this
      ensures Valid() && Housekept(old(run), run, now)
      ensures if done then Settled(config, View(), now) else Stuck(config, View(), now)
      ensures OverdueExpires(old(run), run, now) && RoomClears(config, old(View()), View(), now)
      ensures Quiet(old(run), run) <==> !ReapConcludes(config, old(View()), now)
    {
      hide IsRun, View, Reaped, Stuck, LeasesLive, OverdueDeferred, Settled, Apply, Sweep, Lapsed, AfterReap, Quiet, OverdueReady,
           ExpireConcludes, ReapConcludes, WorkedOff, InDueOrder, Housekeeping, OverdueExpires, RoomClears;
      ReapRetained(now);
      ghost var reaped := run;
      ghost var concluded := ConcludeDue(now);
      HousekeptTwice(old(run), reaped, run, now);
      ghost var at := run;
      var out := ExpireLocked(now, false);
      HousekeptKeeps(config, at, run, now);
      HousekeptTwice(old(run), at, run, now);
      ghost var swept := run;
      OverdueOnlyExpires(config, old(run), reaped, at, run, concluded, now);
      HousekeepingClears(config, old(View()), reaped, at, run, concluded, now);
      NothingQuiet(swept);
      ReapQuietIff(config, old(run), reaped, at, swept, swept, now);
      if out.Raised? {
        return false;
      }
      DropLapsedReservations(now);
      HousekeptTwice(old(run), swept, run, now);
      HousekeptTwice(at, swept, run, now);
      OverdueOnlyExpires(config, old(run), reaped, at, run, concluded, now);
      HousekeepingClears(config, old(View()), reaped, at, run, concluded, now);
      ReapQuietIff(config, old(run), reaped, at, swept, run, now);
      done := true;
    }

    // ----- Nodes -----

    method AddRecord(n: NodeId, record: Registration)
      modifies `records, `schedulerStates, `registrationOrder, `nextRegistrationOrder
      ensures FleetView() == old(FleetView()).(nodes := old(records)[n := record],
                                               scheduler := old(schedulerStates)[n := SchedulerState(true, false, 0)],
                                               order := old(registrationOrder)[n := old(nextRegistrationOrder)],
                                               nextOrder := old(nextRegistrationOrder) + 1)
    {
      records := records[n := record];
      schedulerStates := schedulerStates[n := SchedulerState(true, false, 0)];
      registrationOrder := registrationOrder[n := nextRegistrationOrder];
      nextRegistrationOrder := nextRegistrationOrder + 1;
    }

    method AddNode(n: NodeId, caps: Capabilities, owner: Digest, now: Time) returns (record: Registration)
      modifies this
      ensures View() == old(View()).(fleet := RegisterFleet(config, old(View()).fleet, n, caps, owner, now))
      ensures record == Registration(caps, owner, now, now + config.leaseTtl) && run == old(run)
    {
      hide WorkView, KeptView, LeasesView, FairnessView, FleetView;
      FleetFields();
      record := Registration(caps, owner, now, now + config.leaseTtl);
      AddRecord(n, record);
    }

    method RenewNode(n: NodeId, caps: Capabilities, now: Time) returns (record: Registration)
      requires n in View().fleet.nodes
      modifies this
      ensures record == old(View()).fleet.nodes[n].(capabilities := caps, leaseExpiry := now + config.leaseTtl)
      ensures View() == old(View()).(fleet := old(View()).fleet.(nodes := old(View()).fleet.nodes[n := record]))
      ensures run == old(run)
    {
      hide WorkView, KeptView, LeasesView, FairnessView;
      record := records[n].(capabilities := caps, leaseExpiry := now + config.leaseTtl);
      records := records[n := record];
    }

    method RegisterLocked(n: NodeId, caps: Capabilities, owner: Digest, now: Time) returns (out: Outcome<Registration>)
      requires Valid()
      modifies this
      ensures Valid()
      ensures var d := RegisterCall(config, old(View()), n, caps, owner, now);
              out == d.outcome && Continues(old(run), run, d.events)
    {
      hide IsRun, View, FleetView, Enabled, Apply, RegisterFleet;
      FleetFields();
      if n in pendingNodeTransitions {
        return Raised(Conflict);
      }
      if n !in records && |records| >= config.maxNodes {
        return Raised(CapacityExceeded);
      }
      if n in records {
        if records[n].credential != owner {
          return Raised(CredentialMismatch);
        }
        RenewEvent(config, View(), n, caps, now);
        var renewed := RenewNode(n, caps, now);
        Record(StoreState.Renew(n, caps, now));
        return Ok(renewed);
      }
      if FenceKey(n, owner) in formerNodeAuthorities {
        return Raised(CredentialMismatch);
      }
      RegisterEvent(config, View(), n, caps, owner, now);
      var record := AddNode(n, caps, owner, now);
      Record(StoreState.Register(n, caps, owner, now));
      out := Ok(record);
    }

    /** Register a node or renew its registration. */
    method Register(n: NodeId, caps: Capabilities, owner: Digest, now: Time)
      returns (out: Outcome<Registration>, ghost tidy: Run)
      requires Valid()
      modifies this
      ensures Valid() && Tidied(config, old(run), tidy, now)
      ensures Performed(config, tidy, run, now, out, RegisterCall(config, Last(tidy), n, caps, owner, now))
      ensures out.Raised? ==> run == tidy
      ensures ClockKept(old(run), run, now)
      ensures Outcomes(old(run), run) == 0 <==> !ExpireConcludes(config, old(View()), now, false)
    {
      hide IsRun, View, Apply, Reaped, LeasesLive, Stuck, Housekeeping, Lapsed, Sweep, RegisterCall,
           ExpireConcludes, AfterReap, Quiet, Outcomes, Conclusions;
      ReapRetained(now);
      ghost var at := run;
      var expired := ExpireLocked(now, false);
      HousekeptTwice(old(run), at, run, now);
      tidy := run;
      HousekeptClock(config, old(run), tidy, now);
      QuietTwice(old(run), at, tidy);
      ExpireAfterReap(config, old(View()), now, false);
      TidyQuiet(old(run), tidy, now);
      if expired.Raised? {
        return Raised(expired.error), tidy;
      }
      LiveIsNotStuck(config, View(), now);
      out := RegisterLocked(n, caps, owner, now);
      CallDone(config, old(run), tidy, run, now, out, RegisterCall(config, Last(tidy), n, caps, owner, now));
      RegisterConcludesNothing(config, Last(tidy), n, caps, owner, now);
      ReportIff(config, old(run), tidy, run, now, out, RegisterCall(config, Last(tidy), n, caps, owner, now),
                ExpireConcludes(config, old(View()), now, false));
    }

    method RenewLocked(n: NodeId, owner: Digest, caps: Option<Capabilities>, now: Time)
      returns (out: Outcome<Option<Registration>>)
      requires Valid()
      modifies this
      ensures Valid()
      ensures var d := RenewCall(config, old(View()), n, owner, caps, now);
              out == d.outcome && Continues(old(run), run, d.events)
    {
      hide IsRun, View, FleetView, Enabled, Apply, RegisterFleet;
      FleetFields();
      if n !in records {
        return Ok(None);
      }
      if records[n].credential != owner {
        return Raised(CredentialMismatch);
      }
      var merged := if caps.Some? then caps.value else records[n].capabilities;
      RenewEvent(config, View(), n, merged, now);
      var renewed := RenewNode(n, merged, now);
      Record(StoreState.Renew(n, merged, now));
      out := Ok(Some(renewed));
    }

    method Renew(n: NodeId, owner: Digest, caps: Option<Capabilities>, now: Time)
      returns (out: Outcome<Option<Registration>>, ghost tidy: Run)
      requires Valid()
      modifies this
      ensures Valid() && Tidied(config, old(run), tidy, now)
      ensures Performed(config, tidy, run, now, out, RenewCall(config, Last(tidy), n, owner, caps, now))
      ensures !(out.Ok? && out.value.Some?) ==> run == tidy
      ensures ClockKept(old(run), run, now)
      ensures Outcomes(old(run), run) == 0 <==> !ExpireConcludes(config, old(View()), now, false)
    {
      hide IsRun, View, Apply, Reaped, LeasesLive, Stuck, Housekeeping, Lapsed, Sweep, RenewCall,
           ExpireConcludes, AfterReap, Quiet, Outcomes, Conclusions;
      var expired := ExpireLocked(now, false);
      tidy := run;
      HousekeptClock(config, old(run), tidy, now);
      TidyQuiet(old(run), tidy, now);
      if expired.Raised? {
        return Raised(expired.error), tidy;
      }
      LiveIsNotStuck(config, View(), now);
      out := RenewLocked(n, owner, caps, now);
      CallDone(config, old(run), tidy, run, now, out, RenewCall(config, Last(tidy), n, owner, caps, now));
      RenewConcludesNothing(config, Last(tidy), n, owner, caps, now);
      ReportIff(config, old(run), tidy, run, now, out, RenewCall(config, Last(tidy), n, owner, caps, now),
                ExpireConcludes(config, old(View()), now, false));
    }

    method SetSchedulerLocked(n: NodeId, owner: Digest, state: SchedulerState, now: Time) returns (out: Outcome<bool>)
      requires Valid()
      modifies this
      ensures Valid()
      ensures var d := SetSchedulerCall(old(View()), n, owner, state, now);
              out == d.outcome && Continues(old(run), run, d.events)
    {
      hide IsRun, View, FleetView, Enabled, Apply, RegisterFleet;
      FleetFields();
      if n !in records {
        return Ok(false);
      }
      if records[n].credential != owner {
        return Raised(CredentialMismatch);
      }
      SchedulerEvent(config, View(), n, state, now);
      WriteScheduler(n, state);
      Record(SetScheduler(n, state, now));
      out := Ok(true);
    }

    method WriteScheduler(n: NodeId, state: SchedulerState)
      modifies this
      ensures View() == old(View()).(fleet := old(View()).fleet.(scheduler := old(View()).fleet.scheduler[n := state]))
      ensures run == old(run)
    {
      hide WorkView, KeptView, LeasesView, FairnessView;
      schedulerStates := schedulerStates[n := state];
    }

    method SetSchedulerState(n: NodeId, owner: Digest, state: SchedulerState, now: Time)
      returns (out: Outcome<bool>, ghost tidy: Run)
      requires Valid()
      modifies this
      ensures Valid() && Tidied(config, old(run), tidy, now)
      ensures Performed(config, tidy, run, now, out, SetSchedulerCall(Last(tidy), n, owner, state, now))
      ensures out != Ok(true) ==> run == tidy
      ensures ClockKept(old(run), run, now)
      ensures Outcomes(old(run), run) == 0 <==> !ExpireConcludes(config, old(View()), now, false)
    {
      hide IsRun, View, Apply, Reaped, LeasesLive, Stuck, Housekeeping, Lapsed, Sweep, SetSchedulerCall,
           ExpireConcludes, AfterReap, Quiet, Outcomes, Conclusions;
      var expired := ExpireLocked(now, false);
      tidy := run;
      HousekeptClock(config, old(run), tidy, now);
      TidyQuiet(old(run), tidy, now);
      if expired.Raised? {
        return Raised(expired.error), tidy;
      }
      LiveIsNotStuck(config, View(), now);
      out := SetSchedulerLocked(n, owner, state, now);
      CallDone(config, old(run), tidy, run, now, out, SetSchedulerCall(Last(tidy), n, owner, state, now));
      SchedulerConcludesNothing(Last(tidy), n, owner, state, now);
      ReportIff(config, old(run), tidy, run, now, out, SetSchedulerCall(Last(tidy), n, owner, state, now),
                ExpireConcludes(config, old(View()), now, false));
    }

    /** Remove lapsed nodes, then advance one pending transition: a sweep when no lease has lapsed. */
    method Expire(now: Time) returns (out: Outcome<map<NodeId, Registration>>)
      requires Valid()
      modifies this
      ensures Valid() && Reaped(View(), now) && Housekept(old(run), run, now)
      ensures if out.Raised? then out.error == CapacityExceeded && Stuck(config, View(), now)
              else LeasesLive(View(), now)
      ensures out.Ok? ==> out.value == map n | n in Lapsed(old(View()).fleet, now) :: old(View()).fleet.nodes[n]
      ensures Lapsed(old(View()).fleet, now) == {} ==> out.Ok? && Sweep(config, old(View()), View(), now)
      ensures ClockKept(old(run), run, now)
      ensures Outcomes(old(run), run) == 0 <==> !ExpireConcludes(config, old(View()), now, true)
    {
      hide IsRun, View, Apply, Reaped, LeasesLive, Stuck, Housekept, Lapsed, Sweep, ExpireConcludes, Quiet,
           Outcomes;
      out := ExpireLocked(now, true);
      HousekeptClock(config, old(run), run, now);
      TidyQuiet(old(run), run, now);
    }

    /** Remove a node and terminalize its work in bounded batches, one per call. */
    method UnregisterNodeAndTransitionWork(n: NodeId, supplied: Option<Digest>, cause: Cause, now: Time)
      returns (out: Outcome<Transition>, ghost tidy: Run, ghost batch: seq<Identity>)
      requires Valid()
      modifies this
      ensures Valid() && IsRun(config, tidy) && Continues(old(run), tidy, [StoreState.Reap(now)])
      ensures Reaped(Last(tidy), now) && tidy.log <= run.log && Continues(tidy, run, run.log[|tidy.log|..])
      ensures TransitionCall(config, Last(tidy), n, supplied, cause, batch, now, View(), run.log[|tidy.log|..], out)
      ensures out.Raised? || !out.value.Progress? ==> run == tidy
      ensures ClockKept(old(run), run, now)
      ensures Outcomes(old(run), run) == if out.Ok? && out.value.Progress? then out.value.outcomes else 0
    {
      hide IsRun, View, Apply, Reaped, TransitionCall, Quiet, Outcomes;
      ReapRetained(now);
      tidy := run;
      out, batch := TransitionNodeLocked(n, supplied, cause, now);
      HousekeptClock(config, old(run), tidy, now);
      TransitionEventsNow(config, Last(tidy), n, supplied, cause, batch, now, View(), run.log[|tidy.log|..], out);
      EventsClock(tidy, run, run.log[|tidy.log|..], now);
      TidyQuiet(old(run), tidy, now);
      QuietTwice(old(run), tidy, run);
      TransitionReports(config, tidy, run, n, supplied, cause, batch, now, out);
    }

    // ----- Enqueueing -----

    /** Whether a live lease covers the request. */
    method StageNow(id: Identity, now: Time) returns (stage: Stage)
      ensures stage == StageOf(View(), id, now)
    {
      stage := if id in claims && claims[id].lease > now then StageClaimed else StageQueued;
    }

    method AppendWork(id: Identity, cancel: Digest, envelope: Envelope, now: Time) returns (request: QueuedRequest)
      requires id in reservations
      modifies `reservations, `queued, `queuedTokenDigests, `cancellationTokenDigests, `nodeQueues, `nextQueueSequence
      ensures WorkView() == EnqueueWork(old(WorkView()), id, cancel, envelope, now)
      ensures request.sequence == old(nextQueueSequence) + 1
    {
      var r := reservations[id];
      nextQueueSequence := nextQueueSequence + 1;
      request := QueuedRequest(id, r.node, r.fingerprint, r.deadline, envelope, now, nextQueueSequence);
      queued := queued[id := request];
      queuedTokenDigests := queuedTokenDigests[id := r.token];
      cancellationTokenDigests := cancellationTokenDigests[id := cancel];
      var queue := if r.node in nodeQueues then nodeQueues[r.node] else [];
      nodeQueues := nodeQueues[r.node := queue + [request]];
      reservations := reservations - {id};
    }

    method AppendRequest(id: Identity, cancel: Digest, envelope: Envelope, now: Time) returns (request: QueuedRequest)
      requires id in View().work.reservations
      modifies this
      ensures View() == old(View()).(work := EnqueueWork(old(View()).work, id, cancel, envelope, now))
      ensures request.sequence == old(View()).work.nextSequence + 1 && run == old(run)
    {
      hide WorkView, KeptView, LeasesView, FairnessView, FleetView, EnqueueWork;
      WorkFields();
      request := AppendWork(id, cancel, envelope, now);
    }

    /** The answer to an enqueue of a request that is already queued. */
    method EnqueueAgain(id: Identity, token: Digest, node: NodeId, fp: Fingerprint, deadline: Time, envelope: Envelope,
                        cancel: Digest, now: Time) returns (out: Outcome<EnqueueResult>)
      requires now < deadline && id !in View().kept.terminals && id in View().work.queued
      ensures Decision(out, []) == EnqueueCall(config, View(), id, token, node, fp, deadline, envelope, cancel, now)
    {
      hide WorkView, StageOf, QueueOf, QueueRoom;
      WorkFields();
      var existing := queued[id];
      if existing.fingerprint != fp || existing.deadline != deadline {
        return Raised(Conflict);
      }
      if existing.node != node || existing.envelope != envelope {
        return Raised(Conflict);
      }
      if id !in queuedTokenDigests || queuedTokenDigests[id] != token {
        return Raised(InvalidReservation);
      }
      if id !in cancellationTokenDigests || cancellationTokenDigests[id] != cancel {
        return Raised(Conflict);
      }
      var stage := StageNow(id, now);
      out := Ok(EnqueueResult(stage, existing.node, existing.deadline, existing.sequence, false));
    }

    /** Whether the reservation admits this request into its node's queue. */
    method AdmitEnqueue(id: Identity, token: Digest, node: NodeId, fp: Fingerprint, deadline: Time, cancel: Digest,
                        now: Time) returns (refusal: Option<Error>)
      requires deadline <= now + config.maxRequestTtl
      ensures now < deadline && id !in View().kept.terminals && id !in View().work.queued ==>
                forall envelope ::
                  var d := EnqueueCall(config, View(), id, token, node, fp, deadline, envelope, cancel, now);
                  if refusal.Some? then d == Refuse(refusal.value)
                  else d == Decision(Ok(EnqueueResult(StageQueued, node, deadline, View().work.nextSequence + 1, true)),
                                     [Enqueue(id, cancel, envelope, now)])
    {
      hide WorkView, FleetView, StageOf;
      WorkFields();
      FleetFields();
      if id !in reservations {
        return Some(InvalidReservation);
      }
      var r := reservations[id];
      if r.node !in records || records[r.node].leaseExpiry <= now || r.node in pendingNodeTransitions {
        return Some(InvalidReservation);
      }
      if r.fingerprint != fp || r.deadline != deadline {
        return Some(Conflict);
      }
      if id in cancellationTokenDigests && cancellationTokenDigests[id] != cancel {
        return Some(Conflict);
      }
      if r.node != node || r.token != token {
        return Some(InvalidReservation);
      }
      var depth := if node in nodeQueues then |nodeQueues[node]| else 0;
      if depth >= config.maxQueueDepthPerNode {
        return Some(NoCapacity);
      }
      if |queued| >= config.maxQueued || |OfClient(queued.Keys, id.client)| >= config.maxQueuedPerClient {
        return Some(NoCapacity);
      }
      refusal := None;
    }

    method EnqueueLocked(id: Identity, token: Digest, node: NodeId, fp: Fingerprint, deadline: Time, envelope: Envelope,
                         cancel: Digest, now: Time) returns (out: Outcome<EnqueueResult>)
      requires Valid()
      modifies this
      ensures Valid()
      ensures var d := EnqueueCall(config, old(View()), id, token, node, fp, deadline, envelope, cancel, now);
              out == d.outcome && Continues(old(run), run, d.events)
    {
      hide IsRun, View, WorkView, KeptView, Enabled, Apply, StageOf, QueueOf, QueueRoom, EnqueueWork;
      WorkFields();
      KeptFields();
      if deadline <= now {
        return Raised(InvalidReservation);
      }
      if id in terminals {
        return Raised(Conflict);
      }
      if id in queued {
        out := EnqueueAgain(id, token, node, fp, deadline, envelope, cancel, now);
        return;
      }
      if deadline > now + config.maxRequestTtl {
        return Raised(InvalidArgument);
      }
      var refusal := AdmitEnqueue(id, token, node, fp, deadline, cancel, now);
      if refusal.Some? {
        return Raised(refusal.value);
      }
      EnqueueEnabled(config, View(), id, token, node, fp, deadline, envelope, cancel, now);
      EnqueueEvent(config, View(), id, cancel, envelope, now);
      var request := AppendRequest(id, cancel, envelope, now);
      Record(Enqueue(id, cancel, envelope, now));
      out := Ok(EnqueueResult(StageQueued, node, deadline, request.sequence, true));
    }

    /** Exchange a reservation for a place in its node's queue. */
    method EnqueueEncryptedRequest(id: Identity, token: Digest, node: NodeId, fp: Fingerprint, deadline: Time,
                                   envelope: Envelope, cancel: Digest, now: Time)
      returns (out: Outcome<EnqueueResult>, ghost tidy: Run)
      requires Valid()
      modifies this
      ensures Valid() && SettledBy(config, old(run), tidy, now) && RoomClears(config, old(View()), Last(tidy), now)
      ensures Performed(config, tidy, run, now, out,
                        EnqueueCall(config, Last(tidy), id, token, node, fp, deadline, envelope, cancel, now))
      ensures !(out.Ok? && out.value.created) ==> run == tidy
      ensures ClockKept(old(run), run, now)
      ensures Outcomes(old(run), run) == 0 <==> !ReapConcludes(config, old(View()), now)
    {
      hide IsRun, View, Stuck, Settled, Housekept, RoomClears, EnqueueCall,
           ReapConcludes, OverdueExpires, Quiet, Outcomes, Conclusions;
      var done := ReapLocked(now);
      tidy := run;
      HousekeptClock(config, old(run), tidy, now);
      TidyQuiet(old(run), tidy, now);
      if !done {
        return Raised(CapacityExceeded), tidy;
      }
      SettledIsNotStuck(config, View(), now);
      out := EnqueueLocked(id, token, node, fp, deadline, envelope, cancel, now);
      CallDone(config, old(run), tidy, run, now, out,
               EnqueueCall(config, Last(tidy), id, token, node, fp, deadline, envelope, cancel, now));
      EnqueueConcludesNothing(config, Last(tidy), id, token, node, fp, deadline, envelope, cancel, now);
      ReportIff(config, old(run), tidy, run, now, out,
                EnqueueCall(config, Last(tidy), id, token, node, fp, deadline, envelope, cancel, now),
                ReapConcludes(config, old(View()), now));
    }

    // ----- Claims -----

    /** The earliest request of the queue that may be claimed. */
    method ScanQueue(queue: seq<QueuedRequest>, now: Time) returns (first: Option<QueuedRequest>)
      ensures first == FirstClaimable(queue, claims, now)
    {
      for i := 0 to |queue|
        invariant FirstClaimable(queue, claims, now) == FirstClaimable(queue[i..], claims, now)
      {
        var q := queue[i];
        if q.deadline <= now {
          continue;
        }
        if q.id in claims && claims[q.id].lease > now {
          continue;
        }
        return Some(q);
      }
      first := None;
    }

    method HasRoomToClaim(n: NodeId, now: Time) returns (room: bool)
      ensures room <==> ClaimRoom(config, claims, n, now)
    {
      var active := set id | id in claims && claims[id].lease > now;
      var onNode := set id | id in active && claims[id].node == n;
      assert active == LiveClaims(claims, now) && onNode == LiveClaimsOn(claims, n, now);
      room := |active| < config.maxClaims && |onNode| < config.maxClaimsPerNode;
    }

    method IssueClaim(q: QueuedRequest, owner: Digest, consumer: Digest, now: Time) returns (claim: Claim)
      modifies this
      ensures claim == ClaimOn(config, q, owner, consumer, old(View()).leases.nextGeneration + 1, now)
      ensures View() == old(View()).(leases := Leases(old(View()).leases.claims[q.id := claim],
                                                      old(View()).leases.nextGeneration + 1))
      ensures run == old(run)
    {
      hide WorkView, KeptView, FairnessView, FleetView;
      nextClaimGeneration := nextClaimGeneration + 1;
      var lease := Min(now + config.claimTtl, q.deadline);
      claim := Claim(consumer, q.node, owner, q.deadline, q.envelope, q.sequence, nextClaimGeneration, lease);
      claims := claims[q.id := claim];
    }

    method ClaimLocked(n: NodeId, owner: Digest, consumer: Digest, now: Time) returns (out: Outcome<ClaimResult>)
      requires Valid()
      modifies this
      ensures Valid()
      ensures var d := ClaimCall(config, old(View()), n, owner, consumer, now);
              out == d.outcome && Continues(old(run), run, d.events)
    {
      hide IsRun, Consistent, Bounded, View, WorkView, LeasesView, FleetView, Enabled, Apply, FirstClaimable, ClaimRoom;
      WorkFields();
      LeaseFields();
      FleetFields();
      if n !in records || records[n].credential != owner {
        return Raised(CredentialMismatch);
      }
      var first := ScanQueue(if n in nodeQueues then nodeQueues[n] else [], now);
      if first.None? {
        return Ok(Empty);
      }
      var room := HasRoomToClaim(n, now);
      if !room {
        return Raised(CapacityExceeded);
      }
      var q := first.value;
      ValidInv();
      FirstIsQueuedOn(config, View(), n, now);
      ClaimsAreFifo(config, View(), n, owner, consumer, now);
      ClaimEvent(config, View(), q.id, consumer, now);
      var reclaimed := q.id in claims;
      var claim := IssueClaim(q, owner, consumer, now);
      Record(TakeClaim(q.id, consumer, now));
      out := Ok(Granted(reclaimed, claim.generation, claim.lease, claim.deadline, q.id, q.envelope));
    }

    /** Lease the earliest claimable request of the node to a consumer. */
    method ClaimQueuedRequest(n: NodeId, owner: Digest, consumer: Digest, now: Time)
      returns (out: Outcome<ClaimResult>, ghost tidy: Run)
      requires Valid()
      modifies this
      ensures Valid() && SettledBy(config, old(run), tidy, now) && RoomClears(config, old(View()), Last(tidy), now)
      ensures Performed(config, tidy, run, now, out, ClaimCall(config, Last(tidy), n, owner, consumer, now))
      ensures out.Ok? && out.value.Granted? ==> HoldsClaim(View(), n, owner, consumer, out.value)
      ensures !(out.Ok? && out.value.Granted?) ==> run == tidy
      ensures ClockKept(old(run), run, now)
      ensures Outcomes(old(run), run) == 0 <==> !ReapConcludes(config, old(View()), now)
    {
      hide IsRun, View, Stuck, Settled, Housekept, RoomClears, ClaimCall, HoldsClaim,
           ReapConcludes, OverdueExpires, Quiet, Outcomes, Conclusions;
      var done := ReapLocked(now);
      tidy := run;
      HousekeptClock(config, old(run), tidy, now);
      TidyQuiet(old(run), tidy, now);
      if !done {
        return Raised(CapacityExceeded), tidy;
      }
      SettledIsNotStuck(config, View(), now);
      out := ClaimLocked(n, owner, consumer, now);
      CallDone(config, old(run), tidy, run, now, out, ClaimCall(config, Last(tidy), n, owner, consumer, now));
      if out.Ok? && out.value.Granted? {
        GrantHolds(config, tidy, run, n, owner, consumer, now);
      }
      ClaimConcludesNothing(config, Last(tidy), n, owner, consumer, now);
      ReportIff(config, old(run), tidy, run, now, out, ClaimCall(config, Last(tidy), n, owner, consumer, now),
                ReapConcludes(config, old(View()), now));
    }

    method ExtendLease(id: Identity, now: Time) returns (lease: Time)
      requires id in View().leases.claims
      modifies this
      ensures lease == Min(now + config.claimTtl, old(View()).leases.claims[id].deadline)
      ensures View() == old(View()).(leases := old(View()).leases.(claims :=
                          old(View()).leases.claims[id := old(View()).leases.claims[id].(lease := lease)]))
      ensures run == old(run)
    {
      hide WorkView, KeptView, FairnessView, FleetView;
      lease := Min(now + config.claimTtl, claims[id].deadline);
      claims := claims[id := claims[id].(lease := lease)];
    }

    method AcknowledgeControl(id: Identity)
      requires id in View().kept.controls
      modifies this
      ensures View() == old(View()).(kept := old(View()).kept.(controls :=
                          old(View()).kept.controls[id := old(View()).kept.controls[id].(acknowledged := true)]))
      ensures run == old(run)
    {
      hide WorkView, LeasesView, FairnessView, FleetView;
      controlTombstones := controlTombstones[id := controlTombstones[id].(acknowledged := true)];
    }

    /** Read, and if asked acknowledge, the stop instruction for a request that is over. */
    method ReadControl(n: NodeId, owner: Digest, consumer: Digest, id: Identity, generation: nat, acknowledge: bool,
                       now: Time) returns (result: RenewalResult)
      requires Valid() && id in View().kept.controls
      modifies this
      ensures Valid()
      ensures var d := RenewClaimCall(config, old(View()), n, owner, consumer, id, generation, acknowledge, now);
              Ok(result) == d.outcome && Continues(old(run), run, d.events)
    {
      hide IsRun, View, KeptView, Enabled, Apply;
      KeptFields();
      var tombstone := controlTombstones[id];
      if !(tombstone.node == n && tombstone.generation == generation
           && tombstone.credential == owner && tombstone.consumer == consumer)
      {
        return OwnerMismatch;
      }
      if acknowledge && !tombstone.acknowledged {
        AckControlEvent(config, View(), id, now);
        AcknowledgeControl(id);
        Record(AckControl(id, now));
        tombstone := tombstone.(acknowledged := true);
      }
      result := Stop(tombstone.acknowledged, generation, tombstone.verdict, tombstone.reason);
    }

    method RenewClaimLocked(n: NodeId, owner: Digest, consumer: Digest, id: Identity, generation: nat, acknowledge: bool,
                            now: Time) returns (result: RenewalResult)
      requires Valid()
      modifies this
      ensures Valid()
      ensures var d := RenewClaimCall(config, old(View()), n, owner, consumer, id, generation, acknowledge, now);
              Ok(result) == d.outcome && Continues(old(run), run, d.events)
    {
      hide IsRun, Consistent, Bounded, View, KeptView, LeasesView, FleetView, Enabled, Apply, LiveOwnedClaim;
      KeptFields();
      LeaseFields();
      FleetFields();
      if id in controlTombstones {
        result := ReadControl(n, owner, consumer, id, generation, acknowledge, now);
        return;
      }
      if n !in records || records[n].credential != owner {
        return OwnerMismatch;
      }
      if id !in claims || claims[id].deadline <= now {
        return MissingOrExpired;
      }
      var claim := claims[id];
      if claim.generation != generation {
        return StaleGeneration(claim.generation);
      }
      if claim.node != n || claim.consumer != consumer {
        return OwnerMismatch;
      }
      if claim.lease <= now {
        return MissingOrExpired;
      }
      ValidInv();
      ContinuedIff(config, View(), n, owner, consumer, id, generation, acknowledge, now);
      RenewClaimEvent(config, View(), id, generation, now);
      var lease := ExtendLease(id, now);
      Record(RenewClaim(id, generation, now));
      result := Continued(generation, lease);
    }

    /** Renew a live claim, or read the stop instruction that has replaced it. */
    method RenewClaimOrReadControl(n: NodeId, owner: Digest, consumer: Digest, id: Identity, generation: nat,
                                   acknowledge: bool, now: Time)
      returns (out: Outcome<RenewalResult>, ghost tidy: Run)
      requires Valid()
      modifies this
      ensures Valid() && SettledBy(config, old(run), tidy, now) && RoomClears(config, old(View()), Last(tidy), now)
      ensures Performed(config, tidy, run, now, out,
                        RenewClaimCall(config, Last(tidy), n, owner, consumer, id, generation, acknowledge, now))
      ensures (!(out.Ok? && (out.value.Continued? || (out.value.Stop? && acknowledge)))) ==> run == tidy
      ensures ClockKept(old(run), run, now)
      ensures Outcomes(old(run), run) == 0 <==> !ReapConcludes(config, old(View()), now)
    {
      hide IsRun, View, Stuck, Settled, Housekept, RoomClears, RenewClaimCall,
           ReapConcludes, OverdueExpires, Quiet, Outcomes, Conclusions;
      var done := ReapLocked(now);
      tidy := run;
      HousekeptClock(config, old(run), tidy, now);
      TidyQuiet(old(run), tidy, now);
      if !done {
        return Raised(CapacityExceeded), tidy;
      }
      SettledIsNotStuck(config, View(), now);
      var result := RenewClaimLocked(n, owner, consumer, id, generation, acknowledge, now);
      out := Ok(result);
      CallDone(config, old(run), tidy, run, now, out,
               RenewClaimCall(config, Last(tidy), n, owner, consumer, id, generation, acknowledge, now));
      RenewClaimConcludesNothing(config, Last(tidy), n, owner, consumer, id, generation, acknowledge, now);
      ReportIff(config, old(run), tidy, run, now, out,
                RenewClaimCall(config, Last(tidy), n, owner, consumer, id, generation, acknowledge, now),
                ReapConcludes(config, old(View()), now));
    }

    // ----- Responses -----

    method HasRoomForResponse(client: Digest) returns (room: bool)
      ensures room <==> ResponseRoom(config, KeptView(), client)
    {
      room := && |responses| < config.maxResponses
              && |OfClient(responses.Keys, client)| < config.maxResponsesPerClient
              && |terminals| < config.maxTerminals
              && |OfClient(terminals.Keys, client)| < config.maxTerminalsPerClient;
    }

    method WriteResponse(id: Identity, envelope: Envelope, now: Time)
      requires id in claims && id in queued && id in queuedTokenDigests && id in cancellationTokenDigests
      modifies `responses, `terminals
      ensures KeptView() == Kept(old(responses)[id := ResponseTo(config, claims[id], envelope, now)],
                                 old(terminals)[id := CompletedBy(config, WorkView(), id, claims[id], envelope, now)],
                                 old(controlTombstones))
    {
      var claim := claims[id];
      var replay := now + config.replayTtl;
      responses := responses[id := Response(claim.node, claim.consumer, claim.generation, envelope, now, replay)];
      terminals := terminals[id := Terminal(
        claim.node, Some(claim.credential), Some(claim.consumer), claim.generation, Some(envelope),
        now, replay, now + config.terminalRetention, Completed, ResponseReady,
        Some(queuedTokenDigests[id]), Some(AckToken(id, now, envelope)),
        ResponseCompleted, Some(cancellationTokenDigests[id]))];
    }

    method FinishQueued(id: Identity)
      requires id in queued && id !in reservations
      modifies `queued, `queuedTokenDigests, `cancellationTokenDigests, `nodeQueues, `claims, `nodeWorkIdentities
      ensures WorkView() == RemoveWork(old(WorkView()), id) && claims == old(claims) - {id}
    {
      RemoveQueuedIdentity(id, queued[id]);
    }

    method CompleteRequest(id: Identity, envelope: Envelope, now: Time)
      requires id in View().leases.claims && id in View().work.queued && id !in View().work.reservations
      requires id in View().work.queuedTokens && id in View().work.cancelTokens
      modifies this
      ensures var s := old(View());
              View() == s.(work := RemoveWork(s.work, id),
                           leases := s.leases.(claims := s.leases.claims - {id}),
                           kept := KeptAnswer(config, s, id, envelope, now))
      ensures run == old(run)
    {
      hide WorkView, LeasesView, KeptView, FairnessView, FleetView, RemoveWork, ResponseTo, CompletedBy;
      WorkFields();
      LeaseFields();
      KeptFields();
      WriteResponse(id, envelope, now);
      FinishQueued(id);
      LeaseFields();
    }

    method AcceptLocked(n: NodeId, owner: Digest, consumer: Digest, id: Identity, generation: nat, envelope: Envelope,
                        now: Time) returns (out: Outcome<Acceptance>)
      requires Valid()
      modifies this
      ensures Valid()
      ensures var d := AcceptCall(config, old(View()), n, owner, consumer, id, generation, envelope, now);
              out == d.outcome && Continues(old(run), run, d.events)
    {
      hide IsRun, Consistent, Bounded, View, WorkView, KeptView, LeasesView, FleetView, Enabled, Apply, LiveOwnedClaim, ResponseRoom;
      KeptFields();
      LeaseFields();
      FleetFields();
      WorkFields();
      if id in terminals {
        var terminal := terminals[id];
        if && terminal.node == n && terminal.generation == generation && terminal.credential == Some(owner)
           && terminal.consumer == Some(consumer) && terminal.response == Some(envelope)
        {
          return Ok(Acceptance(terminal.generation, terminal.acceptedAt, terminal.replayExpiry, false));
        }
        return Raised(Conflict);
      }
      if n !in records || records[n].credential != owner {
        return Raised(CredentialMismatch);
      }
      if id !in claims || claims[id].generation != generation {
        return Raised(Conflict);
      }
      var claim := claims[id];
      if claim.node != n || claim.consumer != consumer {
        return Raised(CredentialMismatch);
      }
      if claim.lease <= now || claim.deadline <= now {
        return Raised(Conflict);
      }
      if id !in queued || queued[id].node != n {
        return Raised(Conflict);
      }
      var room := HasRoomForResponse(id.client);
      if !room {
        return Raised(CapacityExceeded);
      }
      ValidInv();
      HeldOnce(config, View(), id);
      NewOutcomeIff(config, View(), n, owner, consumer, id, generation, envelope, now);
      AcceptEvent(config, View(), id, generation, envelope, now);
      CompleteRequest(id, envelope, now);
      Record(Accept(id, generation, envelope, now));
      out := Ok(Acceptance(generation, now, now + config.replayTtl, true));
    }

    /** Finalize the exact live claim with one response, or answer its exact retry. */
    method AcceptEncryptedResponse(n: NodeId, owner: Digest, consumer: Digest, id: Identity, generation: nat,
                                   envelope: Envelope, now: Time)
      returns (out: Outcome<Acceptance>, ghost tidy: Run)
      requires Valid()
      modifies this
      ensures Valid() && SettledBy(config, old(run), tidy, now) && RoomClears(config, old(View()), Last(tidy), now)
      ensures Performed(config, tidy, run, now, out,
                        AcceptCall(config, Last(tidy), n, owner, consumer, id, generation, envelope, now))
      ensures !(out.Ok? && out.value.newOutcome) ==> run == tidy
      ensures ClockKept(old(run), run, now)
      ensures (Outcomes(old(run), run) == if out.Ok? && out.value.newOutcome then 1 else 0)
              <==> !ReapConcludes(config, old(View()), now)
    {
      hide IsRun, View, Stuck, Settled, Housekept, RoomClears, AcceptCall,
           ReapConcludes, OverdueExpires, Quiet, Outcomes, Conclusions;
      var done := ReapLocked(now);
      tidy := run;
      HousekeptClock(config, old(run), tidy, now);
      TidyQuiet(old(run), tidy, now);
      if !done {
        return Raised(CapacityExceeded), tidy;
      }
      SettledIsNotStuck(config, View(), now);
      out := AcceptLocked(n, owner, consumer, id, generation, envelope, now);
      CallDone(config, old(run), tidy, run, now, out,
               AcceptCall(config, Last(tidy), n, owner, consumer, id, generation, envelope, now));
      AcceptReportsOwn(config, Last(tidy), n, owner, consumer, id, generation, envelope, now);
      ReportIff(config, old(run), tidy, run, now, out,
                AcceptCall(config, Last(tidy), n, owner, consumer, id, generation, envelope, now),
                ReapConcludes(config, old(View()), now));
    }

    method AcknowledgeResponse(id: Identity)
      requires id in View().kept.terminals
      modifies this
      ensures var k := old(View()).kept;
              View() == old(View()).(kept := k.(responses := k.responses - {id},
                                                terminals := k.terminals[id := k.terminals[id].(retrieval := Acknowledged)]))
      ensures run == old(run)
    {
      hide WorkView, LeasesView, FairnessView, FleetView;
      responses := responses - {id};
      terminals := terminals[id := terminals[id].(retrieval := Acknowledged)];
    }

    method RetrieveLocked(id: Identity, credential: Option<Digest>, supplied: SuppliedAck, now: Time)
      returns (result: RetrievalResult)
      requires Valid()
      modifies this
      ensures Valid()
      ensures var d := RetrieveCall(old(View()), id, credential, supplied, now);
              Ok(result) == d.outcome && Continues(old(run), run, d.events)
    {
      hide IsRun, Consistent, Bounded, View, KeptView, Enabled, Apply;
      KeptFields();
      ValidInv();
      ReadyHasResponse(config, View(), id);
      if id !in terminals {
        return InvalidCredential;
      }
      var terminal := terminals[id];
      if credential.None? || terminal.retrievalCredential != credential {
        return InvalidCredential;
      }
      if terminal.retrieval != ResponseReady {
        if terminal.retrieval == Acknowledged && supplied != NoAck
           && !(supplied.Ack? && terminal.acknowledgement == Some(supplied.token))
        {
          return InvalidAcknowledgement;
        }
        return Closed(terminal.retrieval);
      }
      // A ready record always has its response, so there is nothing to repair here.
      var response := responses[id];
      var token := AckToken(id, terminal.acceptedAt, terminal.response.value);
      if supplied.NoAck? {
        return Ready(response.envelope, token, response.replayExpiry);
      }
      if !(terminal.acknowledgement == Some(token) && supplied.Ack? && terminal.acknowledgement == Some(supplied.token)) {
        return InvalidAcknowledgement;
      }
      AckResponseEvent(config, View(), id, now);
      AcknowledgeResponse(id);
      Record(AckResponse(id, now));
      result := Closed(Acknowledged);
    }

    /** Serve the response to the holder of the reservation token, or acknowledge it. */
    method RetrieveEncryptedResponse(id: Identity, credential: Option<Digest>, supplied: SuppliedAck, now: Time)
      returns (out: Outcome<RetrievalResult>, ghost tidy: Run)
      requires Valid()
      modifies this
      ensures Valid() && SettledBy(config, old(run), tidy, now) && RoomClears(config, old(View()), Last(tidy), now)
      ensures Performed(config, tidy, run, now, out, RetrieveCall(Last(tidy), id, credential, supplied, now))
      ensures (supplied.NoAck? || out != Ok(Closed(Acknowledged))) ==> run == tidy
      ensures ClockKept(old(run), run, now)
      ensures Outcomes(old(run), run) == 0 <==> !ReapConcludes(config, old(View()), now)
    {
      hide IsRun, View, Stuck, Settled, Housekept, RoomClears, RetrieveCall,
           ReapConcludes, OverdueExpires, Quiet, Outcomes, Conclusions;
      var done := ReapLocked(now);
      tidy := run;
      HousekeptClock(config, old(run), tidy, now);
      TidyQuiet(old(run), tidy, now);
      if !done {
        return Raised(CapacityExceeded), tidy;
      }
      SettledIsNotStuck(config, View(), now);
      var result := RetrieveLocked(id, credential, supplied, now);
      out := Ok(result);
      CallDone(config, old(run), tidy, run, now, out, RetrieveCall(Last(tidy), id, credential, supplied, now));
      RetrievalConcludesNothing(Last(tidy), id, credential, supplied, now);
      ReportIff(config, old(run), tidy, run, now, out, RetrieveCall(Last(tidy), id, credential, supplied, now),
                ReapConcludes(config, old(View()), now));
    }

    // ----- Cancelling -----

    method ConcludeLocked(id: Identity, expire: bool, now: Time) returns (done: bool)
      requires Valid() && Held(View().work, id) && (expire ==> DeadlineOf(View().work, id) <= now)
      modifies this
      ensures Valid()
      ensures done <==> CanTerminalize(config, old(View()), id, if expire then Expired else Cancelled, false, now)
      ensures Continues(old(run), run,
                        if !done then [] else if expire then [StoreState.Expire(id, now)] else [Cancel(id, now)])
    {
      hide IsRun, Consistent, Bounded, View, Held, DeadlineOf, CanTerminalize, Terminalize, Enabled, Apply;
      ValidInv();
      HeldOnce(config, View(), id);
      ConcludeEvents(config, View(), id, now);
      done := ConcludeNow(id, expire, now);
      if done {
        Record(if expire then StoreState.Expire(id, now) else Cancel(id, now));
      }
    }

    method ConcludeNow(id: Identity, expire: bool, now: Time) returns (done: bool)
      requires Held(View().work, id)
      requires !(id in View().work.reservations && id in View().work.queued)
      requires id in View().leases.claims ==> id in View().work.queued
      modifies this
      ensures done <==> CanTerminalize(config, old(View()), id, if expire then Expired else Cancelled, false, now)
      ensures View() == if !done then old(View())
                        else if expire then Terminalize(config, old(View()), id, Expired, DeadlineExpired, false, now)
                        else Terminalize(config, old(View()), id, Cancelled, RequesterCancelled, false, now)
      ensures run == old(run)
    {
      hide View, WorkView, LeasesView, KeptView, FleetView, FairnessView, Held, CanTerminalize, Terminalize;
      WorkFields();
      LeaseFields();
      if expire {
        done := TerminalizeLocked(id, Expired, DeadlineExpired, now, false);
      } else {
        done := TerminalizeLocked(id, Cancelled, RequesterCancelled, now, false);
      }
    }

    method CancelLocked(id: Identity, token: Option<Digest>, expire: bool, now: Time) returns (out: Outcome<Conclusion>)
      requires Valid()
      modifies this
      ensures Valid()
      ensures var d := CancelCall(config, old(View()), id, token, expire, now);
              out == d.outcome && Continues(old(run), run, d.events)
    {
      hide IsRun, View, WorkView, KeptView, CanTerminalize;
      WorkFields();
      KeptFields();
      if id in terminals {
        if !expire && (token.None? || terminals[id].cancelToken != token) {
          return Ok(InvalidProof);
        }
        return Ok(Concluded(terminals[id].verdict, terminals[id].reason, false));
      }
      if !expire && (id !in cancellationTokenDigests || token != Some(cancellationTokenDigests[id])) {
        return Ok(InvalidProof);
      }
      if id !in reservations && id !in queued {
        return Ok(InvalidProof);
      }
      if expire && (if id in reservations then reservations[id].deadline else queued[id].deadline) > now {
        return Ok(NotExpired);
      }
      var done := ConcludeLocked(id, expire, now);
      if !done {
        return Raised(CapacityExceeded);
      }
      out := Ok(if expire then Concluded(Expired, DeadlineExpired, true) else Concluded(Cancelled, RequesterCancelled, true));
    }

    /** Cancel live work for the holder of its token, or expire it once its deadline has passed. */
    method CancelOrExpireRequest(id: Identity, token: Option<Digest>, expire: bool, now: Time)
      returns (out: Outcome<Conclusion>, ghost tidy: Run)
      requires Valid()
      modifies this
      ensures Valid() && SettledBy(config, old(run), tidy, now) && RoomClears(config, old(View()), Last(tidy), now)
      ensures Performed(config, tidy, run, now, out, CancelCall(config, Last(tidy), id, token, expire, now))
      ensures !(out.Ok? && out.value.Concluded? && out.value.newOutcome) ==> run == tidy
      ensures ClockKept(old(run), run, now)
      ensures (Outcomes(old(run), run) == if out.Ok? && out.value.Concluded? && out.value.newOutcome then 1 else 0)
              <==> !ReapConcludes(config, old(View()), now)
    {
      hide IsRun, View, Stuck, Settled, Housekept, RoomClears, CancelCall,
           ReapConcludes, OverdueExpires, Quiet, Outcomes, Conclusions;
      var done := ReapLocked(now);
      tidy := run;
      HousekeptClock(config, old(run), tidy, now);
      TidyQuiet(old(run), tidy, now);
      if !done {
        return Raised(CapacityExceeded), tidy;
      }
      SettledIsNotStuck(config, View(), now);
      out := CancelLocked(id, token, expire, now);
      CallDone(config, old(run), tidy, run, now, out, CancelCall(config, Last(tidy), id, token, expire, now));
      CancelReportsOwn(config, Last(tidy), id, token, expire, now);
      ReportIff(config, old(run), tidy, run, now, out, CancelCall(config, Last(tidy), id, token, expire, now),
                ReapConcludes(config, old(View()), now));
    }

    // ----- Selecting -----

    /** The answer to a selection that needs no scheduling; `None`: schedule. */
    method KnownSelection(id: Identity, fp: Fingerprint, deadline: Time, cancel: Option<Digest>, now: Time)
      returns (known: Option<Outcome<Selection>>)
      ensures known == SelectKnown(config, View(), id, fp, deadline, cancel, now)
    {
      hide WorkView, KeptView, View, StageOf;
      WorkFields();
      KeptFields();
      if deadline <= now {
        return Some(Raised(InvalidReservation));
      }
      if deadline > now + config.maxRequestTtl {
        return Some(Raised(InvalidArgument));
      }
      if id in terminals {
        return Some(Raised(Conflict));
      }
      if id in queued {
        var request := queued[id];
        if request.fingerprint != fp || request.deadline != deadline {
          return Some(Raised(Conflict));
        }
        if id in cancellationTokenDigests && cancel.Some? && cancellationTokenDigests[id] != cancel.value {
          return Some(Raised(Conflict));
        }
        var stage := StageNow(id, now);
        return Some(Ok(Selection(request.node, fp, deadline, None, None, false, stage)));
      }
      if id in reservations {
        var existing := reservations[id];
        if existing.fingerprint != fp || existing.deadline != deadline {
          return Some(Raised(Conflict));
        }
        if id in cancellationTokenDigests && (cancel.None? || cancellationTokenDigests[id] != cancel.value) {
          return Some(Raised(Conflict));
        }
        return Some(Ok(Selection(existing.node, fp, deadline, Some(existing.expiry), None, false, StageReserved)));
      }
      var lifecycles := |OfClient(reservations.Keys, id.client)| + |OfClient(queued.Keys, id.client)|;
      if |reservations| >= config.maxReservations || |reservations| + |queued| >= config.maxLifecycles
         || lifecycles >= config.maxReservationsPerClient
      {
        return Some(Raised(NoCapacity));
      }
      known := None;
    }

    method LoadOf(n: NodeId) returns (reserved: nat, waiting: nat, load: nat)
      requires n in schedulerStates
      ensures reserved == |ReservedOn(View().work.reservations, n)| && waiting == |QueueOf(View().work, n)|
      ensures n in View().fleet.scheduler && load == Load(View(), n)
    {
      reserved := |ReservedOn(reservations, n)|;
      waiting := if n in nodeQueues then |nodeQueues[n]| else 0;
      load := reserved + waiting + schedulerStates[n].claimedWork;
    }

    method IsEligible(n: NodeId, fp: Fingerprint) returns (eligible: bool)
      requires n in records && n in schedulerStates
      ensures eligible <==> Eligible(config, View(), fp, n)
    {
      hide View, WorkView, FleetView, Load, QueueOf, ReservedOn;
      FleetFields();
      var caps, state := records[n].capabilities, schedulerStates[n];
      if fp.model !in caps.models || caps.tier.Tokens() < fp.tier.Tokens() || caps.contextTokens < fp.tier.Tokens()
         || !state.healthy || state.draining
      {
        return false;
      }
      var reserved, waiting, load := LoadOf(n);
      if load >= caps.maxConcurrency || reserved >= config.maxReservationsPerNode
         || reserved + waiting >= config.maxQueueDepthPerNode
      {
        return false;
      }
      eligible := true;
    }

    /** The serving tier and the load of every node that can take the request. */
    method EligibleNodes(fp: Fingerprint) returns (tiers: map<NodeId, nat>, loads: map<NodeId, nat>)
      requires schedulerStates.Keys == records.Keys
      ensures tiers.Keys == loads.Keys == set n | n in View().fleet.nodes && Eligible(config, View(), fp, n)
      ensures forall n | n in tiers ::
                && n in View().fleet.nodes && n in View().fleet.scheduler
                && tiers[n] == TierOf(View(), n) && loads[n] == Load(View(), n)
    {
      hide View, FleetView, Eligible, Load;
      FleetFields();
      tiers, loads := map[], map[];
      var todo := records.Keys;
      while todo != {}
        invariant todo <= records.Keys
        invariant tiers.Keys == loads.Keys == set n | n in records && n !in todo && Eligible(config, View(), fp, n)
        invariant forall n | n in tiers ::
                    && n in records && tiers[n] == TierOf(View(), n) && loads[n] == Load(View(), n)
        decreases |todo|
      {
        var n :| n in todo;
        todo := todo - {n};
        var eligible := IsEligible(n, fp);
        if eligible {
          var _, _, load := LoadOf(n);
          tiers := tiers[n := records[n].capabilities.tier.Tokens()];
          loads := loads[n := load];
        }
      }
    }

    /** The nodes with the smallest key. */
    static method Least(nodes: set<NodeId>, key: map<NodeId, nat>) returns (least: set<NodeId>)
      requires nodes != {} && nodes <= key.Keys
      ensures least == set n | n in nodes && forall m | m in nodes :: key[n] <= key[m]
      ensures least != {}
    {
      var best :| best in nodes;
      var todo := nodes - {best};
      while todo != {}
        invariant todo <= nodes && best in nodes
        invariant forall n | n in nodes && n !in todo :: key[best] <= key[n]
        decreases |todo|
      {
        var n :| n in todo;
        todo := todo - {n};
        if key[n] < key[best] {
          best := n;
        }
      }
      least := set n | n in nodes && key[n] == key[best];
    }

    /** The first of the nodes after `cursor` in registration order, or the first of all. */
    static method FirstAfter(nodes: set<NodeId>, order: map<NodeId, nat>, cursor: int) returns (n: NodeId)
      requires nodes != {} && nodes <= order.Keys
      ensures NextInOrder(order, nodes, cursor, n)
    {
      n :| n in nodes;
      var todo := nodes - {n};
      while todo != {}
        invariant todo <= nodes && n in nodes
        invariant NextInOrder(order, nodes - todo, cursor, n)
        decreases |todo|
      {
        var m :| m in todo;
        todo := todo - {m};
        var before := if (order[n] > cursor) == (order[m] > cursor) then order[m] < order[n] else order[m] > cursor;
        if before {
          n := m;
        }
      }
      assert nodes - todo == nodes;
    }

    /** The cursor that must go to make room for `fp`, if any; no room if all are in use. */
    method CursorEvictionCandidate(fp: Fingerprint) returns (room: bool, victim: Option<Fingerprint>)
      ensures room ==> Evicts(config, View(), fp, victim)
      ensures !room ==> CursorsFull(config, View(), fp)
    {
      hide WorkView, FairnessView, ActiveFingerprint;
      FairnessFields();
      victim := None;
      if fp in fairnessCursors || |fairnessCursors| < config.maxFingerprints {
        return true, None;
      }
      var todo := fairnessCursors.Keys;
      while todo != {}
        invariant todo <= fairnessCursors.Keys
        invariant victim.Some? ==> victim.value in fairnessCursors && !ActiveFingerprint(View().work, victim.value)
        invariant forall f | f in fairnessCursors && f !in todo && !ActiveFingerprint(View().work, f) ::
                    victim.Some? && fairnessCursors[victim.value].activity <= fairnessCursors[f].activity
        decreases |todo|
      {
        var f :| f in todo;
        todo := todo - {f};
        var active := IsActive(f);
        if !active && (victim.None? || fairnessCursors[f].activity < fairnessCursors[victim.value].activity) {
          victim := Some(f);
        }
      }
      room := victim.Some?;
    }

    method IsActive(f: Fingerprint) returns (active: bool)
      ensures active <==> ActiveFingerprint(View().work, f)
    {
      hide WorkView;
      WorkFields();
      active := || (exists i :: i in reservations && reservations[i].fingerprint == f)
                || (exists i :: i in queued && queued[i].fingerprint == f);
    }

    /** The eligible nodes that tie for the smallest tier and, in it, the least load. */
    method TiedNodes(fp: Fingerprint) returns (tied: set<NodeId>)
      requires schedulerStates.Keys == records.Keys
      ensures if tied == {} then forall n | n in View().fleet.nodes :: !Eligible(config, View(), fp, n)
              else tied == Tied(config, View(), fp)
    {
      hide View, Eligible, TierOf, Load, Tied;
      var tiers, loads := EligibleNodes(fp);
      NothingEligible(config, View(), fp, tiers.Keys);
      if tiers.Keys == {} {
        return {};
      }
      var smallest := Least(tiers.Keys, tiers);
      tied := Least(smallest, loads);
      TiedIsLeastOfLeast(config, View(), fp, tiers, loads, smallest, tied);
    }

    method CursorPosition(fp: Fingerprint) returns (cursor: int)
      ensures cursor == CursorOrder(View(), fp)
    {
      cursor := -1;
      if fp in fairnessCursors && fairnessCursors[fp].node in registrationOrder {
        cursor := registrationOrder[fairnessCursors[fp].node];
      }
    }

    lemma OrderIsTotal()
      requires Valid()
      ensures schedulerStates.Keys == records.Keys && registrationOrder.Keys == records.Keys
      ensures View().fleet.nodes == records && View().fleet.order == registrationOrder
    {
      hide IsRun, Consistent, Bounded, WorkInv, FleetInv, View, FleetView;
      ValidInv();
      InvSaysFleet(config, View());
      FleetFields();
      FleetKeys(View().fleet);
    }

    /** The least loaded node of the smallest tier that can serve, taken in turn among equals. */
    method SelectNode(fp: Fingerprint) returns (selected: Option<NodeId>)
      requires Valid()
      ensures if selected.Some? then Selected(config, View(), fp, selected.value)
              else forall n | n in View().fleet.nodes :: !Eligible(config, View(), fp, n)
    {
      hide IsRun, View, Eligible, NextInOrder, Tied, CursorOrder;
      OrderIsTotal();
      var tied := TiedNodes(fp);
      if tied == {} {
        return None;
      }
      TiedIsRegistered(config, View(), fp);
      var cursor := CursorPosition(fp);
      var n := FirstAfter(tied, registrationOrder, cursor);
      selected := Some(n);
    }

    method AddReservation(id: Identity, r: Reservation, cancel: Option<Digest>)
      modifies `reservations, `nodeWorkIdentities, `cancellationTokenDigests
      ensures WorkView() == ReserveWork(old(WorkView()), id, r, cancel)
    {
      reservations := reservations[id := r];
      var ids := if r.node in nodeWorkIdentities then nodeWorkIdentities[r.node] else {};
      nodeWorkIdentities := nodeWorkIdentities[r.node := ids + {id}];
      if cancel.Some? {
        cancellationTokenDigests := cancellationTokenDigests[id := cancel.value];
      }
    }

    method MoveCursor(fp: Fingerprint, n: NodeId, victim: Option<Fingerprint>)
      modifies `fairnessCursors, `fairnessActivity
      ensures FairnessView() == AdvanceCursor(old(FairnessView()), fp, n, victim)
    {
      if victim.Some? {
        fairnessCursors := fairnessCursors - {victim.value};
      }
      fairnessActivity := fairnessActivity + 1;
      fairnessCursors := fairnessCursors[fp := Cursor(n, fairnessActivity)];
    }

    method TakePlace(id: Identity)
      modifies `arrivalPlaces, `nextArrival
      ensures ArrivalsView() == Arrive(old(ArrivalsView()), id)
    {
      arrivalPlaces, nextArrival := arrivalPlaces[id := nextArrival], nextArrival + 1;
    }

    method ReserveOn(id: Identity, r: Reservation, cancel: Option<Digest>, victim: Option<Fingerprint>)
      modifies this
      ensures View() == old(View()).(work := ReserveWork(old(View()).work, id, r, cancel),
                                     fairness := AdvanceCursor(old(View()).fairness, r.fingerprint, r.node, victim),
                                     arrivals := Arrive(old(View()).arrivals, id))
      ensures run == old(run)
    {
      hide WorkView, KeptView, LeasesView, FleetView, FairnessView, ArrivalsView, ReserveWork, AdvanceCursor, Arrive;
      TakePlace(id);
      MoveCursor(r.fingerprint, r.node, victim);
      AddReservation(id, r, cancel);
    }

    /** Schedule a request that is not known yet. */
    method Schedule(id: Identity, fp: Fingerprint, deadline: Time, cancel: Option<Digest>, token: Digest, now: Time)
      returns (out: Outcome<Selection>, ghost d: Decision<Selection>)
      requires Valid() && SelectKnown(config, View(), id, fp, deadline, cancel, now).None?
      modifies this
      ensures Valid() && SelectCall(config, old(View()), id, fp, deadline, cancel, token, now, d)
      ensures out == d.outcome && Continues(old(run), run, d.events)
    {
      hide IsRun, View, SelectKnown, Selected, Evicts, Eligible, CursorsFull, Enabled, Apply, ReserveWork, AdvanceCursor;
      d := Refuse(NoCapacity);
      var selected := SelectNode(fp);
      if selected.None? {
        return Raised(NoCapacity), d;
      }
      var room, victim := CursorEvictionCandidate(fp);
      if !room {
        return Raised(NoCapacity), d;
      }
      var expiry := Min(now + config.reservationTtl, deadline);
      var record := Reservation(fp, selected.value, deadline, expiry, token);
      out := Ok(Selection(selected.value, fp, deadline, Some(expiry), Some(token), true, StageReserved));
      d := Decision(out, [Reserve(id, record, cancel, victim, now)]);
      SelectEnabled(config, View(), id, fp, deadline, cancel, token, now, d);
      assert Enabled(config, View(), d.events[0]);
      ReserveEvent(config, View(), id, record, cancel, victim, now);
      ReserveOn(id, record, cancel, victim);
      Record(Reserve(id, record, cancel, victim, now));
    }

    method SelectLocked(id: Identity, fp: Fingerprint, deadline: Time, cancel: Option<Digest>, token: Digest, now: Time)
      returns (out: Outcome<Selection>, ghost d: Decision<Selection>)
      requires Valid()
      modifies this
      ensures Valid() && SelectCall(config, old(View()), id, fp, deadline, cancel, token, now, d)
      ensures out == d.outcome && Continues(old(run), run, d.events)
    {
      hide IsRun, View, SelectKnown, Selected, Evicts, Eligible, CursorsFull;
      var known := KnownSelection(id, fp, deadline, cancel, now);
      if known.Some? {
        return known.value, Decision(known.value, []);
      }
      out, d := Schedule(id, fp, deadline, cancel, token, now);
    }

    /** Choose a node for a request and reserve a place on it; `token` is the fresh secret to issue. */
    method SelectAndReserve(id: Identity, fp: Fingerprint, deadline: Time, cancel: Option<Digest>, token: Digest,
                            now: Time)
      returns (out: Outcome<Selection>, ghost tidy: Run, ghost d: Decision<Selection>)
      requires Valid()
      modifies this
      ensures Valid() && SettledBy(config, old(run), tidy, now) && RoomClears(config, old(View()), Last(tidy), now)
      ensures Performed(config, tidy, run, now, out, d)
      ensures !Stuck(config, Last(tidy), now) ==> SelectCall(config, Last(tidy), id, fp, deadline, cancel, token, now, d)
      ensures out.Ok? && out.value.created ==> InTurn(config, Last(tidy).work, tidy.log, fp, out.value.node)
      ensures !(out.Ok? && out.value.created) ==> run == tidy
      ensures ClockKept(old(run), run, now)
      ensures Outcomes(old(run), run) == 0 <==> !ReapConcludes(config, old(View()), now)
    {
      hide IsRun, View, Stuck, Settled, Housekept, RoomClears, SelectCall, InTurn,
           ReapConcludes, OverdueExpires, Quiet, Outcomes, Conclusions;
      d := Refuse(CapacityExceeded);
      var done := ReapLocked(now);
      tidy := run;
      HousekeptClock(config, old(run), tidy, now);
      TidyQuiet(old(run), tidy, now);
      if !done {
        return Raised(CapacityExceeded), tidy, d;
      }
      SettledIsNotStuck(config, View(), now);
      out, d := SelectLocked(id, fp, deadline, cancel, token, now);
      SelectEnabled(config, Last(tidy), id, fp, deadline, cancel, token, now, d);
      CallDone(config, old(run), tidy, run, now, out, d);
      if out.Ok? && out.value.created {
        ReservedInTurn(config, tidy, id, fp, deadline, cancel, token, now, d);
      }
      SelectConcludesNothing(config, Last(tidy), id, fp, deadline, cancel, token, now, d);
      ReportIff(config, old(run), tidy, run, now, out, d,
                ReapConcludes(config, old(View()), now));
    }
  }
}
