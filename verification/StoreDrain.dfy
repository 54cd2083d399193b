/**
  Tearing down a removed node in bounded batches, and why repeated sweeps always finish.
*/
module StoreDrain {
  import opened RelayTypes
  import opened StoreState
  import opened StoreInvariant
  import opened StoreRuns

  // ----- One batch -----

  predicate Distinct(batch: seq<Identity>) {
    forall i, j | 0 <= i < j < |batch| :: batch[i] != batch[j]
  }

  /** What has arrived earlier comes first. */
  predicate EarliestFirst(work: set<Identity>, a: Arrivals, batch: seq<Identity>) {
    forall i, id | 0 <= i < |batch| && id in work && id !in batch[..i] :: PlaceOf(a, batch[i]) <= PlaceOf(a, id)
  }

  /** Up to the batch bound, the earliest of the node's work, each item once. */
  predicate IsBatch(c: Config, w: Work, a: Arrivals, n: NodeId, batch: seq<Identity>) {
    && Distinct(batch) && EarliestFirst(WorkOf(w, n), a, batch)
    && (forall i | 0 <= i < |batch| :: batch[i] in WorkOf(w, n))
    && |batch| == (if |WorkOf(w, n)| < c.batchSize then |WorkOf(w, n)| else c.batchSize)
  }

  lemma EarliestNext(work: set<Identity>, a: Arrivals, batch: seq<Identity>, rest: set<Identity>, id: Identity)
    requires EarliestFirst(work, a, batch) && id in rest && forall x | x in work && x !in rest :: x in batch
    requires forall x | x in rest :: PlaceOf(a, id) <= PlaceOf(a, x)
    ensures EarliestFirst(work, a, batch + [id])
  {
    var next := batch + [id];
    forall i, x | 0 <= i < |next| && x in work && x !in next[..i]
      ensures PlaceOf(a, next[i]) <= PlaceOf(a, x)
    {
      hide EarliestFirst;
      if i < |batch| {
        assert next[..i] == batch[..i] && next[i] == batch[i];
        EarliestAt(work, a, batch, i, x);
      } else {
        assert next[..i] == batch;
      }
    }
  }

  lemma EarliestAt(work: set<Identity>, a: Arrivals, batch: seq<Identity>, i: nat, id: Identity)
    requires EarliestFirst(work, a, batch) && i < |batch| && id in work && id !in batch[..i]
    ensures PlaceOf(a, batch[i]) <= PlaceOf(a, id)
  {
  }

  predicate CanTeardown(c: Config, s: State, id: Identity, now: Time) {
    Held(s.work, id) && CanTerminalize(c, s, id, Cancelled, true, now)
  }

  function TeardownOne(c: Config, s: State, id: Identity, now: Time): State
    requires Held(s.work, id)
  {
    Terminalize(c, s, id, Cancelled, ServerUnregistered, true, now)
  }

  /** The batch is worked off in order until an item finds no room. */
  function TeardownAll(c: Config, s: State, batch: seq<Identity>, now: Time): (t: State)
    ensures t.fleet == s.fleet
    decreases |batch|
  {
    if batch == [] || !CanTeardown(c, s, batch[0], now) then s
    else TeardownAll(c, TeardownOne(c, s, batch[0], now), batch[1..], now)
  }

  function TeardownCount(c: Config, s: State, batch: seq<Identity>, now: Time): (k: nat)
    ensures k <= |batch|
    decreases |batch|
  {
    if batch == [] || !CanTeardown(c, s, batch[0], now) then 0
    else 1 + TeardownCount(c, TeardownOne(c, s, batch[0], now), batch[1..], now)
  }

  /** A pending node with nothing left completes its transition. */
  function Finished(c: Config, s: State, n: NodeId, now: Time): State {
    if && WorkOf(s.work, n) == {} && n in s.fleet.pending
       && FenceKey(n, s.fleet.pending[n].credential) in s.fleet.fences
    then s.(fleet := CompleteFleet(c, s.fleet, n, now))
    else s
  }

  /** What one call does to a pending node: a batch, then completion if nothing is left. */
  function Advance(c: Config, s: State, n: NodeId, batch: seq<Identity>, now: Time): State {
    Finished(c, TeardownAll(c, s, batch, now), n, now)
  }

  // ----- The transition call -----

  datatype Transition =
    | NotFound
    | AlreadyComplete(cause: Cause, at: Time)
    | LeaseActive
    | Progress(continuation: bool, cause: Cause, at: Time, processed: nat, reserved: nat, queued: nat,
               claimed: nat, outcomes: nat)

  /** The fences that a call for a node nobody has registered may answer with. */
  predicate FenceMatches(f: Fleet, n: NodeId, supplied: Option<Digest>, cause: Cause, k: FenceKey)
    requires k in f.fences
  {
    k.node == n && if cause == ExplicitUnregister then supplied == Some(k.owner) else f.fences[k].cause == cause
  }

  /** `k` is the most recent matching fence. */
  ghost predicate LatestFence(f: Fleet, n: NodeId, supplied: Option<Digest>, cause: Cause, k: FenceKey) {
    && k in f.fences && FenceMatches(f, n, supplied, cause, k)
    && forall j | j in f.fences && FenceMatches(f, n, supplied, cause, j) ::
         f.fences[j].transitionAt <= f.fences[k].transitionAt
  }

  /** How a transition call ends before doing any work; `None`: it goes ahead. */
  ghost predicate Gate(c: Config, f: Fleet, n: NodeId, supplied: Option<Digest>, cause: Cause, now: Time,
                       answer: Option<Outcome<Transition>>)
  {
    if n in f.pending then
      answer == (if cause != f.pending[n].cause then Some(Raised(Conflict))
                 else if cause == ExplicitUnregister && supplied != Some(f.pending[n].credential) then
                   Some(Raised(CredentialMismatch))
                 else None)
    else if n in f.nodes then
      answer == (if cause == ExplicitUnregister && supplied != Some(f.nodes[n].credential) then
                   Some(Raised(CredentialMismatch))
                 else if cause == LeaseExpired && f.nodes[n].leaseExpiry > now then Some(Ok(LeaseActive))
                 else if !TransitionRoom(c, f, n) then Some(Raised(CapacityExceeded))
                 else None)
    else if n in f.nodeTombstones && cause == ExplicitUnregister then
      var t := f.nodeTombstones[n];
      answer == (if supplied != Some(t.credential) then Some(Raised(CredentialMismatch))
                 else Some(Ok(AlreadyComplete(t.cause, t.transitionAt))))
    else
      match answer
      case Some(Ok(NotFound)) => forall k | k in f.fences :: !FenceMatches(f, n, supplied, cause, k)
      case Some(Ok(AlreadyComplete(what, at))) =>
        exists k :: LatestFence(f, n, supplied, cause, k)
                    && f.fences[k].cause == what && f.fences[k].transitionAt == at
      case _ => false
  }

  /** The state in which the batch of a call that goes ahead is worked off. */
  function Started(c: Config, s: State, n: NodeId, cause: Cause, now: Time): State
    requires n in s.fleet.pending || n in s.fleet.nodes
  {
    if n in s.fleet.pending then s
    else s.(fleet := StartFleet(c, s.fleet, n, cause, WorkOf(s.work, n) == {}, now),
            fairness := s.fairness.(cursors := CursorsWithout(s.fairness.cursors, n)))
  }

  function Teardowns(ids: seq<Identity>, n: NodeId, now: Time): (events: seq<Event>)
    ensures |events| == |ids|
    ensures forall i | 0 <= i < |ids| :: events[i] == Teardown(ids[i], n, now)
  {
    seq(|ids|, i requires 0 <= i < |ids| => Teardown(ids[i], n, now))
  }

  function Among(batch: seq<Identity>, ids: set<Identity>): nat {
    if batch == [] then 0
    else Among(batch[..|batch| - 1], ids) + if batch[|batch| - 1] in ids then 1 else 0
  }

  /** The events of one call on a pending node. */
  function AdvanceEvents(c: Config, s: State, n: NodeId, batch: seq<Identity>, now: Time): seq<Event> {
    Teardowns(batch[..TeardownCount(c, s, batch, now)], n, now)
    + if WorkOf(TeardownAll(c, s, batch, now).work, n) != {} then [] else [CompleteTransition(n, now)]
  }

  /** What one call on a pending node reports. */
  function AdvanceReport(c: Config, s: State, n: NodeId, batch: seq<Identity>, now: Time): Transition
    requires n in s.fleet.pending
  {
    var done := TeardownCount(c, s, batch, now);
    Progress(WorkOf(TeardownAll(c, s, batch, now).work, n) != {},
             s.fleet.pending[n].cause, s.fleet.pending[n].transitionAt, done,
             Among(batch[..done], s.work.reservations.Keys), Among(batch[..done], s.work.queued.Keys),
             Among(batch[..done], s.leases.claims.Keys), done)
  }

  /** One call: refused or answered at the gate without any change, or a batch of work. */
  ghost predicate TransitionCall(c: Config, s: State, n: NodeId, supplied: Option<Digest>, cause: Cause,
                                 batch: seq<Identity>, now: Time, t: State, events: seq<Event>,
                                 out: Outcome<Transition>)
  {
    if Gate(c, s.fleet, n, supplied, cause, now, None) then
      && (n in s.fleet.pending || n in s.fleet.nodes)
      && var u := Started(c, s, n, cause, now);
      && n in u.fleet.pending && IsBatch(c, u.work, u.arrivals, n, batch)
      && t == Advance(c, u, n, batch, now)
      && events == (if n in s.fleet.pending then [] else [StartTransition(n, cause, now)])
                     + AdvanceEvents(c, u, n, batch, now)
      && out == Ok(AdvanceReport(c, u, n, batch, now))
    else
      Gate(c, s.fleet, n, supplied, cause, now, Some(out)) && t == s && events == []
  }

  // ----- Draining work -----

  /** Work on nodes that are being torn down. */
  function Draining(w: Work, pending: map<NodeId, PendingTransition>): set<Identity> {
    set id | id in w.reservations.Keys + w.queued.Keys && NodeOf(w, id) in pending
  }

  function DrainingClaimsOn(w: Work, pending: map<NodeId, PendingTransition>, claims: map<Identity, Claim>,
                            n: NodeId): set<Identity>
  {
    set id | id in Draining(w, pending) && id in claims && claims[id].node == n
  }

  /** Items left plus transitions left: the sum over pending nodes of (remaining work + 1). */
  function Remaining(s: State): nat {
    |Draining(s.work, s.fleet.pending)| + |s.fleet.pending|
  }

  /** Enough retained capacity for everything that is draining. */
  ghost predicate Room(c: Config, s: State) {
    var d := Draining(s.work, s.fleet.pending);
    && |s.kept.terminals| + |d| <= c.maxTerminals
    && (forall k :: |OfClient(s.kept.terminals.Keys, k)| + |OfClient(d, k)| <= c.maxTerminalsPerClient)
    && |s.kept.controls| + |d| <= c.maxControls
    && (forall n :: |ControlsOn(s.kept.controls, n)|
                    + |DrainingClaimsOn(s.work, s.fleet.pending, s.leases.claims, n)| <= c.maxControlsPerNode)
  }

  lemma RoomForEach(c: Config, s: State, id: Identity, now: Time)
    requires Room(c, s) && id in Draining(s.work, s.fleet.pending)
    ensures CanTeardown(c, s, id, now)
  {
    var d := Draining(s.work, s.fleet.pending);
    SubsetSize({id}, d);
    SubsetSize({id}, OfClient(d, id.client));
    if id in s.leases.claims {
      SubsetSize({id}, DrainingClaimsOn(s.work, s.fleet.pending, s.leases.claims, s.leases.claims[id].node));
    }
  }

  lemma TornDraining(c: Config, s: State, id: Identity, now: Time)
    requires WorkInv(s.work) && id in Draining(s.work, s.fleet.pending)
    ensures var t := TeardownOne(c, s, id, now);
            && t.fleet == s.fleet && t.fairness == s.fairness
            && Draining(t.work, t.fleet.pending) == Draining(s.work, s.fleet.pending) - {id}
            && (forall n :: WorkOf(t.work, n) == WorkOf(s.work, n) - {id})
            && t.kept.terminals.Keys == s.kept.terminals.Keys + {id}
            && t.kept.terminals[id].verdict == Cancelled && t.kept.terminals[id].reason == ServerUnregistered
            && (forall i | i in s.kept.terminals && i != id :: t.kept.terminals[i] == s.kept.terminals[i])
            && t.leases.claims == s.leases.claims - {id}
            && t.kept.controls == (if id in s.leases.claims
                                   then s.kept.controls[id := ControlOf(c, s.leases.claims[id], Cancelled, ServerUnregistered, now)]
                                   else s.kept.controls)
  {
    hide ControlOf;
    RemovedHeld(s.work, id);
  }

  lemma TornRoom(c: Config, s: State, id: Identity, now: Time)
    requires WorkInv(s.work) && Room(c, s) && id in Draining(s.work, s.fleet.pending)
    ensures Room(c, TeardownOne(c, s, id, now))
  {
    var t := TeardownOne(c, s, id, now);
    var d := Draining(s.work, s.fleet.pending);
    TornDraining(c, s, id, now);
    hide TeardownOne, Draining;
    OneMore(t.kept.terminals.Keys, s.kept.terminals.Keys, id);
    OneMore(t.kept.controls.Keys, s.kept.controls.Keys, id);
    forall k: Digest
      ensures |OfClient(t.kept.terminals.Keys, k)| + |OfClient(d - {id}, k)|
                <= |OfClient(s.kept.terminals.Keys, k)| + |OfClient(d, k)|
    {
      OneMoreOfClient(t.kept.terminals.Keys, s.kept.terminals.Keys, id, k);
      OneLessOfClient(d, id, k);
    }
    forall n: NodeId
      ensures |ControlsOn(t.kept.controls, n)| + |DrainingClaimsOn(t.work, t.fleet.pending, t.leases.claims, n)|
                <= |ControlsOn(s.kept.controls, n)| + |DrainingClaimsOn(s.work, s.fleet.pending, s.leases.claims, n)|
    {
      TornControls(c, s, t, id, now, n);
    }
  }

  lemma OneLessOfClient(d: set<Identity>, id: Identity, k: Digest)
    requires id in d
    ensures |OfClient(d - {id}, k)| == |OfClient(d, k)| - (if id.client == k then 1 else 0)
  {
    if id.client == k {
      assert OfClient(d - {id}, k) == OfClient(d, k) - {id};
    } else {
      assert OfClient(d - {id}, k) == OfClient(d, k);
    }
  }

  lemma TornControls(c: Config, s: State, t: State, id: Identity, now: Time, n: NodeId)
    requires id in Draining(s.work, s.fleet.pending)
    requires Draining(t.work, t.fleet.pending) == Draining(s.work, s.fleet.pending) - {id}
    requires t.leases.claims == s.leases.claims - {id}
    requires t.kept.controls == (if id in s.leases.claims
                                 then s.kept.controls[id := ControlOf(c, s.leases.claims[id], Cancelled, ServerUnregistered, now)]
                                 else s.kept.controls)
    ensures |ControlsOn(t.kept.controls, n)| + |DrainingClaimsOn(t.work, t.fleet.pending, t.leases.claims, n)|
              <= |ControlsOn(s.kept.controls, n)| + |DrainingClaimsOn(s.work, s.fleet.pending, s.leases.claims, n)|
  {
    hide Draining;
    var before := DrainingClaimsOn(s.work, s.fleet.pending, s.leases.claims, n);
    var after := DrainingClaimsOn(t.work, t.fleet.pending, t.leases.claims, n);
    if id in s.leases.claims && s.leases.claims[id].node == n {
      assert after == before - {id};
      OneMore(ControlsOn(t.kept.controls, n), ControlsOn(s.kept.controls, n), id);
    } else {
      assert after == before;
      SubsetSize(ControlsOn(t.kept.controls, n), ControlsOn(s.kept.controls, n));
    }
  }

  /** From `s` to `t` exactly the work in `done` was torn down, and all of it was recorded. */
  ghost predicate TornBetween(s: State, t: State, done: set<Identity>) {
    && t.fleet == s.fleet
    && (forall n :: WorkOf(t.work, n) == WorkOf(s.work, n) - done)
    && Draining(t.work, t.fleet.pending) == Draining(s.work, s.fleet.pending) - done
    && (forall id | id in done :: id in t.kept.terminals && t.kept.terminals[id].verdict == Cancelled
                                  && t.kept.terminals[id].reason == ServerUnregistered)
    && (forall id | id in s.kept.terminals && id !in done ::
          id in t.kept.terminals && t.kept.terminals[id] == s.kept.terminals[id])
  }

  lemma TornTwice(s: State, u: State, t: State, id: Identity, rest: set<Identity>)
    requires TornBetween(s, u, {id}) && TornBetween(u, t, rest) && id !in rest
    ensures TornBetween(s, t, {id} + rest)
  {
    hide Draining, WorkOf;
  }

  /** Nothing but the work in `done`, its claims and its records has changed. */
  ghost predicate OnlyTorn(s: State, t: State, done: set<Identity>) {
    && t.fleet == s.fleet && t.fairness == s.fairness && t.arrivals == s.arrivals && t.deferred == s.deferred - done
    && t.leases == s.leases.(claims := s.leases.claims - done)
    && OnlyDequeued(s.work, t.work, done)
    && t.kept.responses == s.kept.responses
    && t.kept.terminals.Keys == s.kept.terminals.Keys + done
    && (forall id | id in done :: id in t.kept.controls <==> id in s.leases.claims)
    && (forall id | id !in done :: id in t.kept.controls <==> id in s.kept.controls)
    && (forall id | id !in done && id in s.kept.controls :: t.kept.controls[id] == s.kept.controls[id])
  }

  ghost predicate OnlyDequeued(w: Work, v: Work, done: set<Identity>) {
    && v.reservations == w.reservations - done && v.queued == w.queued - done
    && v.queuedTokens == w.queuedTokens - done && v.cancelTokens == w.cancelTokens - done
    && v.nextSequence == w.nextSequence
    && (forall n :: OnlyLeft(QueueOf(w, n), QueueOf(v, n), done))
  }

  ghost predicate OnlyLeft(q: seq<QueuedRequest>, r: seq<QueuedRequest>, done: set<Identity>) {
    forall x :: x in r <==> x in q && x.id !in done
  }

  lemma OneDequeued(w: Work, id: Identity)
    requires WorkInv(w) && QueueInv(w) && Held(w, id)
    ensures OnlyDequeued(w, RemoveWork(w, id), {id})
  {
    var v := RemoveWork(w, id);
    forall n
      ensures OnlyLeft(QueueOf(w, n), QueueOf(v, n), {id})
    {
      RemovedQueue(w, id, n);
    }
  }

  lemma OneTorn(c: Config, s: State, id: Identity, now: Time)
    requires Consistent(s) && Held(s.work, id)
    ensures OnlyTorn(s, TeardownOne(c, s, id, now), {id})
  {
    hide WorkInv, QueueInv, ClaimInv, FleetInv, HousedInv, OverInv, KeptInv, CursorInv, OnlyDequeued, RemoveWork, Held,
         TerminalFor, ControlOf;
    LiveIsNotOver(c, s, id);
    OneDequeued(s.work, id);
  }

  lemma DequeuedTwice(w: Work, u: Work, v: Work, id: Identity, rest: set<Identity>)
    requires OnlyDequeued(w, u, {id}) && OnlyDequeued(u, v, rest)
    ensures OnlyDequeued(w, v, {id} + rest)
  {
    MinusBoth(w.reservations, id, rest);
    MinusBoth(w.queued, id, rest);
    MinusBoth(w.queuedTokens, id, rest);
    MinusBoth(w.cancelTokens, id, rest);
    forall n
      ensures OnlyLeft(QueueOf(w, n), QueueOf(v, n), {id} + rest)
    {
      assert OnlyLeft(QueueOf(w, n), QueueOf(u, n), {id}) && OnlyLeft(QueueOf(u, n), QueueOf(v, n), rest);
    }
  }

  lemma OnlyTornTwice(s: State, u: State, t: State, id: Identity, rest: set<Identity>)
    requires OnlyTorn(s, u, {id}) && OnlyTorn(u, t, rest) && id !in rest
    ensures OnlyTorn(s, t, {id} + rest)
  {
    hide OnlyDequeued;
    DequeuedTwice(s.work, u.work, t.work, id, rest);
    MinusBoth(s.leases.claims, id, rest);
    assert s.deferred - {id} - rest == s.deferred - ({id} + rest);
    assert s.kept.terminals.Keys + {id} + rest == s.kept.terminals.Keys + ({id} + rest);
    var done := {id} + rest;
    assert t.leases == s.leases.(claims := s.leases.claims - done);
    forall x | x in done
      ensures x in t.kept.controls <==> x in s.leases.claims
    {
      if x == id {
        assert x !in rest && (x in u.kept.controls <==> x in s.leases.claims);
      } else {
        assert x in rest && (x in u.leases.claims <==> x in s.leases.claims);
      }
    }
    forall x | x !in done
      ensures (x in t.kept.controls <==> x in s.kept.controls)
              && (x in s.kept.controls ==> t.kept.controls[x] == s.kept.controls[x])
    {
      assert x !in {id} && x !in rest;
    }
  }

  lemma MinusBoth<V>(m: map<Identity, V>, id: Identity, rest: set<Identity>)
    ensures m - {id} - rest == m - ({id} + rest)
  {
  }

  /** With room for everything, the whole batch is torn down and recorded, and nothing else moves. */
  lemma {:induction false} BatchTornDown(c: Config, s: State, n: NodeId, batch: seq<Identity>, now: Time)
    requires c.Valid() && Consistent(s) && Room(c, s) && n in s.fleet.pending && Distinct(batch)
    requires forall i | 0 <= i < |batch| :: batch[i] in WorkOf(s.work, n)
    ensures var t := TeardownAll(c, s, batch, now);
            && Consistent(t) && Room(c, t) && TornBetween(s, t, set id | id in batch)
            && OnlyTorn(s, t, set id | id in batch)
            && TeardownCount(c, s, batch, now) == |batch|
    decreases |batch|
  {
    hide Consistent, Room, TeardownOne, CanTeardown, Draining, WorkOf, OnlyTorn;
    if batch == [] {
      NoneTorn(s);
      assert (set id | id in batch) == {};
    } else {
      var id, rest := batch[0], batch[1..];
      WorkIsDraining(c, s, n, id);
      RoomForEach(c, s, id, now);
      var u := TeardownOne(c, s, id, now);
      TornDown(c, s, id, now);
      OneTorn(c, s, id, now);
      BatchTail(s, u, n, batch);
      hide TornBetween, Distinct;
      BatchTornDown(c, u, n, rest, now);
      TornTwice(s, u, TeardownAll(c, u, rest, now), id, set x | x in rest);
      OnlyTornTwice(s, u, TeardownAll(c, u, rest, now), id, set x | x in rest);
    }
  }

  lemma NoneTorn(s: State)
    ensures OnlyTorn(s, s, {}) && TornBetween(s, s, {})
  {
    hide QueueOf, WorkOf;
  }

  lemma BatchTail(s: State, u: State, n: NodeId, batch: seq<Identity>)
    requires batch != [] && Distinct(batch) && TornBetween(s, u, {batch[0]})
    requires forall i | 0 <= i < |batch| :: batch[i] in WorkOf(s.work, n)
    ensures Distinct(batch[1..]) && u.fleet == s.fleet
    ensures forall i | 0 <= i < |batch[1..]| :: batch[1..][i] in WorkOf(u.work, n)
    ensures batch[0] !in (set x | x in batch[1..])
    ensures (set x | x in batch) == {batch[0]} + (set x | x in batch[1..])
  {
    hide Draining, WorkOf;
    assert batch == [batch[0]] + batch[1..];
    assert forall i | 0 <= i < |batch[1..]| :: batch[1..][i] == batch[i + 1];
  }

  lemma WorkIsDraining(c: Config, s: State, n: NodeId, id: Identity)
    requires Consistent(s) && n in s.fleet.pending && id in WorkOf(s.work, n)
    ensures Held(s.work, id) && NodeOf(s.work, id) == n && id in Draining(s.work, s.fleet.pending)
  {
    hide QueueInv, WorkBounds, ClaimInv, FleetInv, FleetBounds, HousedInv, OverInv, KeptInv, KeptBounds, CursorInv;
  }

  lemma TornDown(c: Config, s: State, id: Identity, now: Time)
    requires c.Valid() && Consistent(s) && Room(c, s) && id in Draining(s.work, s.fleet.pending)
    requires CanTeardown(c, s, id, now)
    ensures var t := TeardownOne(c, s, id, now);
            Consistent(t) && Room(c, t) && TornBetween(s, t, {id})
  {
    hide QueueInv, WorkBounds, ClaimInv, FleetInv, FleetBounds, HousedInv, OverInv, KeptInv, KeptBounds, CursorInv,
         Draining, Terminalize, Room, CanTerminalize;
    TerminalizeInv(c, s, id, Cancelled, ServerUnregistered, true, now);
    TornDraining(c, s, id, now);
    TornRoom(c, s, id, now);
  }

  // ----- One batch, item by item -----

  /** Before item `i` of the batch, the rest of it is still the node's live work. */
  ghost predicate Unfinished(before: State, s: State, n: NodeId, batch: seq<Identity>, i: nat) {
    && n in s.fleet.pending && s.fleet == before.fleet
    && forall j | i <= j < |batch| ::
         && batch[j] in WorkOf(s.work, n)
         && (batch[j] in s.work.reservations <==> batch[j] in before.work.reservations)
         && (batch[j] in s.work.queued <==> batch[j] in before.work.queued)
         && (batch[j] in s.leases.claims <==> batch[j] in before.leases.claims)
  }

  /** No item of a batch is already over or already gone: the batch loop never skips. */
  lemma NothingToSkip(c: Config, s: State, n: NodeId, id: Identity)
    requires Consistent(s) && id in WorkOf(s.work, n)
    ensures Held(s.work, id) && NodeOf(s.work, id) == n && id !in s.kept.terminals
    ensures id in s.work.reservations <==> id !in s.work.queued
    ensures id in s.leases.claims ==> id in s.work.queued
  {
    hide QueueInv, WorkBounds, FleetInv, FleetBounds, HousedInv, KeptInv, KeptBounds, CursorInv;
  }

  lemma UnfinishedStep(c: Config, before: State, s: State, n: NodeId, batch: seq<Identity>, i: nat, now: Time)
    requires Consistent(s) && Distinct(batch) && i < |batch| && Unfinished(before, s, n, batch, i)
    requires Held(s.work, batch[i])
    ensures Unfinished(before, TeardownOne(c, s, batch[i], now), n, batch, i + 1)
    ensures batch[i] in s.work.reservations <==> batch[i] in before.work.reservations
    ensures batch[i] in s.work.queued <==> batch[i] in before.work.queued
    ensures batch[i] in s.leases.claims <==> batch[i] in before.leases.claims
  {
    hide QueueInv, WorkBounds, ClaimInv, FleetInv, FleetBounds, HousedInv, OverInv, KeptInv, KeptBounds, CursorInv,
         Draining, WorkOf;
    WorkIsDraining(c, s, n, batch[i]);
    TornDraining(c, s, batch[i], now);
  }

  /** Items `0..i` of the batch have been torn down, so many of each kind. */
  ghost predicate BatchAt(c: Config, before: State, s: State, n: NodeId, batch: seq<Identity>, i: nat, now: Time,
                          reserved: nat, waiting: nat, claimed: nat)
    requires i <= |batch|
  {
    && Unfinished(before, s, n, batch, i)
    && TeardownAll(c, before, batch, now) == TeardownAll(c, s, batch[i..], now)
    && TeardownCount(c, before, batch, now) == i + TeardownCount(c, s, batch[i..], now)
    && reserved == Among(batch[..i], before.work.reservations.Keys)
    && waiting == Among(batch[..i], before.work.queued.Keys)
    && claimed == Among(batch[..i], before.leases.claims.Keys)
  }

  lemma BatchStart(c: Config, s: State, n: NodeId, batch: seq<Identity>, now: Time)
    requires n in s.fleet.pending && IsBatch(c, s.work, s.arrivals, n, batch)
    ensures BatchAt(c, s, s, n, batch, 0, now, 0, 0, 0)
    ensures Teardowns(batch[..0], n, now) == []
  {
    assert batch[0..] == batch;
  }

  lemma TeardownFirst(c: Config, s: State, batch: seq<Identity>, i: nat, now: Time)
    requires i < |batch|
    ensures if CanTeardown(c, s, batch[i], now) then
              && TeardownAll(c, s, batch[i..], now)
                   == TeardownAll(c, TeardownOne(c, s, batch[i], now), batch[i + 1..], now)
              && TeardownCount(c, s, batch[i..], now)
                   == 1 + TeardownCount(c, TeardownOne(c, s, batch[i], now), batch[i + 1..], now)
            else TeardownAll(c, s, batch[i..], now) == s && TeardownCount(c, s, batch[i..], now) == 0
  {
    hide TeardownOne;
    assert batch[i..][1..] == batch[i + 1..];
  }

  lemma AmongStep(batch: seq<Identity>, i: nat, ids: set<Identity>)
    requires i < |batch|
    ensures Among(batch[..i + 1], ids) == Among(batch[..i], ids) + if batch[i] in ids then 1 else 0
  {
    assert batch[..i + 1][..i] == batch[..i];
  }

  lemma TeardownsStep(batch: seq<Identity>, i: nat, n: NodeId, now: Time)
    requires i < |batch|
    ensures Teardowns(batch[..i + 1], n, now) == Teardowns(batch[..i], n, now) + [Teardown(batch[i], n, now)]
  {
  }

  lemma BatchStep(c: Config, before: State, s: State, n: NodeId, batch: seq<Identity>, i: nat, now: Time,
                  reserved: nat, waiting: nat, claimed: nat)
    requires Consistent(s) && Distinct(batch) && i < |batch| && CanTeardown(c, s, batch[i], now)
    requires BatchAt(c, before, s, n, batch, i, now, reserved, waiting, claimed)
    ensures BatchAt(c, before, TeardownOne(c, s, batch[i], now), n, batch, i + 1, now,
                    reserved + (if batch[i] in s.work.reservations then 1 else 0),
                    waiting + (if batch[i] in s.work.queued then 1 else 0),
                    claimed + (if batch[i] in s.leases.claims then 1 else 0))
  {
    hide Consistent, TeardownOne, TeardownAll, TeardownCount, CanTerminalize, Unfinished, Distinct, Among;
    UnfinishedStep(c, before, s, n, batch, i, now);
    TeardownFirst(c, s, batch, i, now);
    AmongStep(batch, i, before.work.reservations.Keys);
    AmongStep(batch, i, before.work.queued.Keys);
    AmongStep(batch, i, before.leases.claims.Keys);
  }

  lemma BatchStops(c: Config, before: State, s: State, n: NodeId, batch: seq<Identity>, i: nat, now: Time,
                   reserved: nat, waiting: nat, claimed: nat)
    requires i <= |batch| && (i < |batch| ==> !CanTeardown(c, s, batch[i], now))
    requires BatchAt(c, before, s, n, batch, i, now, reserved, waiting, claimed)
    ensures s == TeardownAll(c, before, batch, now) && i == TeardownCount(c, before, batch, now)
    ensures reserved == Among(batch[..i], before.work.reservations.Keys)
    ensures waiting == Among(batch[..i], before.work.queued.Keys)
    ensures claimed == Among(batch[..i], before.leases.claims.Keys)
  {
    hide Among;
    if i < |batch| {
      TeardownFirst(c, s, batch, i, now);
    }
  }

  // ----- What a transition call reports -----

  /** A call that reports no progress has done nothing, and what it does happens now. */
  lemma TransitionEventsNow(c: Config, s: State, n: NodeId, supplied: Option<Digest>, cause: Cause, batch: seq<Identity>,
                            now: Time, t: State, events: seq<Event>, out: Outcome<Transition>)
    requires TransitionCall(c, s, n, supplied, cause, batch, now, t, events, out)
    ensures forall e | e in events :: e.now == now
    ensures out.Raised? || !out.value.Progress? ==> events == [] && t == s
  {
    hide Gate, TeardownAll, TeardownCount, Started, Among, IsBatch, WorkOf, Finished;
  }

  lemma {:induction false} AmongSplit(batch: seq<Identity>, a: set<Identity>, b: set<Identity>)
    requires forall i | 0 <= i < |batch| :: batch[i] in a <==> batch[i] !in b
    ensures Among(batch, a) + Among(batch, b) == |batch|
  {
    if batch != [] {
      AmongSplit(batch[..|batch| - 1], a, b);
    }
  }

  lemma {:induction false} AmongWithin(batch: seq<Identity>, a: set<Identity>, b: set<Identity>)
    requires a <= b
    ensures Among(batch, a) <= Among(batch, b)
  {
    if batch != [] {
      AmongWithin(batch[..|batch| - 1], a, b);
    }
  }

  /**
    Every processed item is one outcome and was either reserved or queued; a transition that does
    not continue has left the node without work, registration or claims, and with its owner fenced
    for the full retention from now on.
  */
  lemma TransitionReport(c: Config, s: State, n: NodeId, supplied: Option<Digest>, cause: Cause, batch: seq<Identity>,
                         now: Time, t: State, events: seq<Event>, p: Transition)
    requires Consistent(s) && p.Progress? && TransitionCall(c, s, n, supplied, cause, batch, now, t, events, Ok(p))
    ensures p.outcomes == p.processed == p.reserved + p.queued <= c.batchSize && p.claimed <= p.queued
    ensures n !in t.fleet.nodes && (p.continuation <==> n in t.fleet.pending) && (p.continuation <==> WorkOf(t.work, n) != {})
    ensures !p.continuation ==>
              exists owner :: FenceKey(n, owner) in t.fleet.fences
                              && t.fleet.fences[FenceKey(n, owner)].expiry == now + c.terminalRetention
                              && (n in s.fleet.nodes ==> owner == s.fleet.nodes[n].credential)
                              && (n in s.fleet.pending ==> owner == s.fleet.pending[n].credential)
  {
    hide Consistent, Among, TeardownAll, TeardownCount, Gate, WorkOf, Started, Finished, CompleteFleet;
    GateDoesNoWork(c, s.fleet, n, supplied, cause, now, p);
    var u := Started(c, s, n, cause, now);
    StartedFleet(c, s, n, cause, now);
    BatchIsLive(c, s, n, batch, TeardownCount(c, u, batch, now));
    FinishedFleet(c, TeardownAll(c, u, batch, now), n, now);
  }

  lemma GateDoesNoWork(c: Config, f: Fleet, n: NodeId, supplied: Option<Digest>, cause: Cause, now: Time, p: Transition)
    requires p.Progress?
    ensures !Gate(c, f, n, supplied, cause, now, Some(Ok(p)))
  {
    hide LatestFence, FenceMatches, TransitionRoom;
  }

  lemma BatchIsLive(c: Config, s: State, n: NodeId, batch: seq<Identity>, k: nat)
    requires Consistent(s) && k <= |batch| && forall i | 0 <= i < |batch| :: batch[i] in WorkOf(s.work, n)
    ensures Among(batch[..k], s.work.reservations.Keys) + Among(batch[..k], s.work.queued.Keys) == k
    ensures Among(batch[..k], s.leases.claims.Keys) <= Among(batch[..k], s.work.queued.Keys)
  {
    hide Consistent, Among, WorkOf;
    forall i | 0 <= i < k
      ensures batch[..k][i] in s.work.reservations.Keys <==> batch[..k][i] !in s.work.queued.Keys
    {
      NothingToSkip(c, s, n, batch[i]);
    }
    AmongSplit(batch[..k], s.work.reservations.Keys, s.work.queued.Keys);
    ClaimsAreQueued(s);
    AmongWithin(batch[..k], s.leases.claims.Keys, s.work.queued.Keys);
  }

  lemma ClaimsAreQueued(s: State)
    requires Consistent(s)
    ensures s.leases.claims.Keys <= s.work.queued.Keys
  {
    hide WorkInv, QueueInv, FleetInv, HousedInv, OverInv, KeptInv, CursorInv;
  }

  lemma StartedFleet(c: Config, s: State, n: NodeId, cause: Cause, now: Time)
    requires Consistent(s) && (n in s.fleet.pending || n in s.fleet.nodes)
    ensures var u := Started(c, s, n, cause, now);
            && u.work == s.work && u.leases == s.leases
            && n !in u.fleet.nodes && n in u.fleet.pending
            && FenceKey(n, u.fleet.pending[n].credential) in u.fleet.fences
            && (n in s.fleet.nodes ==> u.fleet.pending[n].credential == s.fleet.nodes[n].credential)
            && (n in s.fleet.pending ==> u.fleet.pending[n].credential == s.fleet.pending[n].credential)
  {
    hide WorkInv, QueueInv, ClaimInv, HousedInv, OverInv, KeptInv, CursorInv;
  }

  lemma FinishedFleet(c: Config, s: State, n: NodeId, now: Time)
    requires n !in s.fleet.nodes && n in s.fleet.pending
    requires FenceKey(n, s.fleet.pending[n].credential) in s.fleet.fences
    ensures var t := Finished(c, s, n, now);
            && t.work == s.work && n !in t.fleet.nodes
            && (n in t.fleet.pending <==> WorkOf(s.work, n) != {})
            && var k := FenceKey(n, s.fleet.pending[n].credential);
            && k in t.fleet.fences
            && (WorkOf(s.work, n) == {} ==> t.fleet.fences[k].expiry == now + c.terminalRetention)
  {
  }

  // ----- While a transition is pending -----

  lemma RemovedShrinks(w: Work, id: Identity, n: NodeId)
    requires Held(w, id)
    ensures WorkOf(RemoveWork(w, id), n) <= WorkOf(w, n)
  {
  }

  lemma PendingStep(c: Config, s: State, e: Event, n: NodeId)
    requires FleetInv(s.fleet) && WorkInv(s.work) && Enabled(c, s, e) && n in s.fleet.pending
    ensures n !in s.fleet.nodes && WorkOf(Apply(c, s, e).work, n) <= WorkOf(s.work, n)
  {
    hide WorkOf, RemoveWork, ReserveWork, CanTerminalize, TransitionRoom, ResponseRoom, ClaimRoom, QueueRoom,
         LifecycleRoom, Evicts, TombstoneClaim, TerminalFor, ControlOf, Conclude, ReapKept, ReapFleet, StartFleet,
         CompleteFleet, RegisterFleet, AdvanceCursor, CompletedBy, ResponseTo, Selected, WorkInv, LiveOwnedClaim;
    if e.Expire? || e.Teardown? || e.Cancel? || e.Accept? || e.DropReservation? {
      RemovedShrinks(s.work, e.id, n);
    } else if e.Reserve? {
      SelectedIsRegistered(c, s, e.reservation.fingerprint, e.reservation.node);
      ReservedOnAnother(s.work, e.id, e.reservation, e.cancel, n);
    } else if e.Enqueue? {
      EnqueuedSame(s.work, e.id, e.cancelToken, e.envelope, e.now, n);
    }
  }

  lemma SelectedIsRegistered(c: Config, s: State, fp: Fingerprint, n: NodeId)
    requires Selected(c, s, fp, n)
    ensures n in s.fleet.nodes
  {
  }

  lemma ReservedOnAnother(w: Work, id: Identity, r: Reservation, cancel: Option<Digest>, n: NodeId)
    requires n != r.node
    ensures WorkOf(ReserveWork(w, id, r, cancel), n) == WorkOf(w, n)
  {
  }

  lemma EnqueuedSame(w: Work, id: Identity, cancelToken: Digest, envelope: Envelope, now: Time, n: NodeId)
    requires id in w.reservations
    ensures WorkOf(EnqueueWork(w, id, cancelToken, envelope, now), n) == WorkOf(w, n)
  {
  }

  /** While its transition is pending a node stays unregistered and gets no new work. */
  lemma {:induction false} PendingOnlyDrains(c: Config, r: Run, i: nat, j: nat, n: NodeId)
    requires IsRun(c, r) && i <= j < |r.states|
    requires forall m: nat | i <= m < j :: n in r.states[m].fleet.pending
    ensures WorkOf(r.states[j].work, n) <= WorkOf(r.states[i].work, n)
    ensures forall m: nat | i <= m < j :: n !in r.states[m].fleet.nodes && !(r.log[m].Register? && r.log[m].node == n)
  {
    hide Enabled, Apply, Consistent, Bounded, WorkOf, WorkInv, FleetInv;
    if i < j {
      PendingOnlyDrains(c, r, i, j - 1, n);
      RunInv(c, r, j - 1);
      InvSaysFleet(c, r.states[j - 1]);
      assert StepAt(c, r, j - 1);
      PendingStep(c, r.states[j - 1], r.log[j - 1], n);
      PendingIsNotRegistered(c, r.states[j - 1], r.log[j - 1], n);
    }
  }

  lemma PendingIsNotRegistered(c: Config, s: State, e: Event, n: NodeId)
    requires Enabled(c, s, e) && n in s.fleet.pending
    ensures !(e.Register? && e.node == n)
  {
  }

  // ----- Sweeps -----

  /** One call of `expire` when no registered lease has lapsed. */
  ghost predicate Sweep(c: Config, s: State, t: State, now: Time) {
    var r := Apply(c, s, Reap(now));
    if r.fleet.pending == map[] then t == r
    else exists n, batch :: SweepOf(c, r, t, n, batch, now)
  }

  predicate SweepOf(c: Config, r: State, t: State, n: NodeId, batch: seq<Identity>, now: Time) {
    n in r.fleet.pending && IsBatch(c, r.work, r.arrivals, n, batch) && t == Advance(c, r, n, batch, now)
  }

  /** Work that was draining before and no longer is has its terminal record now. */
  ghost predicate Recorded(s: State, t: State) {
    var before, after := Draining(s.work, s.fleet.pending), Draining(t.work, t.fleet.pending);
    && after <= before
    && forall id | id in before - after ::
         && id in t.kept.terminals
         && t.kept.terminals[id].verdict == Cancelled && t.kept.terminals[id].reason == ServerUnregistered
  }

  lemma ReapDrains(c: Config, s: State, now: Time)
    requires Room(c, s)
    ensures var r := Apply(c, s, Reap(now));
            && Room(c, r) && r.work == s.work && r.fleet.pending == s.fleet.pending
            && r.leases == s.leases
  {
    var r := Apply(c, s, Reap(now));
    SubsetSize(r.kept.terminals.Keys, s.kept.terminals.Keys);
    SubsetSize(r.kept.controls.Keys, s.kept.controls.Keys);
    forall k: Digest
      ensures |OfClient(r.kept.terminals.Keys, k)| <= |OfClient(s.kept.terminals.Keys, k)|
    {
      SubsetSize(OfClient(r.kept.terminals.Keys, k), OfClient(s.kept.terminals.Keys, k));
    }
    forall n: NodeId
      ensures |ControlsOn(r.kept.controls, n)| <= |ControlsOn(s.kept.controls, n)|
    {
      SubsetSize(ControlsOn(r.kept.controls, n), ControlsOn(s.kept.controls, n));
    }
  }

  lemma CompletionDrains(c: Config, s: State, n: NodeId, now: Time)
    requires c.Valid() && Consistent(s) && Room(c, s) && Enabled(c, s, CompleteTransition(n, now))
    ensures var t := Apply(c, s, CompleteTransition(n, now));
            && Consistent(t) && Room(c, t) && t.work == s.work && t.kept == s.kept
            && Draining(t.work, t.fleet.pending) == Draining(s.work, s.fleet.pending)
            && |t.fleet.pending| == |s.fleet.pending| - 1
  {
    hide QueueInv, WorkBounds, ClaimInv, FleetInv, FleetBounds, HousedInv, OverInv, KeptInv, KeptBounds, CursorInv;
    var t := Apply(c, s, CompleteTransition(n, now));
    EventInv(c, s, CompleteTransition(n, now));
    IdleNodeHoldsNothing(s.work, n);
    assert Draining(t.work, t.fleet.pending) == Draining(s.work, s.fleet.pending);
    assert t.fleet.pending.Keys == s.fleet.pending.Keys - {n};
    assert |t.fleet.pending| == |t.fleet.pending.Keys| && |s.fleet.pending| == |s.fleet.pending.Keys|;
  }

  lemma PendingHasFence(f: Fleet, n: NodeId)
    requires FleetInv(f) && n in f.pending
    ensures FenceKey(n, f.pending[n].credential) in f.fences
  {
  }

  lemma InvSaysFleet(c: Config, s: State)
    requires Consistent(s)
    ensures FleetInv(s.fleet) && WorkInv(s.work)
  {
  }

  lemma BatchProgress(c: Config, s: State, n: NodeId, batch: seq<Identity>, now: Time)
    requires c.Valid() && Consistent(s) && Room(c, s) && n in s.fleet.pending && IsBatch(c, s.work, s.arrivals, n, batch)
    ensures var u := TeardownAll(c, s, batch, now);
            && Consistent(u) && Room(c, u) && u.fleet == s.fleet && Recorded(s, u)
            && |Draining(u.work, u.fleet.pending)| <= |Draining(s.work, s.fleet.pending)|
            && (WorkOf(u.work, n) != {} ==>
                  |Draining(u.work, u.fleet.pending)| < |Draining(s.work, s.fleet.pending)|)
  {
    hide Consistent, Room, Draining, WorkOf, TeardownAll, TeardownCount;
    var u := TeardownAll(c, s, batch, now);
    BatchTornDown(c, s, n, batch, now);
    BatchIsNotEmpty(c, s, n, batch);
    var before, after := Draining(s.work, s.fleet.pending), Draining(u.work, u.fleet.pending);
    assert before - after <= set id | id in batch;
    SubsetSize(after, before);
    if batch != [] {
      WorkIsDraining(c, s, n, batch[0]);
      SubsetSize(after, before - {batch[0]});
    }
  }

  lemma AdvanceProgress(c: Config, s: State, n: NodeId, batch: seq<Identity>, now: Time)
    requires c.Valid() && Consistent(s) && Room(c, s) && n in s.fleet.pending && IsBatch(c, s.work, s.arrivals, n, batch)
    ensures var t := Advance(c, s, n, batch, now);
            Consistent(t) && Room(c, t) && Remaining(t) < Remaining(s) && Recorded(s, t)
  {
    hide Consistent, Room, Draining, WorkOf, CompleteFleet, IsBatch, TeardownAll;
    var u := TeardownAll(c, s, batch, now);
    BatchProgress(c, s, n, batch, now);
    if WorkOf(u.work, n) == {} {
      InvSaysFleet(c, u);
      PendingHasFence(u.fleet, n);
      CompletionDrains(c, u, n, now);
    }
  }

  lemma BatchIsNotEmpty(c: Config, s: State, n: NodeId, batch: seq<Identity>)
    requires c.Valid() && IsBatch(c, s.work, s.arrivals, n, batch)
    ensures batch == [] ==> WorkOf(s.work, n) == {}
  {
  }

  /** A sweep with room keeps the room and makes strict progress while anything is pending. */
  lemma SweepProgress(c: Config, s: State, t: State, now: Time)
    requires c.Valid() && Consistent(s) && Room(c, s) && Sweep(c, s, t, now)
    ensures Consistent(t) && Room(c, t) && Recorded(s, t)
    ensures if s.fleet.pending == map[] then t.fleet.pending == map[] else Remaining(t) < Remaining(s)
  {
    hide Consistent, Room, Advance, IsBatch, ReapKept, ReapFleet;
    var r := Apply(c, s, Reap(now));
    ReapInv(c, s, now);
    ReapDrains(c, s, now);
    if r.fleet.pending != map[] {
      var n, batch :| SweepOf(c, r, t, n, batch, now);
      AdvanceProgress(c, r, n, batch, now);
    }
  }

  ghost predicate Sweeps(c: Config, states: seq<State>, nows: seq<Time>) {
    && |states| == |nows| + 1
    && forall i | 0 <= i < |nows| :: Sweep(c, states[i], states[i + 1], nows[i])
  }

  /**
    Draining finishes: with room for what is draining and no new lapsed lease, as many sweeps as
    there are items and transitions left complete every transition, and every item gets its record.
  */
  lemma {:induction false} DrainFinishes(c: Config, states: seq<State>, nows: seq<Time>)
    requires c.Valid() && Sweeps(c, states, nows) && Consistent(states[0]) && Room(c, states[0])
    requires |nows| >= Remaining(states[0])
    ensures states[|nows|].fleet.pending == map[]
    ensures forall id | id in Draining(states[0].work, states[0].fleet.pending) ::
              exists i :: 0 <= i < |states| && id in states[i].kept.terminals
                          && states[i].kept.terminals[id].verdict == Cancelled
  {
    hide Consistent, Room, Sweep, Draining, Remaining;
    if nows == [] {
      NothingRemains(states[0]);
    } else {
      SweepProgress(c, states[0], states[1], nows[0]);
      var rest := states[1..];
      assert forall i | 0 <= i < |nows[1..]| :: Sweep(c, rest[i], rest[i + 1], nows[1..][i]);
      if states[0].fleet.pending == map[] {
        NothingPending(states[0]);
        NothingPending(states[1]);
      }
      DrainFinishes(c, rest, nows[1..]);
      forall id | id in Draining(states[0].work, states[0].fleet.pending)
        ensures exists i :: 0 <= i < |states| && id in states[i].kept.terminals
                            && states[i].kept.terminals[id].verdict == Cancelled
      {
        if id in Draining(states[1].work, states[1].fleet.pending) {
          var i :| 0 <= i < |rest| && id in rest[i].kept.terminals && rest[i].kept.terminals[id].verdict == Cancelled;
          assert states[i + 1] == rest[i];
        }
      }
    }
  }

  lemma NothingRemains(s: State)
    requires Remaining(s) == 0
    ensures s.fleet.pending == map[] && Draining(s.work, s.fleet.pending) == {}
  {
  }

  lemma NothingPending(s: State)
    requires s.fleet.pending == map[]
    ensures Draining(s.work, s.fleet.pending) == {} && Remaining(s) == 0
  {
    assert Draining(s.work, s.fleet.pending) == {};
  }
}
