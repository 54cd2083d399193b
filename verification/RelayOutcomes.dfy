/**
  What the thread that holds the terminal-transition lock has achieved when it frees the lock,
  whatever the other threads do meanwhile: a cancellation ends what it takes over, a posting answers
  it, and neither holds the lock for ever.
*/
module RelayOutcomes {
  import RelayTypes
  import opened RelayRaces

  // ----- Taking a request over -----

  /** Some of the pair's work was waiting before and is gone after. */
  ghost predicate Takes(s: Relay, t: Relay, p: Pair) {
    || (Queued(s.traffic, p) && !Queued(t.traffic, p))
    || (p in s.traffic.pending && p !in t.traffic.pending)
    || (exists k :: k in SlotsOf(s.traffic, p) && k !in t.traffic.inFlight)
  }

  ghost predicate TakesAt(states: seq<Relay>, steps: seq<Step>, k: nat, p: Pair) {
    k < |steps| && k + 1 < |states| && steps[k].Advance? && Takes(states[k], states[k + 1], p)
  }

  /** The thread that begins at step i holds the lock until j. */
  ghost predicate HoldsLock(states: seq<Relay>, i: nat, j: nat) {
    i < j < |states| && states[j].holder.Idle? && forall m | i < m < j :: !states[m].holder.Idle?
  }

  predicate Cancelling(h: Program) {
    || h.CancelUnqueue? || h.CancelPending? || h.CancelInFlight? || h.CancelDecide? || h.MarkTime? || h.MarkPrune?
    || h.MarkInsert? || h.CountTime? || h.CountInsert?
  }

  lemma UnqueuedIsGone(t: Traffic, p: Pair)
    ensures !Queued(Unqueued(t, p), p)
  {
    var u := Unqueued(t, p);
    forall n, i | n in u.queues && 0 <= i < |u.queues[n]|
      ensures u.queues[n][i].pair != p
    {
      WithoutPairMembers(t.queues[n], p);
      assert u.queues[n][i] in WithoutPair(t.queues[n], p);
    }
  }

  // ----- Cancelling -----

  /** How long the marker that a cancellation beginning in s leaves is to last. */
  function Until(ttl: RelayTypes.Time, s: Relay, p: Pair): RelayTypes.Time {
    if Terminal(s, p) then s.markers[p] else s.wall + ttl
  }

  predicate Marked(s: Relay, p: Pair, until: RelayTypes.Time) {
    s.wall < until ==> Terminal(s, p) && s.markers[p] >= until
  }

  /** No marker of the pair but the one it had. */
  predicate MarkedBefore(s: Relay, t: Relay, p: Pair) {
    && s.wall <= t.wall
    && (Terminal(s, p) ==> Marked(t, p, s.markers[p]))
    && (p in t.markers ==> p in s.markers && t.markers[p] == s.markers[p])
  }

  /** Where the cancellation that began in start is; took if it has taken over anything so far. */
  predicate Cancels(ttl: RelayTypes.Time, start: Relay, s: Relay, p: Pair, took: bool) {
    && Cancelling(s.holder) && s.holder.pair == p && p !in s.responses && start.wall <= s.wall
    && match s.holder
       case CancelUnqueue(_, won, _) => !won && !took && Untouched(start, s, p)
       case CancelPending(_, won, owned, _) => !won && owned == took && Untouched(start, s, p)
       case CancelInFlight(_, won, owned, _) => !won && owned == took && Untouched(start, s, p)
       case CancelDecide(_, won, owned, _) => !won && owned == took && Untouched(start, s, p)
       case MarkTime(_, _) => took && Untouched(start, s, p)
       case MarkPrune(_, expiry, _) => took && Untouched(start, s, p) && start.wall + ttl <= expiry
       case MarkInsert(_, expiry, _) =>
         took && Untouched(start, s, p) && start.wall + ttl <= expiry && (p in s.markers ==> Terminal(start, p))
       case CountTime(_, _) => took && Marked(s, p, Until(ttl, start, p)) && Uncounted(start, s, p)
       case CountInsert(_, expiry, _) =>
         took && Marked(s, p, Until(ttl, start, p)) && Uncounted(start, s, p) && start.wall + ttl <= expiry
  }

  predicate Uncounted(start: Relay, s: Relay, p: Pair) {
    && s.ledger.counted == start.ledger.counted && s.posted == start.posted
    && (p in s.ledger.outcomes ==> p in start.ledger.outcomes)
  }

  predicate Untouched(start: Relay, s: Relay, p: Pair) {
    MarkedBefore(start, s, p) && Uncounted(start, s, p)
  }

  /** An outcome of the pair is on record: one that was, or one of this kind that has been counted since. */
  predicate Tallied(ttl: RelayTypes.Time, start: Relay, s: Relay, p: Pair, kind: Kind) {
    && p in s.ledger.outcomes
    && if s.ledger.counted == start.ledger.counted then p in start.ledger.outcomes
       else
         && |s.ledger.counted| == |start.ledger.counted| + 1 && start.ledger.counted <= s.ledger.counted
         && var c := s.ledger.counted[|start.ledger.counted|];
         && c.pair == p && c.kind == kind && start.wall <= c.at && start.wall + ttl <= c.until
         && s.ledger.outcomes[p] == c.until
  }

  /** What a cancellation that began in start has left behind. */
  predicate Cancelled(ttl: RelayTypes.Time, start: Relay, s: Relay, p: Pair, took: bool) {
    && p !in s.responses && start.wall <= s.wall
    && if took then
         && Marked(s, p, Until(ttl, start, p)) && s.posted == start.posted
         && (!Terminal(start, p) ==> Tallied(ttl, start, s, p, AsTerminal))
       else Untouched(start, s, p)
  }

  // ----- One step of a cancellation -----

  lemma MarkedLater(s: Relay, t: Relay, p: Pair, until: RelayTypes.Time)
    requires Marked(s, p, until) && s.wall <= t.wall
    requires Terminal(s, p) && t.wall < s.markers[p] ==> p in t.markers && t.markers[p] == s.markers[p]
    ensures Marked(t, p, until)
  {
  }

  /** What a step of another thread, or of the clock, leaves as it is. */
  lemma OtherStep(ttl: RelayTypes.Time, s: Relay, step: Step, p: Pair)
    requires Can(s, step) && !step.Advance? && !s.holder.Idle?
    ensures var t := Do(ttl, s, step);
            && t.holder == s.holder && s.wall <= t.wall && t.ledger.counted == s.ledger.counted && t.posted == s.posted
            && (p in t.markers ==> p in s.markers && t.markers[p] == s.markers[p])
            && (Terminal(s, p) ==> p in t.markers)
            && (p !in s.responses ==> p !in t.responses)
            && (p in t.ledger.outcomes ==> p in s.ledger.outcomes)
  {
    hide Moved, WithoutResponses, Proceed, CountOnce;
    if step.DropResponses? {
      assert forall q | q in WithoutResponses(s.responses, step.pair) :: q in s.responses;
    }
  }

  lemma UntouchedStays(start: Relay, s: Relay, t: Relay, p: Pair)
    requires Untouched(start, s, p) && s.wall <= t.wall
    requires t.ledger.counted == s.ledger.counted && t.posted == s.posted
    requires p in t.ledger.outcomes ==> p in s.ledger.outcomes
    requires p in t.markers ==> p in s.markers && t.markers[p] == s.markers[p]
    requires Terminal(s, p) && t.wall < s.markers[p] ==> p in t.markers
    ensures Untouched(start, t, p)
  {
  }

  lemma CancelsMeanwhile(ttl: RelayTypes.Time, start: Relay, s: Relay, step: Step, p: Pair, took: bool)
    requires Can(s, step) && !step.Advance? && Cancels(ttl, start, s, p, took)
    ensures Cancels(ttl, start, Do(ttl, s, step), p, took)
  {
    var t := Do(ttl, s, step);
    OtherStep(ttl, s, step, p);
    hide Can, Do, Untouched, MarkedBefore, Marked;
    if Untouched(start, s, p) {
      UntouchedStays(start, s, t, p);
    }
    if Marked(s, p, Until(ttl, start, p)) {
      MarkedLater(s, t, p, Until(ttl, start, p));
    }
  }

  /** What the cancelling thread takes over in its next step. */
  lemma CancelTakes(ttl: RelayTypes.Time, s: Relay, server: RelayTypes.NodeId)
    requires Cancelling(s.holder)
    ensures var t, h := Proceed(ttl, s, server), s.holder;
            Takes(s, t, h.pair) <==>
              || (h.CancelUnqueue? && Queued(s.traffic, h.pair))
              || (h.CancelPending? && h.pair in s.traffic.pending)
              || (h.CancelInFlight? && SlotsOf(s.traffic, h.pair) != {})
  {
    hide Unqueued, Queued, Unexpired, CountOnce, Pruned, Terminal;
    UnqueuedIsGone(s.traffic, s.holder.pair);
    SameQueues(s.traffic, s.holder.pair);
  }

  lemma SameQueues(t: Traffic, p: Pair)
    ensures Queued(Unpending(t, p), p) <==> Queued(t, p)
    ensures Queued(Released(t, SlotsOf(t, p)), p) <==> Queued(t, p)
    ensures Unqueued(t, p).pending == t.pending && Unqueued(t, p).inFlight == t.inFlight
  {
    assert Unpending(t, p).queues == t.queues && Released(t, SlotsOf(t, p)).queues == t.queues;
  }

  /** The next step of the thread itself. */
  lemma CancelsOn(ttl: RelayTypes.Time, start: Relay, s: Relay, server: RelayTypes.NodeId, p: Pair, took: bool)
    requires Cancels(ttl, start, s, p, took)
    ensures var t := Proceed(ttl, s, server);
            var all := took || Takes(s, t, p);
            if Cancelling(t.holder) then Cancels(ttl, start, t, p, all) && t.holder.nested == s.holder.nested
            else t.holder == Return(p, s.holder.nested) && Cancelled(ttl, start, t, p, all)
  {
    CancelTakes(ttl, s, server);
    hide Unqueued, Queued, Released, Unpending, SlotsOf, Takes;
  }

  // ----- Whole cancellations -----

  /** Between the two moments the thread that holds the lock has taken over some of the pair's work. */
  ghost predicate TookOver(states: seq<Relay>, steps: seq<Step>, i: nat, j: nat, p: Pair) {
    exists k :: i < k < j && TakesAt(states, steps, k, p)
  }

  lemma TookOverNext(states: seq<Relay>, steps: seq<Step>, i: nat, m: nat, p: Pair)
    requires |states| == |steps| + 1 && i < m < |steps|
    ensures TookOver(states, steps, i, m + 1, p) <==> TookOver(states, steps, i, m, p) || TakesAt(states, steps, m, p)
  {
    hide TakesAt;
    if TookOver(states, steps, i, m + 1, p) {
      var k :| i < k < m + 1 && TakesAt(states, steps, k, p);
      assert k < m || k == m;
    }
  }

  /** The steps of the run from `i` to `m` when a cancellation has begun at step `i`. */
  lemma {:induction false} CancelsThrough(ttl: RelayTypes.Time, states: seq<Relay>, steps: seq<Step>, i: nat, m: nat, p: Pair)
    requires Run(ttl, states, steps) && i < m < |states| && Cancels(ttl, states[i], states[i + 1], p, false)
    requires forall n | i < n <= m :: Cancelling(states[n].holder)
    ensures Cancels(ttl, states[i], states[m], p, TookOver(states, steps, i, m, p))
    ensures states[m].holder.nested == states[i + 1].holder.nested
  {
    hide Can, Do, Proceed, Cancels, TookOver, Takes;
    if m == i + 1 {
      NothingTaken(states, steps, i, p);
    } else {
      CancelsThrough(ttl, states, steps, i, m - 1, p);
      TookOverNext(states, steps, i, m - 1, p);
      CancelsNext(ttl, states[i], states[m - 1], steps[m - 1], p, TookOver(states, steps, i, m - 1, p));
    }
  }

  lemma NothingTaken(states: seq<Relay>, steps: seq<Step>, i: nat, p: Pair)
    ensures !TookOver(states, steps, i, i + 1, p)
  {
  }

  lemma CancelsNext(ttl: RelayTypes.Time, start: Relay, s: Relay, step: Step, p: Pair, took: bool)
    requires Can(s, step) && Cancels(ttl, start, s, p, took)
    ensures var t := Do(ttl, s, step);
            var all := took || (step.Advance? && Takes(s, t, p));
            if Cancelling(t.holder) then Cancels(ttl, start, t, p, all) && t.holder.nested == s.holder.nested
            else step.Advance? && t.holder == Return(p, s.holder.nested) && Cancelled(ttl, start, t, p, all)
  {
    hide Proceed, Cancels, Cancelled, Takes, Moved, Can;
    CancelsHolds(ttl, start, s, p, took);
    if step.Advance? {
      CancelsOn(ttl, start, s, step.server, p, took);
    } else {
      CancelsMeanwhile(ttl, start, s, step, p, took);
      HolderStays(ttl, s, step);
    }
  }

  lemma CancelsHolds(ttl: RelayTypes.Time, start: Relay, s: Relay, p: Pair, took: bool)
    requires Cancels(ttl, start, s, p, took)
    ensures Cancelling(s.holder) && s.holder.pair == p && p !in s.responses
  {
  }

  lemma HolderStays(ttl: RelayTypes.Time, s: Relay, step: Step)
    requires Can(s, step) && !step.Advance? && !s.holder.Idle?
    ensures Do(ttl, s, step).holder == s.holder
  {
    hide Moved, WithoutResponses, LookedUp, Unexpired, Pruned, Forgotten;
  }

  lemma BeginsCancel(ttl: RelayTypes.Time, s: Relay, p: Pair)
    requires Can(s, BeginCancel(p)) && p !in s.responses
    ensures Cancels(ttl, s, Do(ttl, s, BeginCancel(p)), p, false)
    ensures !Do(ttl, s, BeginCancel(p)).holder.nested
  {
  }

  /** A cancellation that holds the lock is cancelling until it frees it. */
  lemma {:induction false} CancelHoldsLock(ttl: RelayTypes.Time, states: seq<Relay>, steps: seq<Step>, i: nat, j: nat, p: Pair)
    requires Run(ttl, states, steps) && HoldsLock(states, i, j) && i < |steps| && steps[i] == BeginCancel(p)
    requires p !in states[i].responses
    ensures i + 1 < j && forall n | i < n < j :: Cancelling(states[n].holder)
    ensures Cancels(ttl, states[i], states[i + 1], p, false) && !states[i + 1].holder.nested
  {
    hide Can, Do, Cancels, Takes;
    BeginsCancel(ttl, states[i], p);
    CancelsHolds(ttl, states[i], states[i + 1], p, false);
    assert j != i + 1;
    forall n | i < n < j
      ensures Cancelling(states[n].holder)
    {
      CancellingUntil(ttl, states, steps, i, j, p, n);
    }
  }

  lemma {:induction false} CancellingUntil(ttl: RelayTypes.Time, states: seq<Relay>, steps: seq<Step>, i: nat, j: nat, p: Pair, n: nat)
    requires Run(ttl, states, steps) && HoldsLock(states, i, j) && i < n < j
    requires Cancels(ttl, states[i], states[i + 1], p, false) && !states[i + 1].holder.nested
    ensures forall m | i < m <= n :: Cancelling(states[m].holder)
  {
    hide Can, Do, Cancels, Takes, TookOver;
    CancelsHolds(ttl, states[i], states[i + 1], p, false);
    if n > i + 1 {
      CancellingUntil(ttl, states, steps, i, j, p, n - 1);
      CancelsThrough(ttl, states, steps, i, n - 1, p);
      CancelsNext(ttl, states[i], states[n - 1], steps[n - 1], p, TookOver(states, steps, i, n - 1, p));
    }
  }

  /**
    What a cancellation has done when it frees the lock, with no response queued for its pair when it
    began: if it has taken over anything, wherever the request was, the pair is marked for a whole
    retention window and an outcome is on record; if not, it has changed neither.
  */
  lemma CancellationEnds(ttl: RelayTypes.Time, states: seq<Relay>, steps: seq<Step>, i: nat, j: nat, p: Pair)
    requires Run(ttl, states, steps) && HoldsLock(states, i, j) && i < |steps| && steps[i] == BeginCancel(p)
    requires p !in states[i].responses
    ensures Cancelled(ttl, states[i], states[j], p, TookOver(states, steps, i, j, p))
  {
    hide Can, Do, Cancels, Takes, TookOver, Cancelled;
    CancelHoldsLock(ttl, states, steps, i, j, p);
    CancelsThrough(ttl, states, steps, i, j - 1, p);
    TookOverNext(states, steps, i, j - 1, p);
    CancelsNext(ttl, states[i], states[j - 1], steps[j - 1], p, TookOver(states, steps, i, j - 1, p));
  }

  // ----- Pending requests -----

  /** What is pending is taken over when the thread comes to it, if not before. */
  predicate WillTake(s: Relay, p: Pair, took: bool) {
    took || ((s.holder.CancelUnqueue? || s.holder.CancelPending?) && p in s.traffic.pending)
  }

  lemma PendingStays(ttl: RelayTypes.Time, s: Relay, step: Step, p: Pair)
    requires Can(s, step) && !step.Advance? && p in s.traffic.pending && p !in s.responses
    ensures p in Do(ttl, s, step).traffic.pending
    ensures !(step.Admit? && step.item.pair == p) ==> Do(ttl, s, step).traffic.pending[p] == s.traffic.pending[p]
  {
    hide WithoutResponses, LookedUp, Unexpired, Pruned, Forgotten;
  }

  lemma WillTakeNext(ttl: RelayTypes.Time, start: Relay, s: Relay, step: Step, p: Pair, took: bool)
    requires Can(s, step) && Cancels(ttl, start, s, p, took) && WillTake(s, p, took)
    ensures var t := Do(ttl, s, step);
            WillTake(t, p, took || (step.Advance? && Takes(s, t, p)))
  {
    hide Moved, Cancels, Unqueued, Queued, Takes, Cancelling;
    CancelsHolds(ttl, start, s, p, took);
    if step.Advance? {
      CancelTakes(ttl, s, step.server);
      SameQueues(s.traffic, p);
    } else if !took {
      PendingStays(ttl, s, step, p);
      HolderStays(ttl, s, step);
    }
  }

  lemma {:induction false} PendingIsTaken(ttl: RelayTypes.Time, states: seq<Relay>, steps: seq<Step>, i: nat, m: nat, p: Pair)
    requires Run(ttl, states, steps) && i < m < |states| && Cancels(ttl, states[i], states[i + 1], p, false)
    requires states[i + 1].holder.CancelUnqueue? && p in states[i + 1].traffic.pending
    requires forall n | i < n < m :: Cancelling(states[n].holder)
    ensures WillTake(states[m], p, TookOver(states, steps, i, m, p))
  {
    hide Can, Do, Proceed, Cancels, TookOver, Takes;
    if m > i + 1 {
      PendingIsTaken(ttl, states, steps, i, m - 1, p);
      CancelsThrough(ttl, states, steps, i, m - 1, p);
      TookOverNext(states, steps, i, m - 1, p);
      WillTakeNext(ttl, states[i], states[m - 1], steps[m - 1], p, TookOver(states, steps, i, m - 1, p));
    }
  }

  // ----- For how long -----

  /** An outcome of the pair stays on record until then. */
  predicate OnRecord(s: Relay, p: Pair, until: RelayTypes.Time) {
    s.wall < until ==> p in s.ledger.outcomes && s.ledger.outcomes[p] >= until
  }

  lemma OnRecordStep(ttl: RelayTypes.Time, s: Relay, step: Step, p: Pair, until: RelayTypes.Time)
    requires Can(s, step) && OnRecord(s, p, until)
    ensures OnRecord(Do(ttl, s, step), p, until)
  {
    WallStep(ttl, s, step);
    hide Moved, Queued, Unqueued, Unpending, Released, SlotsOf, Stale, WithoutResponses, LookedUp;
  }

  lemma {:induction false} OnRecordStays(ttl: RelayTypes.Time, states: seq<Relay>, steps: seq<Step>, i: nat, j: nat, p: Pair,
                                         until: RelayTypes.Time)
    requires Run(ttl, states, steps) && i <= j < |states| && OnRecord(states[i], p, until)
    ensures OnRecord(states[j], p, until)
  {
    hide Can, Do, OnRecord;
    if i < j {
      OnRecordStays(ttl, states, steps, i, j - 1, p, until);
      OnRecordStep(ttl, states[j - 1], steps[j - 1], p, until);
    }
  }

  lemma {:induction false} WallGrows(ttl: RelayTypes.Time, states: seq<Relay>, steps: seq<Step>, i: nat, j: nat)
    requires Run(ttl, states, steps) && i <= j < |states|
    ensures states[i].wall <= states[j].wall
  {
    hide Can, Do;
    if i < j {
      WallGrows(ttl, states, steps, i, j - 1);
      WallStep(ttl, states[j - 1], steps[j - 1]);
    }
  }

  lemma MarkedStays(ttl: RelayTypes.Time, states: seq<Relay>, steps: seq<Step>, i: nat, j: nat, p: Pair, until: RelayTypes.Time)
    requires Run(ttl, states, steps) && i <= j < |states| && Marked(states[i], p, until)
    ensures Marked(states[j], p, until) && (states[j].wall < until ==> p !in states[j].responses)
  {
    hide Can, Do;
    WallGrows(ttl, states, steps, i, j);
    if states[j].wall < until {
      MarkerIsFinal(ttl, states, steps, i, j, p);
    }
  }

  /**
    A cancellation that has taken over anything while no response was queued: from the moment it frees
    the lock until the window is over the pair is marked, its outcome is on record, and nothing that is
    posted queues a response.
  */
  lemma CancelledForGood(ttl: RelayTypes.Time, states: seq<Relay>, steps: seq<Step>, i: nat, j: nat, n: nat, p: Pair)
    requires Run(ttl, states, steps) && HoldsLock(states, i, j) && i < |steps| && steps[i] == BeginCancel(p)
    requires p !in states[i].responses && TookOver(states, steps, i, j, p)
    requires j <= n < |states| && states[n].wall < Until(ttl, states[i], p)
    ensures Terminal(states[n], p) && p !in states[n].responses
    ensures !Terminal(states[i], p) ==> Tallied(ttl, states[i], states[j], p, AsTerminal)
    ensures !Terminal(states[i], p) && p !in states[i].ledger.outcomes ==> p in states[n].ledger.outcomes
  {
    hide Can, Do, Takes, TookOver;
    CancellationEnds(ttl, states, steps, i, j, p);
    MarkedStays(ttl, states, steps, j, n, p, Until(ttl, states[i], p));
    if p !in states[i].ledger.outcomes && !Terminal(states[i], p) {
      OnRecordStays(ttl, states, steps, j, n, p, Until(ttl, states[i], p));
    }
  }

  /** In particular a request that is pending when its cancellation begins is cancelled for good. */
  lemma PendingIsCancelled(ttl: RelayTypes.Time, states: seq<Relay>, steps: seq<Step>, i: nat, j: nat, p: Pair)
    requires Run(ttl, states, steps) && HoldsLock(states, i, j) && i < |steps| && steps[i] == BeginCancel(p)
    requires p !in states[i].responses && p in states[i].traffic.pending
    ensures TookOver(states, steps, i, j, p)
  {
    hide Can, Do, Takes, TookOver, Cancels;
    CancelHoldsLock(ttl, states, steps, i, j, p);
    BeginsPending(ttl, states[i], p);
    PendingIsTaken(ttl, states, steps, i, j, p);
  }

  lemma BeginsPending(ttl: RelayTypes.Time, s: Relay, p: Pair)
    requires Can(s, BeginCancel(p))
    ensures var t := Do(ttl, s, BeginCancel(p)); t.traffic == s.traffic && t.holder.CancelUnqueue?
  {
  }

  // ----- Cancellations that come too late -----

  /** A response was queued when the cancellation began. */
  predicate Loses(start: Relay, s: Relay, p: Pair) {
    && (s.holder.CancelUnqueue? || s.holder.CancelPending? || s.holder.CancelInFlight? || s.holder.CancelDecide?)
    && s.holder.pair == p && s.holder.won && !s.holder.nested && Untouched(start, s, p)
  }

  lemma LosesNext(ttl: RelayTypes.Time, start: Relay, s: Relay, step: Step, p: Pair)
    requires Can(s, step) && Loses(start, s, p)
    ensures var t := Do(ttl, s, step);
            Untouched(start, t, p) && if step.Advance? && s.holder.CancelDecide? then t.holder.Idle? else Loses(start, t, p)
  {
    hide Moved, Queued, Unqueued, Unpending, Released, SlotsOf, WithoutResponses;
    if !step.Advance? {
      OtherStep(ttl, s, step, p);
      UntouchedStays(start, s, Do(ttl, s, step), p);
    }
  }

  lemma {:induction false} LosesThrough(ttl: RelayTypes.Time, states: seq<Relay>, steps: seq<Step>, i: nat, m: nat, p: Pair)
    requires Run(ttl, states, steps) && i < m < |states| && Loses(states[i], states[i + 1], p)
    requires forall n | i < n < m :: !states[n].holder.Idle?
    ensures Untouched(states[i], states[m], p) && (states[m].holder.Idle? || Loses(states[i], states[m], p))
  {
    hide Can, Do, Untouched, Loses;
    if m == i + 1 {
      LosesHolds(states[i], states[m], p);
    } else {
      LosesThrough(ttl, states, steps, i, m - 1, p);
      LosesNext(ttl, states[i], states[m - 1], steps[m - 1], p);
    }
  }

  lemma LosesHolds(start: Relay, s: Relay, p: Pair)
    requires Loses(start, s, p)
    ensures Untouched(start, s, p) && !s.holder.Idle?
  {
  }

  /** A response that is queued when the cancellation begins has won: nothing is marked or counted. */
  lemma CompletedWins(ttl: RelayTypes.Time, states: seq<Relay>, steps: seq<Step>, i: nat, j: nat, p: Pair)
    requires Run(ttl, states, steps) && HoldsLock(states, i, j) && i < |steps| && steps[i] == BeginCancel(p)
    requires p in states[i].responses
    ensures Untouched(states[i], states[j], p)
  {
    hide Untouched, Loses, Do, Can;
    BeginsLate(ttl, states[i], p);
    LosesThrough(ttl, states, steps, i, j, p);
  }

  lemma BeginsLate(ttl: RelayTypes.Time, s: Relay, p: Pair)
    requires Can(s, BeginCancel(p)) && p in s.responses
    ensures Loses(s, Do(ttl, s, BeginCancel(p)), p)
  {
  }

  // ----- Posting -----

  /** The posting of the pair, past its checks for an end that has come before it. */
  predicate Open(h: Program) {
    || h.PostInFlight? || h.PostUnqueue? || h.PostPending? || h.PostLastCheck? || h.PostTime? || h.PostCount? || h.PostQueue?
  }

  /** The posting itself, not an expiry within it, takes over work. */
  ghost predicate PostTakesAt(states: seq<Relay>, steps: seq<Step>, k: nat, p: Pair) {
    TakesAt(states, steps, k, p) && !Cancelling(states[k].holder)
  }

  ghost predicate PostTookOver(states: seq<Relay>, steps: seq<Step>, i: nat, j: nat, p: Pair) {
    exists k :: i < k < j && PostTakesAt(states, steps, k, p)
  }

  /** It does so while no outcome of the pair is on record. */
  ghost predicate PostWins(states: seq<Relay>, steps: seq<Step>, i: nat, j: nat, p: Pair) {
    exists k :: i < k < j && PostTakesAt(states, steps, k, p) && p !in states[k].ledger.outcomes
  }

  /** A response queued since `start`, with a completed outcome counted for a whole window. */
  predicate Answered(ttl: RelayTypes.Time, start: Relay, s: Relay, p: Pair) {
    && p in s.responses && |s.posted| == |start.posted| + 1 && start.posted <= s.posted
    && var posted := s.posted[|start.posted|];
    && posted.pair == p && |start.ledger.counted| <= posted.index && Completes(ttl, start, s.ledger, p, posted.index)
  }

  predicate Completes(ttl: RelayTypes.Time, start: Relay, l: Ledger, p: Pair, index: nat) {
    && index < |l.counted|
    && l.counted[index].pair == p && l.counted[index].kind == AsCompleted
    && start.wall <= l.counted[index].at && start.wall + ttl <= l.counted[index].until
  }

  /**
    Where the posting that began in `start` is; `took` if it has taken over anything, `wins` if no
    outcome was on record then.
  */
  predicate Posts(ttl: RelayTypes.Time, start: Relay, s: Relay, p: Pair, took: bool, wins: bool) {
    && !s.holder.Idle? && s.holder.pair == p && start.wall <= s.wall && s.posted == start.posted && start.ledger.counted <= s.ledger.counted
    && (wins ==> took) && (Open(s.holder) ==> !Terminal(s, p) && p !in s.responses)
    && (s.holder.PostQueue? || (wins ==> p !in s.ledger.outcomes))
    && match s.holder
       case PostUnqueue(_, owned) => owned == took
       case PostPending(_, owned) => owned == took
       case PostLastCheck(_, owned) => owned == took
       case PostTime(_) => took
       case PostCount(_, expiry) => took && start.wall + ttl <= expiry
       case PostQueue(_, index) => took && |start.ledger.counted| <= index && Completes(ttl, start, s.ledger, p, index)
       case _ => !took && (Cancelling(s.holder) ==> s.holder.nested)
  }

  /** How a posting ends: with an answer, which it owes if it wins, or with none. */
  predicate PostEnds(ttl: RelayTypes.Time, start: Relay, s: Relay, p: Pair, took: bool, wins: bool) {
    if Answered(ttl, start, s, p) then took else !wins && s.posted == start.posted
  }

  lemma PostsMeanwhile(ttl: RelayTypes.Time, start: Relay, s: Relay, step: Step, p: Pair, took: bool, wins: bool)
    requires Can(s, step) && !step.Advance? && Posts(ttl, start, s, p, took, wins)
    ensures Posts(ttl, start, Do(ttl, s, step), p, took, wins)
  {
    OtherStep(ttl, s, step, p);
    hide Can, Do;
  }

  /** What the posting takes over in its next step. */
  lemma PostTakes(ttl: RelayTypes.Time, s: Relay, server: RelayTypes.NodeId)
    requires !s.holder.Idle? && Can(s, Advance(server)) && !Cancelling(s.holder)
    ensures var t, h := Proceed(ttl, s, server), s.holder;
            Takes(s, t, h.pair) <==>
              || (h.PostUnqueue? && Queued(s.traffic, h.pair))
              || (h.PostPending? && h.pair in s.traffic.pending)
              || (h.PostInFlight? && SlotsOf(s.traffic, h.pair) != {})
  {
    hide Unqueued, Queued, Unexpired, CountOnce, Pruned, Terminal, LookedUp, Stale;
    UnqueuedIsGone(s.traffic, s.holder.pair);
    SameQueues(s.traffic, s.holder.pair);
    assert Released(s.traffic, {Slot(server, s.holder.pair.request)}).queues == s.traffic.queues;
    QueuedBy(s.traffic, Released(s.traffic, {Slot(server, s.holder.pair.request)}), s.holder.pair);
  }

  lemma QueuedBy(t: Traffic, u: Traffic, p: Pair)
    requires t.queues == u.queues
    ensures Queued(t, p) <==> Queued(u, p)
  {
  }

  lemma PostsOn(ttl: RelayTypes.Time, start: Relay, s: Relay, server: RelayTypes.NodeId, p: Pair, took: bool, wins: bool)
    requires Can(s, Advance(server)) && Posts(ttl, start, s, p, took, wins) && !Cancelling(s.holder)
    requires Posting(s.holder) ==> p !in s.responses
    ensures var t := Proceed(ttl, s, server);
            var takes := Takes(s, t, p);
            var all, sure := took || takes, wins || (takes && p !in s.ledger.outcomes);
            if t.holder.Idle? then PostEnds(ttl, start, t, p, all, sure) else Posts(ttl, start, t, p, all, sure)
  {
    PostTakes(ttl, s, server);
    hide Unqueued, Queued, Released, Unpending, SlotsOf, Takes, Stale;
  }

  lemma PostsOver(ttl: RelayTypes.Time, start: Relay, s: Relay, server: RelayTypes.NodeId, p: Pair, took: bool, wins: bool)
    requires Can(s, Advance(server)) && Posts(ttl, start, s, p, took, wins) && Cancelling(s.holder)
    ensures Posts(ttl, start, Proceed(ttl, s, server), p, took, wins)
  {
    hide Unqueued, Queued, Released, Unpending, SlotsOf, Takes, Stale;
  }

  lemma PostTookNext(states: seq<Relay>, steps: seq<Step>, i: nat, m: nat, p: Pair)
    requires |states| == |steps| + 1 && i < m < |steps|
    ensures PostTookOver(states, steps, i, m + 1, p) <==> PostTookOver(states, steps, i, m, p) || PostTakesAt(states, steps, m, p)
    ensures PostWins(states, steps, i, m + 1, p) <==>
              PostWins(states, steps, i, m, p) || (PostTakesAt(states, steps, m, p) && p !in states[m].ledger.outcomes)
  {
    hide PostTakesAt;
    if PostTookOver(states, steps, i, m + 1, p) {
      var k :| i < k < m + 1 && PostTakesAt(states, steps, k, p);
      assert k < m || k == m;
    }
    if PostWins(states, steps, i, m + 1, p) {
      var k :| i < k < m + 1 && PostTakesAt(states, steps, k, p) && p !in states[k].ledger.outcomes;
      assert k < m || k == m;
    }
  }

  lemma PostsNext(ttl: RelayTypes.Time, start: Relay, s: Relay, step: Step, p: Pair, took: bool, wins: bool)
    requires Can(s, step) && Inv(s) && Posts(ttl, start, s, p, took, wins)
    ensures var t := Do(ttl, s, step);
            var takes := step.Advance? && Takes(s, t, p) && !Cancelling(s.holder);
            var all, sure := took || takes, wins || (takes && p !in s.ledger.outcomes);
            if t.holder.Idle? then PostEnds(ttl, start, t, p, all, sure) else Posts(ttl, start, t, p, all, sure)
  {
    hide Proceed, Can, Moved, Takes, PostEnds, Exclusive, CountedOnce, PostedOnce, Known;
    PostsHolds(ttl, start, s, p, took, wins);
    if !step.Advance? {
      HolderStays(ttl, s, step);
      PostsMeanwhile(ttl, start, s, step, p, took, wins);
    } else if Cancelling(s.holder) {
      PostsOver(ttl, start, s, step.server, p, took, wins);
      PostsHolds(ttl, start, Do(ttl, s, step), p, took, wins);
    } else {
      PostsOn(ttl, start, s, step.server, p, took, wins);
    }
  }

  lemma PostsHolds(ttl: RelayTypes.Time, start: Relay, s: Relay, p: Pair, took: bool, wins: bool)
    requires Posts(ttl, start, s, p, took, wins)
    ensures !s.holder.Idle? && s.holder.pair == p
  {
  }

  lemma {:induction false} PostsThrough(ttl: RelayTypes.Time, states: seq<Relay>, steps: seq<Step>, i: nat, m: nat, p: Pair)
    requires Run(ttl, states, steps) && i < m < |states| && i < |steps| && steps[i] == BeginPost(p)
    requires forall n | i < n <= m :: !states[n].holder.Idle?
    ensures Posts(ttl, states[i], states[m], p, PostTookOver(states, steps, i, m, p), PostWins(states, steps, i, m, p))
  {
    hide Can, Do, Posts, PostEnds, Inv, TakesAt, PostTookOver, PostWins;
    if m == i + 1 {
      BeginsPost(ttl, states[i], p);
      NothingPosted(states, steps, i, p);
    } else {
      PostsThrough(ttl, states, steps, i, m - 1, p);
      RunInv(ttl, states, steps, m - 1);
      PostTookNext(states, steps, i, m - 1, p);
      TakenAt(states, steps, m - 1, p);
      PostsNext(ttl, states[i], states[m - 1], steps[m - 1], p, PostTookOver(states, steps, i, m - 1, p),
                PostWins(states, steps, i, m - 1, p));
    }
  }

  lemma TakenAt(states: seq<Relay>, steps: seq<Step>, k: nat, p: Pair)
    requires |states| == |steps| + 1 && k < |steps|
    ensures TakesAt(states, steps, k, p) <==> steps[k].Advance? && Takes(states[k], states[k + 1], p)
  {
  }

  lemma NothingPosted(states: seq<Relay>, steps: seq<Step>, i: nat, p: Pair)
    ensures !PostTookOver(states, steps, i, i + 1, p) && !PostWins(states, steps, i, i + 1, p)
  {
  }

  lemma BeginsPost(ttl: RelayTypes.Time, s: Relay, p: Pair)
    requires Can(s, BeginPost(p))
    ensures var t := Do(ttl, s, BeginPost(p));
            if t.holder.Idle? then Terminal(s, p) && PostEnds(ttl, s, t, p, false, false) else Posts(ttl, s, t, p, false, false)
  {
  }

  /**
    What a posting has done when it frees the lock: it has queued its response and counted it as
    completed if it has taken over anything while no outcome was on record, and only if it has taken
    over anything; otherwise it has queued nothing.
  */
  lemma PostingEnds(ttl: RelayTypes.Time, states: seq<Relay>, steps: seq<Step>, i: nat, j: nat, p: Pair)
    requires Run(ttl, states, steps) && HoldsLock(states, i, j) && i < |steps| && steps[i] == BeginPost(p)
    ensures PostEnds(ttl, states[i], states[j], p, PostTookOver(states, steps, i, j, p), PostWins(states, steps, i, j, p))
  {
    hide Can, Do, Posts, PostEnds, Inv, TakesAt, PostTookOver, PostWins;
    if j == i + 1 {
      BeginsPost(ttl, states[i], p);
      NothingPosted(states, steps, i, p);
    } else {
      PostsThrough(ttl, states, steps, i, j - 1, p);
      RunInv(ttl, states, steps, j - 1);
      PostTookNext(states, steps, i, j - 1, p);
      TakenAt(states, steps, j - 1, p);
      PostsNext(ttl, states[i], states[j - 1], steps[j - 1], p, PostTookOver(states, steps, i, j - 1, p),
                PostWins(states, steps, i, j - 1, p));
    }
  }

  // ----- Posting the answer of a pending request -----

  /** The request is pending, before its deadline and open, until the posting has taken it over. */
  predicate Awaits(s: Relay, p: Pair, deadline: RelayTypes.Time, wins: bool) {
    && !s.holder.Idle? && s.holder.pair == p && !Cancelling(s.holder)
    && p !in s.responses && !Terminal(s, p) && (s.holder.PostQueue? || p !in s.ledger.outcomes)
    && (|| wins
        || ((s.holder.PostDuplicate? || s.holder.PostExpire? || s.holder.PostRecheck? || s.holder.PostInFlight?
             || s.holder.PostUnqueue? || s.holder.PostPending?)
            && p in s.traffic.pending && s.traffic.pending[p] == deadline))
  }

  lemma AwaitsNext(ttl: RelayTypes.Time, start: Relay, s: Relay, step: Step, p: Pair, deadline: RelayTypes.Time,
                   took: bool, wins: bool)
    requires Can(s, step) && Awaits(s, p, deadline, wins) && s.mono < deadline && !(step.Admit? && step.item.pair == p)
    requires Posts(ttl, start, s, p, took, wins)
    ensures var t := Do(ttl, s, step);
            var sure := wins || (step.Advance? && Takes(s, t, p) && p !in s.ledger.outcomes);
            if t.holder.Idle? then sure else Awaits(t, p, deadline, sure)
  {
    hide Moved, Unqueued, Queued, Takes, WithoutResponses;
    if step.Advance? {
      PostTakes(ttl, s, step.server);
      SameQueues(s.traffic, p);
    } else {
      OtherStep(ttl, s, step, p);
      if !wins {
        PendingStays(ttl, s, step, p);
      }
    }
  }

  /** From `i` to `j` the pair is not admitted again, and its deadline does not come. */
  ghost predicate InTime(states: seq<Relay>, steps: seq<Step>, i: nat, j: nat, p: Pair, deadline: RelayTypes.Time) {
    && |states| == |steps| + 1 && j < |states|
    && (forall m | i <= m <= j :: states[m].mono < deadline)
    && forall m | i <= m < j && steps[m].Admit? :: steps[m].item.pair != p
  }

  lemma {:induction false} AwaitsThrough(ttl: RelayTypes.Time, states: seq<Relay>, steps: seq<Step>, i: nat, m: nat, p: Pair,
                                         deadline: RelayTypes.Time)
    requires Run(ttl, states, steps) && i < m < |states| && i < |steps| && steps[i] == BeginPost(p)
    requires InTime(states, steps, i, m, p, deadline) && Awaits(states[i + 1], p, deadline, false)
    requires forall n | i < n < m :: !states[n].holder.Idle?
    ensures if states[m].holder.Idle? then PostWins(states, steps, i, m, p)
            else Awaits(states[m], p, deadline, PostWins(states, steps, i, m, p))
  {
    hide Can, Do, Posts, Awaits, TakesAt, Takes, PostTookOver, PostWins;
    NothingPosted(states, steps, i, p);
    AwaitsHolds(states[i + 1], p, deadline, false);
    if m > i + 1 {
      AwaitsThrough(ttl, states, steps, i, m - 1, p, deadline);
      AwaitsHolds(states[m - 1], p, deadline, PostWins(states, steps, i, m - 1, p));
      PostsThrough(ttl, states, steps, i, m - 1, p);
      PostTookNext(states, steps, i, m - 1, p);
      TakenAt(states, steps, m - 1, p);
      AwaitsNext(ttl, states[i], states[m - 1], steps[m - 1], p, deadline, PostTookOver(states, steps, i, m - 1, p),
                 PostWins(states, steps, i, m - 1, p));
    }
  }

  lemma AwaitsHolds(s: Relay, p: Pair, deadline: RelayTypes.Time, wins: bool)
    requires Awaits(s, p, deadline, wins)
    ensures !s.holder.Idle? && s.holder.pair == p && !Cancelling(s.holder)
  {
  }

  lemma BeginsAwaited(ttl: RelayTypes.Time, s: Relay, p: Pair)
    requires Can(s, BeginPost(p)) && p in s.traffic.pending && p !in s.responses && !Terminal(s, p) && p !in s.ledger.outcomes
    ensures Awaits(Do(ttl, s, BeginPost(p)), p, s.traffic.pending[p], false)
  {
  }

  /** A posting for a pending request, in time, with neither an end nor an answer on record, answers it. */
  lemma PendingIsAnswered(ttl: RelayTypes.Time, states: seq<Relay>, steps: seq<Step>, i: nat, j: nat, p: Pair)
    requires Run(ttl, states, steps) && HoldsLock(states, i, j) && i < |steps| && steps[i] == BeginPost(p)
    requires var s := states[i];
             && p in s.traffic.pending && InTime(states, steps, i, j, p, s.traffic.pending[p])
             && p !in s.responses && !Terminal(s, p) && p !in s.ledger.outcomes
    ensures Answered(ttl, states[i], states[j], p)
  {
    hide Can, Do, Posts, Awaits, Answered, TakesAt, PostTookOver, PostWins;
    BeginsAwaited(ttl, states[i], p);
    AwaitsThrough(ttl, states, steps, i, j, p, states[i].traffic.pending[p]);
    PostingEnds(ttl, states, steps, i, j, p);
  }

  // ----- Posting after the deadline -----

  /** The deadline of the pending request has passed, and the posting is about to see it. */
  predicate FindsStale(start: Relay, s: Relay, p: Pair) {
    && (s.holder.PostDuplicate? || s.holder.PostExpire?) && s.holder.pair == p
    && Stale(s, p) && p !in s.responses && Untouched(start, s, p)
  }

  lemma FindsStaleNext(ttl: RelayTypes.Time, start: Relay, s: Relay, step: Step, p: Pair)
    requires Can(s, step) && FindsStale(start, s, p) && !(step.Admit? && step.item.pair == p)
    ensures var t := Do(ttl, s, step);
            FindsStale(start, t, p) || (Cancels(ttl, start, t, p, false) && t.holder.nested && WillTake(t, p, false))
  {
    hide Moved, Unqueued, Queued, Takes, WithoutResponses;
    if !step.Advance? {
      OtherStep(ttl, s, step, p);
      UntouchedStays(start, s, Do(ttl, s, step), p);
      PendingStays(ttl, s, step, p);
      MonoStep(ttl, s, step);
    } else {
      UntouchedWall(start, s, p);
    }
  }

  lemma UntouchedWall(start: Relay, s: Relay, p: Pair)
    requires Untouched(start, s, p)
    ensures start.wall <= s.wall
  {
  }

  lemma MonoStep(ttl: RelayTypes.Time, s: Relay, step: Step)
    requires Can(s, step)
    ensures s.mono <= Do(ttl, s, step).mono
  {
    hide Moved, Queued, Unqueued, Unpending, Released, SlotsOf, Stale, WithoutResponses, LookedUp, Unexpired, CountOnce,
         Terminal, Pruned, Forgotten;
  }

  /** Where the expiry within a posting is after some steps: not begun, under way, or over at `e`. */
  lemma {:induction false} ExpiryThrough(ttl: RelayTypes.Time, states: seq<Relay>, steps: seq<Step>, i: nat, m: nat, p: Pair)
    returns (took: bool, e: nat)
    requires Run(ttl, states, steps) && i < m < |states| && FindsStale(states[i], states[i + 1], p)
    requires forall n | i < n < m && steps[n].Admit? :: steps[n].item.pair != p
    ensures || FindsStale(states[i], states[m], p)
            || (Cancels(ttl, states[i], states[m], p, took) && states[m].holder.nested && WillTake(states[m], p, took))
            || (i < e <= m && Cancelled(ttl, states[i], states[e], p, true))
  {
    hide Can, Do, FindsStale, Cancels, Cancelled, WillTake, Takes;
    took, e := false, 0;
    if m > i + 1 {
      var start, s, step := states[i], states[m - 1], steps[m - 1];
      took, e := ExpiryThrough(ttl, states, steps, i, m - 1, p);
      if !(i < e <= m - 1 && Cancelled(ttl, start, states[e], p, true)) {
        if FindsStale(start, s, p) {
          FindsStaleNext(ttl, start, s, step, p);
          took := false;
        } else {
          var all := took || (step.Advance? && Takes(s, states[m], p));
          CancelsNext(ttl, start, s, step, p, took);
          WillTakeNext(ttl, start, s, step, p, took);
          TookAtEnd(states[m], p, all);
          took, e := all, m;
        }
      }
    }
  }

  lemma TookAtEnd(s: Relay, p: Pair, took: bool)
    requires WillTake(s, p, took)
    ensures Cancelling(s.holder) || took
  {
  }

  lemma NotYetOver(ttl: RelayTypes.Time, start: Relay, s: Relay, p: Pair, took: bool)
    requires FindsStale(start, s, p) || Cancels(ttl, start, s, p, took)
    ensures !s.holder.Idle?
  {
  }

  lemma BeginsStale(ttl: RelayTypes.Time, s: Relay, p: Pair)
    requires Can(s, BeginPost(p)) && Stale(s, p) && p !in s.responses && !Terminal(s, p)
    ensures FindsStale(s, Do(ttl, s, BeginPost(p)), p)
  {
  }

  /**
    A posting for a pending request whose deadline has passed ends the request instead: from when it
    frees the lock until the window is over the pair is marked, its outcome is on record, and it has
    no response.
  */
  lemma StaleIsExpired(ttl: RelayTypes.Time, states: seq<Relay>, steps: seq<Step>, i: nat, j: nat, n: nat, p: Pair)
    requires Run(ttl, states, steps) && HoldsLock(states, i, j) && i < |steps| && steps[i] == BeginPost(p)
    requires var s := states[i]; Stale(s, p) && p !in s.responses && !Terminal(s, p) && p !in s.ledger.outcomes
    requires forall m | i < m < j && steps[m].Admit? :: steps[m].item.pair != p
    requires j <= n < |states| && states[n].wall < states[i].wall + ttl
    ensures Terminal(states[n], p) && p in states[n].ledger.outcomes && p !in states[n].responses
  {
    hide Can, Do, FindsStale, Cancels, WillTake, Takes, Marked, OnRecord, Stale, Untouched;
    BeginsStale(ttl, states[i], p);
    var took, e := ExpiryThrough(ttl, states, steps, i, j, p);
    if !(i < e <= j && Cancelled(ttl, states[i], states[e], p, true)) {
      NotYetOver(ttl, states[i], states[j], p, took);
    }
    Expired(ttl, states[i], states[e], p);
    MarkedStays(ttl, states, steps, e, n, p, states[i].wall + ttl);
    OnRecordStays(ttl, states, steps, e, n, p, states[i].wall + ttl);
    InForce(states[n], p, states[i].wall + ttl);
  }

  lemma Expired(ttl: RelayTypes.Time, start: Relay, s: Relay, p: Pair)
    requires Cancelled(ttl, start, s, p, true) && !Terminal(start, p) && p !in start.ledger.outcomes
    ensures Marked(s, p, start.wall + ttl) && OnRecord(s, p, start.wall + ttl)
  {
  }

  lemma InForce(s: Relay, p: Pair, until: RelayTypes.Time)
    requires Marked(s, p, until) && OnRecord(s, p, until) && s.wall < until
    ensures Terminal(s, p) && p in s.ledger.outcomes
  {
  }

  // ----- The lock is freed -----

  /** Steps that the holder has left at most. */
  function Left(h: Program): nat {
    match h
    case Idle => 0
    case PostQueue(_, _) => 1
    case PostCount(_, _) => 2
    case PostTime(_) => 3
    case PostLastCheck(_, _) => 4
    case PostPending(_, _) => 5
    case PostUnqueue(_, _) => 6
    case PostInFlight(_) => 7
    case PostRecheck(_) => 8
    case CountInsert(_, _, _) => 9
    case CountTime(_, _) => 10
    case MarkInsert(_, _, _) => 11
    case MarkPrune(_, _, _) => 12
    case MarkTime(_, _) => 13
    case CancelDecide(_, _, _, _) => 14
    case CancelInFlight(_, _, _, _) => 15
    case CancelPending(_, _, _, _) => 16
    case CancelUnqueue(_, _, _) => 17
    case PostExpire(_) => 18
    case PostDuplicate(_) => 19
  }

  lemma HolderAdvances(ttl: RelayTypes.Time, s: Relay, server: RelayTypes.NodeId)
    requires !s.holder.Idle?
    ensures Left(Proceed(ttl, s, server).holder) < Left(s.holder)
  {
    hide Unqueued, Queued, Released, Unpending, SlotsOf, Stale, CountOnce, Pruned, LookedUp, Unexpired, Terminal;
  }

  /** Its own steps since `i`. */
  function OwnSteps(steps: seq<Step>, i: nat, j: nat): nat
    requires i <= j <= |steps|
  {
    if i == j then 0 else OwnSteps(steps, i, j - 1) + if steps[j - 1].Advance? then 1 else 0
  }

  lemma {:induction false} StepsLeft(ttl: RelayTypes.Time, states: seq<Relay>, steps: seq<Step>, i: nat, j: nat)
    requires Run(ttl, states, steps) && i <= j < |states| && forall n | i <= n < j :: !states[n].holder.Idle?
    ensures OwnSteps(steps, i, j) + Left(states[j].holder) <= Left(states[i].holder)
  {
    hide Can, Do, Proceed, Left;
    if i < j {
      StepsLeft(ttl, states, steps, i, j - 1);
      if steps[j - 1].Advance? {
        AdvanceIsProceed(ttl, states[j - 1], steps[j - 1].server);
        HolderAdvances(ttl, states[j - 1], steps[j - 1].server);
      } else {
        HolderStays(ttl, states[j - 1], steps[j - 1]);
      }
    }
  }

  lemma AdvanceIsProceed(ttl: RelayTypes.Time, s: Relay, server: RelayTypes.NodeId)
    requires Can(s, Advance(server))
    ensures Do(ttl, s, Advance(server)) == Proceed(ttl, s, server)
  {
  }

  /**
    No cancellation or posting waits for anything but the one step that appends an admitted request,
    and it frees the lock after at most nineteen steps of its own, whatever the others do.
  */
  lemma LockIsFreed(ttl: RelayTypes.Time, states: seq<Relay>, steps: seq<Step>, i: nat, j: nat)
    requires Run(ttl, states, steps) && i < j < |states|
    ensures !states[j].holder.Idle? ==> Can(states[j], Append) || exists server :: Can(states[j], Advance(server))
    ensures OwnSteps(steps, i, j) >= 19 ==> exists n :: i <= n <= j && states[n].holder.Idle?
  {
    hide Do, Left, OwnSteps;
    if !states[j].holder.Idle? {
      CanGoOn(states[j]);
    }
    if forall n | i <= n < j :: !states[n].holder.Idle? {
      StepsLeft(ttl, states, steps, i, j);
      LeftAtMost(states[i].holder);
      LeftAtMost(states[j].holder);
    }
  }

  lemma LeftAtMost(h: Program)
    ensures Left(h) <= 19 && (Left(h) == 0 <==> h.Idle?)
  {
  }

  lemma CanGoOn(s: Relay)
    requires !s.holder.Idle?
    ensures Can(s, Append) || exists server :: Can(s, Advance(server))
  {
    var server := if k :| k in SlotsOf(s.traffic, s.holder.pair) then k.server else 0;
    assert s.traffic.admitting.None? ==> Can(s, Advance(server));
  }

  // ----- Delivery -----

  function QueueAt(t: Traffic, server: RelayTypes.NodeId): seq<Item> {
    if server in t.queues then t.queues[server] else []
  }

  /**
    A server's queue only ever grows at its end, by the admitted request, and shrinks at its head, by
    the one that a poll takes; otherwise a request leaves it only when the holder of the lock takes
    its pair over, or with its server.
  */
  lemma QueueMoves(ttl: RelayTypes.Time, s: Relay, step: Step, server: RelayTypes.NodeId)
    requires Can(s, step)
    ensures var q, r := QueueAt(s.traffic, server), QueueAt(Do(ttl, s, step).traffic, server);
            if step.Append? && s.traffic.admitting.value.server == server then r == q + [s.traffic.admitting.value.item]
            else if step.Pop? && step.server == server then q != [] && r == q[1..]
            else if step.Remove? && step.server == server then r == []
            else if step.Advance? && (s.holder.CancelUnqueue? || s.holder.PostUnqueue?) then r == WithoutPair(q, s.holder.pair)
            else r == q
  {
    hide Moved, Proceed, QueueAt, WithoutPair;
    if step.Advance? {
      OwnQueueMoves(ttl, s, step.server, server);
    } else {
      OtherQueueMoves(ttl, s, step, server);
    }
  }

  lemma OwnQueueMoves(ttl: RelayTypes.Time, s: Relay, at: RelayTypes.NodeId, server: RelayTypes.NodeId)
    requires !s.holder.Idle?
    ensures QueueAt(Proceed(ttl, s, at).traffic, server)
              == (if s.holder.CancelUnqueue? || s.holder.PostUnqueue? then WithoutPair(QueueAt(s.traffic, server), s.holder.pair)
                  else QueueAt(s.traffic, server))
  {
    hide Queued, SlotsOf, Stale, CountOnce, Pruned, LookedUp, Unexpired, Terminal, Unqueued, WithoutPair;
    QueueWithout(s.traffic, server, s.holder.pair);
  }

  lemma OtherQueueMoves(ttl: RelayTypes.Time, s: Relay, step: Step, server: RelayTypes.NodeId)
    requires Can(s, step) && !step.Advance?
    ensures var q, r := QueueAt(s.traffic, server), QueueAt(Do(ttl, s, step).traffic, server);
            if step.Append? && s.traffic.admitting.value.server == server then r == q + [s.traffic.admitting.value.item]
            else if step.Pop? && step.server == server then q != [] && r == q[1..]
            else if step.Remove? && step.server == server then r == []
            else r == q
  {
    hide Queued, SlotsOf, Stale, CountOnce, Pruned, LookedUp, Unexpired, Terminal, WithoutResponses, Forgotten, Proceed;
  }

  lemma QueueWithout(t: Traffic, server: RelayTypes.NodeId, p: Pair)
    ensures QueueAt(Unqueued(t, p), server) == WithoutPair(QueueAt(t, server), p)
  {
  }

  /** A poll hands out the head of the queue, and puts exactly that in flight on its server. */
  lemma PollHandsOver(ttl: RelayTypes.Time, s: Relay, step: Step, thread: nat)
    requires Can(s, step)
    ensures var t, polled := Do(ttl, s, step).traffic, s.traffic.polled;
            && (step.Pop? && step.thread == thread ==>
                  && QueueAt(s.traffic, step.server) != []
                  && t.polled == polled[thread := Polled(step.server, QueueAt(s.traffic, step.server)[0])])
            && (step.Insert? && step.thread == thread ==>
                  && thread in polled && t.polled == polled - {thread}
                  && var item := polled[thread].item;
                  t.inFlight == s.traffic.inFlight[Slot(polled[thread].server, item.pair.request) := InFlight(item.pair.client, item.deadline)])
            && (!step.Pop? && !step.Insert? && !step.GiveUp? ==> t.polled == polled)
  {
    hide Queued, SlotsOf, Stale, CountOnce, Pruned, LookedUp, Unexpired, Terminal, WithoutResponses, Forgotten, WithoutPair,
         Proceed;
    if step.Advance? {
      HolderPollsNothing(ttl, s, step.server);
    }
  }

  lemma HolderPollsNothing(ttl: RelayTypes.Time, s: Relay, server: RelayTypes.NodeId)
    requires !s.holder.Idle?
    ensures Proceed(ttl, s, server).traffic.polled == s.traffic.polled
  {
    hide Queued, SlotsOf, Stale, CountOnce, Pruned, LookedUp, Unexpired, Terminal, WithoutPair;
  }

  // ----- Retrieval -----

  lemma {:induction false} OthersStay(responses: seq<Pair>, p: Pair, q: Pair)
    requires q in responses && q != p
    ensures q in WithoutResponses(responses, p)
  {
    if responses[0] != q {
      OthersStay(responses[1..], p, q);
    }
  }

  /** The step hands out, or clears away, the response of the pair. */
  predicate TakesResponse(s: Relay, step: Step, p: Pair) {
    || (step.Retrieve? && step.at < |s.responses| && s.responses[step.at] == p)
    || (step.DropResponses? && step.pair == p)
  }

  lemma ResponseStep(ttl: RelayTypes.Time, s: Relay, step: Step, p: Pair)
    requires Can(s, step) && p in s.responses && !TakesResponse(s, step, p)
    ensures p in Do(ttl, s, step).responses
  {
    ResponsesFrame(ttl, s, step);
    hide Do, Can;
    if step.DropResponses? {
      OthersStay(s.responses, step.pair, p);
    } else if step.Retrieve? {
      var i :| 0 <= i < |s.responses| && s.responses[i] == p;
      if step.at < |s.responses| {
        assert i < step.at ==> s.responses[..step.at][i] == p;
        assert i > step.at ==> s.responses[step.at + 1..][i - step.at - 1] == p;
      }
    }
  }

  /** A queued response waits until it is retrieved, and is then neither queued nor pending. */
  lemma {:induction false} AnswerWaits(ttl: RelayTypes.Time, states: seq<Relay>, steps: seq<Step>, i: nat, j: nat, p: Pair)
    requires Run(ttl, states, steps) && i <= j < |states| && p in states[i].responses
    requires forall m | i <= m < j :: !TakesResponse(states[m], steps[m], p)
    ensures p in states[j].responses
    ensures j < |steps| && steps[j].Retrieve? && TakesResponse(states[j], steps[j], p) ==>
              p !in states[j + 1].responses && p !in states[j + 1].traffic.pending
  {
    hide Can, Do, TakesResponse;
    if i < j {
      AnswerWaits(ttl, states, steps, i, j - 1, p);
      ResponseStep(ttl, states[j - 1], steps[j - 1], p);
    }
    if j < |steps| && steps[j].Retrieve? && TakesResponse(states[j], steps[j], p) {
      RunInv(ttl, states, steps, j);
      RetrievedIsGone(ttl, states[j], steps[j], p);
    }
  }

  lemma RetrievedIsGone(ttl: RelayTypes.Time, s: Relay, step: Step, p: Pair)
    requires Can(s, step) && Inv(s) && step.Retrieve? && TakesResponse(s, step, p)
    ensures var t := Do(ttl, s, step); p !in t.responses && p !in t.traffic.pending
  {
    hide Exclusive, CountedOnce, PostedOnce, Known;
  }
}
