/**
  The scheduler's choice: unique, available whenever a node is eligible, and fair in rounds.
*/
module StoreScheduler {
  import opened RelayTypes
  import opened StoreState
  import opened StoreInvariant
  import opened StoreRuns

  ghost predicate Injective(order: map<NodeId, nat>) {
    forall m, n | m in order && n in order && order[m] == order[n] :: m == n
  }

  /** The guard leaves no freedom: the state determines the node. */
  lemma SelectionIsUnique(c: Config, s: State, fp: Fingerprint, m: NodeId, n: NodeId)
    requires FleetInv(s.fleet) && Selected(c, s, fp, m) && Selected(c, s, fp, n)
    ensures m == n
  {
    hide Tied, CursorOrder;
    assert s.fleet.order[m] == s.fleet.order[n];
  }

  lemma {:induction false} FirstInOrder(order: map<NodeId, nat>, some: set<NodeId>) returns (n: NodeId)
    requires some <= order.Keys && some != {}
    ensures n in some && forall m | m in some :: order[n] <= order[m]
    decreases |some|
  {
    var x :| x in some;
    n := x;
    if some != {x} {
      var y := FirstInOrder(order, some - {x});
      if order[y] < order[x] {
        n := y;
      }
      forall m | m in some
        ensures order[n] <= order[m]
      {
        assert m == x || m in some - {x};
      }
    }
  }

  lemma NextExists(order: map<NodeId, nat>, tied: set<NodeId>, cursor: int) returns (n: NodeId)
    requires tied <= order.Keys && tied != {}
    ensures NextInOrder(order, tied, cursor, n)
  {
    var later := set m | m in tied && order[m] > cursor;
    if later == {} {
      n := FirstInOrder(order, tied);
      forall m | m in tied
        ensures order[m] <= cursor
      {
        assert m !in later;
      }
    } else {
      n := FirstInOrder(order, later);
      assert n in later;
    }
  }

  lemma {:induction false} SomeBest(c: Config, s: State, fp: Fingerprint, some: set<NodeId>) returns (n: NodeId)
    requires FleetInv(s.fleet) && some != {}
    requires forall m | m in some :: m in s.fleet.nodes && Eligible(c, s, fp, m)
    ensures n in some && forall m | m in some :: NoWorse(s, n, m)
    decreases |some|
  {
    var x :| x in some;
    n := x;
    if some != {x} {
      var y := SomeBest(c, s, fp, some - {x});
      if !NoWorse(s, x, y) {
        n := y;
      }
      forall m | m in some
        ensures NoWorse(s, n, m)
      {
        assert m == x || m in some - {x};
      }
    } else {
      assert forall m | m in some :: m == x;
    }
  }

  /** The scheduler finds a node exactly when some registered node is eligible. */
  lemma SelectionExistsIff(c: Config, s: State, fp: Fingerprint)
    requires FleetInv(s.fleet)
    ensures (exists n :: Selected(c, s, fp, n)) <==> (exists n :: n in s.fleet.nodes && Eligible(c, s, fp, n))
  {
    if n :| Selected(c, s, fp, n) {
      assert n in s.fleet.nodes && Eligible(c, s, fp, n);
    }
    var eligible := set n | n in s.fleet.nodes && Eligible(c, s, fp, n);
    if eligible != {} {
      var best := SomeBest(c, s, fp, eligible);
      assert best in Tied(c, s, fp) by {
        assert forall m | m in s.fleet.nodes && Eligible(c, s, fp, m) :: m in eligible;
      }
      var next := NextExists(s.fleet.order, Tied(c, s, fp), CursorOrder(s, fp));
      assert Selected(c, s, fp, next);
    } else if n :| n in s.fleet.nodes && Eligible(c, s, fp, n) {
      assert n in eligible;
    }
  }

  // ----- Rounds -----

  ghost function Below(order: map<NodeId, nat>, tied: set<NodeId>, n: NodeId): set<NodeId>
    requires tied <= order.Keys && n in order
  {
    set m | m in tied && order[m] < order[n]
  }

  ghost function Rank(order: map<NodeId, nat>, tied: set<NodeId>, n: NodeId): nat
    requires tied <= order.Keys && n in order
  {
    |Below(order, tied, n)|
  }

  lemma RankInRange(order: map<NodeId, nat>, tied: set<NodeId>, n: NodeId)
    requires tied <= order.Keys && n in tied
    ensures Rank(order, tied, n) < |tied|
  {
    SubsetSize(Below(order, tied, n), tied - {n});
  }

  /** Choosing the next node after a member of the tie set advances the rank by one, cyclically. */
  lemma NextRank(order: map<NodeId, nat>, tied: set<NodeId>, p: NodeId, n: NodeId)
    requires Injective(order) && tied <= order.Keys && p in tied
    requires NextInOrder(order, tied, order[p], n)
    ensures Rank(order, tied, n) == if Rank(order, tied, p) + 1 == |tied| then 0 else Rank(order, tied, p) + 1
  {
    RankInRange(order, tied, p);
    RankInRange(order, tied, n);
    if order[n] > order[p] {
      assert Below(order, tied, n) == Below(order, tied, p) + {p};
    } else {
      assert Below(order, tied, n) == {};
      assert Below(order, tied, p) == tied - {p};
    }
  }

  ghost function CyclicAdd(a: nat, i: nat, k: nat): nat
    requires a < k && i <= k
  {
    if a + i < k then a + i else a + i - k
  }

  ghost predicate Round(order: map<NodeId, nat>, tied: set<NodeId>, cursor: int, picks: seq<NodeId>)
    requires tied <= order.Keys
  {
    && |picks| == |tied|
    && (forall i | 0 <= i < |picks| :: picks[i] in tied)
    && (|picks| > 0 ==> NextInOrder(order, tied, cursor, picks[0]))
    && (forall i | 0 < i < |picks| :: NextInOrder(order, tied, order[picks[i - 1]], picks[i]))
  }

  lemma {:induction false} RoundRanks(order: map<NodeId, nat>, tied: set<NodeId>, cursor: int,
                                      picks: seq<NodeId>, i: nat)
    requires Injective(order) && tied <= order.Keys && Round(order, tied, cursor, picks) && i < |picks|
    ensures Rank(order, tied, picks[0]) < |tied|
    ensures Rank(order, tied, picks[i]) == CyclicAdd(Rank(order, tied, picks[0]), i, |tied|)
  {
    RankInRange(order, tied, picks[0]);
    if i > 0 {
      RoundRanks(order, tied, cursor, picks, i - 1);
      RankInRange(order, tied, picks[i - 1]);
      NextRank(order, tied, picks[i - 1], picks[i]);
    }
  }

  lemma {:induction false} DistinctCover<T>(picks: seq<T>, all: set<T>)
    requires forall i, j | 0 <= i < j < |picks| :: picks[i] != picks[j]
    requires forall i | 0 <= i < |picks| :: picks[i] in all
    requires |picks| == |all|
    ensures forall x | x in all :: x in picks
  {
    if picks != [] {
      var last := picks[|picks| - 1];
      var rest := picks[..|picks| - 1];
      DistinctCover(rest, all - {last});
      forall x | x in all
        ensures x in picks
      {
        if x != last {
          assert x in rest;
        }
      }
    } else {
      assert all == {};
    }
  }

  /** One round of as many selections as there are tied nodes visits each of them exactly once. */
  lemma RoundVisitsEachOnce(order: map<NodeId, nat>, tied: set<NodeId>, cursor: int, picks: seq<NodeId>)
    requires Injective(order) && tied <= order.Keys && Round(order, tied, cursor, picks)
    ensures forall i, j | 0 <= i < j < |picks| :: picks[i] != picks[j]
    ensures forall n | n in tied :: n in picks
  {
    forall i, j | 0 <= i < j < |picks|
      ensures picks[i] != picks[j]
    {
      RoundRanks(order, tied, cursor, picks, i);
      RoundRanks(order, tied, cursor, picks, j);
    }
    DistinctCover(picks, tied);
  }

  // ----- Rounds in runs -----

  /** Step `i` is a selection for `fp` among exactly the nodes `tied`. */
  ghost predicate SelectsAmong(c: Config, r: Run, i: nat, fp: Fingerprint, tied: set<NodeId>)
    requires |r.states| == |r.log| + 1
  {
    i < |r.log| && r.log[i].Reserve? && r.log[i].reservation.fingerprint == fp && Tied(c, r.states[i], fp) == tied
  }

  /** The event removes a tied node, or moves or evicts the cursor of the fingerprint. */
  predicate Disturbs(e: Event, fp: Fingerprint, tied: set<NodeId>) {
    || (e.StartTransition? && e.node in tied)
    || (e.Reserve? && (e.reservation.fingerprint == fp || e.victim == Some(fp)))
  }

  /**
    Selections for `fp` at the steps `at`, each among exactly `tied`, with nothing between them that
    disturbs the round; anything else may happen, other nodes may come and go.
  */
  ghost predicate SteadySelections(c: Config, r: Run, at: seq<nat>, fp: Fingerprint, tied: set<NodeId>)
    requires |r.states| == |r.log| + 1
  {
    && (forall q | 0 <= q < |at| :: SelectsAmong(c, r, at[q], fp, tied))
    && (forall q | 0 <= q < |at| - 1 :: Undisturbed(r, at[q], at[q + 1], fp, tied))
  }

  predicate Undisturbed(r: Run, i: nat, j: nat, fp: Fingerprint, tied: set<NodeId>) {
    i < j < |r.log| && forall m: nat | i < m < j :: !Disturbs(r.log[m], fp, tied)
  }

  /** The places in registration order of the tied nodes. */
  ghost predicate Places(s: State, tied: set<NodeId>, place: map<NodeId, nat>) {
    place.Keys == tied && forall n | n in tied :: n in s.fleet.order && s.fleet.order[n] == place[n]
  }

  /** Who is next depends on the places of the tied nodes alone. */
  lemma PlacesDecide(order: map<NodeId, nat>, place: map<NodeId, nat>, tied: set<NodeId>, cursor: int, n: NodeId)
    requires tied <= order.Keys && place.Keys == tied && forall m | m in tied :: order[m] == place[m]
    ensures NextInOrder(order, tied, cursor, n) <==> NextInOrder(place, tied, cursor, n)
  {
  }

  lemma CursorStep(c: Config, s: State, e: Event, fp: Fingerprint, tied: set<NodeId>)
    requires Enabled(c, s, e) && !Disturbs(e, fp, tied)
    requires fp in s.fairness.cursors && s.fairness.cursors[fp].node in tied
    ensures fp in Apply(c, s, e).fairness.cursors
    ensures Apply(c, s, e).fairness.cursors[fp] == s.fairness.cursors[fp]
  {
    hide CanTerminalize, TransitionRoom, ResponseRoom, ClaimRoom, QueueRoom, LifecycleRoom, Selected, Evicts,
         TerminalFor, Conclude, ReapKept, RemoveWork, ReserveWork, EnqueueWork, CompletedBy,
         ResponseTo, LiveOwnedClaim;
  }

  lemma {:induction false} CursorWaits(c: Config, r: Run, i: nat, j: nat, fp: Fingerprint, tied: set<NodeId>, k: Cursor)
    requires IsRun(c, r) && i < j < |r.log| && Undisturbed(r, i, j, fp, tied)
    requires fp in r.states[i + 1].fairness.cursors && r.states[i + 1].fairness.cursors[fp] == k && k.node in tied
    ensures fp in r.states[j].fairness.cursors && r.states[j].fairness.cursors[fp] == k
  {
    hide Enabled, Apply, Disturbs;
    if i + 1 < j {
      CursorWaits(c, r, i, j - 1, fp, tied, k);
      assert StepAt(c, r, j - 1);
      CursorStep(c, r.states[j - 1], r.log[j - 1], fp, tied);
    }
  }

  lemma PlacesWait(c: Config, r: Run, i: nat, j: nat, fp: Fingerprint, tied: set<NodeId>, place: map<NodeId, nat>)
    requires IsRun(c, r) && Undisturbed(r, i, j, fp, tied) && SelectsAmong(c, r, i, fp, tied)
    requires Places(r.states[i], tied, place)
    ensures Places(r.states[j], tied, place)
  {
    forall n | n in tied
      ensures n in r.states[j].fleet.order && r.states[j].fleet.order[n] == place[n]
    {
      OwnerUntilRemoved(c, r, i, j, n);
    }
  }

  lemma SelectionPicks(c: Config, r: Run, i: nat, fp: Fingerprint, tied: set<NodeId>, place: map<NodeId, nat>)
    requires IsRun(c, r) && SelectsAmong(c, r, i, fp, tied) && Places(r.states[i], tied, place)
    ensures NextInOrder(place, tied, CursorOrder(r.states[i], fp), r.log[i].reservation.node)
    ensures r.log[i].reservation.node in tied && fp in r.states[i + 1].fairness.cursors
    ensures r.states[i + 1].fairness.cursors[fp].node == r.log[i].reservation.node
  {
    hide Tied, NextInOrder;
    SelectionStep(c, r, i);
    PlacesDecide(r.states[i].fleet.order, place, tied, CursorOrder(r.states[i], fp), r.log[i].reservation.node);
    PickedIsTied(place, tied, CursorOrder(r.states[i], fp), r.log[i].reservation.node);
  }

  lemma PickedIsTied(order: map<NodeId, nat>, tied: set<NodeId>, cursor: int, n: NodeId)
    requires tied <= order.Keys && NextInOrder(order, tied, cursor, n)
    ensures n in tied
  {
  }

  lemma NextSelectionPicks(c: Config, r: Run, i: nat, j: nat, fp: Fingerprint, tied: set<NodeId>,
                           place: map<NodeId, nat>)
    requires IsRun(c, r) && Undisturbed(r, i, j, fp, tied) && Places(r.states[i], tied, place)
    requires SelectsAmong(c, r, i, fp, tied) && SelectsAmong(c, r, j, fp, tied)
    ensures Places(r.states[j], tied, place) && r.log[i].reservation.node in tied
    ensures NextInOrder(place, tied, place[r.log[i].reservation.node], r.log[j].reservation.node)
  {
    hide Enabled, Apply, Tied, NextInOrder, Disturbs;
    SelectionPicks(c, r, i, fp, tied, place);
    PlacesWait(c, r, i, j, fp, tied, place);
    CursorWaits(c, r, i, j, fp, tied, r.states[i + 1].fairness.cursors[fp]);
    SelectionPicks(c, r, j, fp, tied, place);
  }

  /** The nodes that the steps `at` selected. */
  ghost function Picks(r: Run, at: seq<nat>): seq<NodeId>
    requires forall q | 0 <= q < |at| :: at[q] < |r.log| && r.log[at[q]].Reserve?
  {
    seq(|at|, q requires 0 <= q < |at| => r.log[at[q]].reservation.node)
  }

  lemma {:induction false} PlacesHold(c: Config, r: Run, at: seq<nat>, fp: Fingerprint, tied: set<NodeId>,
                                      place: map<NodeId, nat>, q: nat)
    requires IsRun(c, r) && SteadySelections(c, r, at, fp, tied) && q < |at|
    requires Places(r.states[at[0]], tied, place)
    ensures Places(r.states[at[q]], tied, place)
  {
    hide StepAt, SelectsAmong, Undisturbed, Places;
    if q > 0 {
      PlacesHold(c, r, at, fp, tied, place, q - 1);
      assert Undisturbed(r, at[q - 1], at[q - 1 + 1], fp, tied) && SelectsAmong(c, r, at[q - 1], fp, tied);
      PlacesWait(c, r, at[q - 1], at[q], fp, tied, place);
    }
  }

  lemma SteadyRound(c: Config, r: Run, at: seq<nat>, fp: Fingerprint, tied: set<NodeId>, place: map<NodeId, nat>)
    requires IsRun(c, r) && SteadySelections(c, r, at, fp, tied) && |at| == |tied| > 0
    requires Places(r.states[at[0]], tied, place)
    ensures place.Keys == tied
    ensures Round(place, tied, CursorOrder(r.states[at[0]], fp), Picks(r, at))
  {
    hide StepAt, Undisturbed, NextInOrder, CursorOrder, Tied;
    var picks := Picks(r, at);
    forall q | 0 <= q < |picks|
      ensures picks[q] in tied
    {
      PlacesHold(c, r, at, fp, tied, place, q);
      SelectionPicks(c, r, at[q], fp, tied, place);
    }
    SelectionPicks(c, r, at[0], fp, tied, place);
    forall q | 0 <= q < |picks| - 1
      ensures NextInOrder(place, tied, place[picks[q]], picks[q + 1])
    {
      PlacesHold(c, r, at, fp, tied, place, q);
      assert Undisturbed(r, at[q], at[q + 1], fp, tied);
      NextSelectionPicks(c, r, at[q], at[q + 1], fp, tied, place);
    }
  }

  /**
    Fairness over runs: selections for one fingerprint among the same k tied nodes, with no other
    selection for it, no eviction of its cursor and no removal of a tied node in between, serve each
    tied node exactly once in k turns, whatever else happens to the store.
  */
  lemma FairRounds(c: Config, r: Run, at: seq<nat>, fp: Fingerprint, tied: set<NodeId>)
    requires IsRun(c, r) && SteadySelections(c, r, at, fp, tied) && |at| == |tied| > 0
    ensures forall i, j | 0 <= i < j < |at| :: Picks(r, at)[i] != Picks(r, at)[j]
    ensures forall n | n in tied :: n in Picks(r, at)
  {
    hide StepAt, Undisturbed, NextInOrder, CursorOrder, Round;
    assert SelectsAmong(c, r, at[0], fp, tied);
    SelectionStep(c, r, at[0]);
    InjectiveOrder(c, r, at[0]);
    var order := r.states[at[0]].fleet.order;
    var place := map n | n in tied :: order[n];
    SteadyRound(c, r, at, fp, tied, place);
    RoundVisitsEachOnce(place, tied, CursorOrder(r.states[at[0]], fp), Picks(r, at));
  }

  lemma InjectiveOrder(c: Config, r: Run, i: nat)
    requires IsRun(c, r) && i < |r.log|
    ensures Injective(r.states[i].fleet.order)
  {
    hide WorkInv, QueueInv, WorkBounds, ClaimInv, FleetBounds, HousedInv, OverInv, KeptInv, KeptBounds, CursorInv, Enabled, Apply;
    RunInv(c, r, i);
  }

  lemma SelectionStep(c: Config, r: Run, i: nat)
    requires IsRun(c, r) && i < |r.log| && r.log[i].Reserve?
    ensures var s, t, picked := r.states[i], r.states[i + 1], r.log[i].reservation;
            && Selected(c, s, picked.fingerprint, picked.node)
            && picked.fingerprint in t.fairness.cursors
            && t.fairness.cursors[picked.fingerprint].node == picked.node
  {
    assert StepAt(c, r, i);
  }

  /** Only the removal of its node takes away the cursor of a fingerprint with live work. */
  lemma ActiveCursorStays(c: Config, s: State, e: Event, fp: Fingerprint)
    requires Enabled(c, s, e) && fp in s.fairness.cursors && ActiveFingerprint(s.work, fp)
    ensures fp in Apply(c, s, e).fairness.cursors
            || (e.StartTransition? && s.fairness.cursors[fp].node == e.node)
  {
    hide CanTerminalize, TransitionRoom, ResponseRoom, ClaimRoom, QueueRoom, LifecycleRoom, Selected,
         TerminalFor, Conclude, ReapKept, RemoveWork, ReserveWork, EnqueueWork, CompletedBy,
         ResponseTo, LiveOwnedClaim, ActiveFingerprint;
  }
}
