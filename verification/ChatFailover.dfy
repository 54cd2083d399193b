/**
  The browser client's failover loop against an arbitrary relay.

  The environment is any script of replies, server selections and node counts, so every behaviour
  of relay and servers, however adversarial, is covered.  A trace records what passed between client
  and relay; `Played` says which acts may follow one another and `Ends` when the client may give up.
*/
module ChatFailover {
  import opened RelayTypes

  type ServerKey = nat

  /** What one encrypted request came back with. */
  datatype Reply =
    | Terminated
    | Nothing
    | Answer
    | ContextExceeded
    | Failed(terminal: bool)

  datatype Selected = Selected(server: ServerKey, tier: Tier)

  /** The k-th answer of each kind the environment gives; `lost` means the selection is gone by then. */
  datatype Environment = Environment(
    modelKnown: nat -> bool,
    reply: nat -> Reply,
    lost: nat -> bool,
    selection: nat -> Option<Selected>,
    refresh: nat -> Option<Option<int>>)

  datatype Kind = First | ContextRetry | Failover

  /** A request sent to a server; `recorded` if the server was then noted as terminally failed. */
  datatype Dispatch = Dispatch(to: Selected, requested: Tier, kind: Kind, reply: Reply, recorded: bool)

  /** What passed between client and relay: a selection, a request, or a new node count. */
  datatype Act =
    | Offered(offer: Option<Selected>, requested: Tier, replacing: bool)
    | Sent(dispatch: Dispatch)
    | Refreshed(count: Option<Option<int>>)

  type Trace = seq<Act>

  /** What the client starts from. */
  datatype Start = Start(auto: bool, wanted: Tier, selected: Option<Selected>, nodes: Option<int>)

  /** What one attempt to send came to. */
  datatype Attempt = NotSent | Replied(reply: Reply, tier: Tier)

  datatype Next = Unavailable | KnownFailed | Chosen

  datatype Result = Stopped | Returned(attempt: Attempt) | NoServer | Exhausted

  predicate Satisfies(offered: Tier, requested: Tier) {
    offered.Tokens() >= requested.Tokens()
  }

  predicate Fits(selected: Option<Selected>, requested: Tier) {
    selected.Some? && Satisfies(selected.value.tier, requested)
  }

  /**
    How many replacement servers are worth trying: one if no node count is known, else as many of
    three as there are other nodes.
  */
  function FailoverLimit(nodes: Option<int>): (limit: nat)
    ensures nodes == None ==> limit == 1
    ensures nodes.Some? && nodes.value >= 1 ==> limit < nodes.value && (limit == 3 || limit + 1 == nodes.value)
    ensures nodes.Some? && nodes.value < 1 ==> limit == 0
    ensures limit <= 3
  {
    match nodes
    case None => 1
    case Some(count) => if count - 1 < 0 then 0 else if count - 1 < 3 then count - 1 else 3
  }

  // ----- Reading a trace -----

  function Front(t: Trace): Trace
    requires t != []
  {
    t[..|t| - 1]
  }

  function Last(t: Trace): Act
    requires t != []
  {
    t[|t| - 1]
  }

  /** The last request asked for more context than its server has, and is to be sent once more. */
  predicate RetryDue(p: Start, t: Trace)
    decreases |t|, 0
  {
    && t != [] && Last(t).Sent? && !Retried(p, Front(t))
    && var d := Last(t).dispatch;
       d.reply == ContextExceeded && p.auto && d.requested == Fast8k && d.to.tier != Full64k
  }

  predicate Retried(p: Start, t: Trace)
    decreases |t|, 1
  {
    t != [] && (Retried(p, Front(t)) || RetryDue(p, t))
  }

  function TierNow(p: Start, t: Trace): Tier {
    if Retried(p, t) then Full64k else p.wanted
  }

  /** The servers noted as terminally failed. */
  function FailedIn(t: Trace): set<ServerKey> {
    if t == [] then {}
    else FailedIn(Front(t)) + if Last(t).Sent? && Last(t).dispatch.recorded then {Last(t).dispatch.to.server} else {}
  }

  function CountKind(t: Trace, kind: Kind): nat {
    if t == [] then 0
    else CountKind(Front(t), kind) + if Last(t).Sent? && Last(t).dispatch.kind == kind then 1 else 0
  }

  function Requests(t: Trace): nat {
    if t == [] then 0 else Requests(Front(t)) + if Last(t).Sent? then 1 else 0
  }

  function Refreshes(t: Trace): nat {
    if t == [] then 0 else Refreshes(Front(t)) + if Last(t).Refreshed? then 1 else 0
  }

  /** The limit by the last known node count; one probe is allowed if the count could not be had. */
  function LimitNow(p: Start, t: Trace): (limit: nat)
    ensures limit <= 3
  {
    if t == [] then FailoverLimit(p.nodes)
    else if Last(t) == Refreshed(None) then (if LimitNow(p, Front(t)) < 1 then 1 else LimitNow(p, Front(t)))
    else if Last(t).Refreshed? then FailoverLimit(Last(t).count.value)
    else LimitNow(p, Front(t))
  }

  /** The replacement offered last has already failed. */
  predicate StaleOffer(t: Trace) {
    && t != [] && Last(t).Offered? && Last(t).replacing
    && Fits(Last(t).offer, Last(t).requested) && Last(t).offer.value.server in FailedIn(t)
  }

  /** How many replacements in a row, up to the last one, had already failed. */
  function Skips(t: Trace): nat {
    if StaleOffer(t) then Skips(Front(t)) + 1 else 0
  }

  function SkipsAllowed(p: Start, t: Trace): nat {
    if LimitNow(p, t) + |FailedIn(t)| < 1 then 1 else LimitNow(p, t) + |FailedIn(t)|
  }

  // ----- Which acts follow one another -----

  /** The last request has failed for good, and no retry is due. */
  predicate FailedForGood(p: Start, t: Trace) {
    t != [] && Last(t).Sent? && Last(t).dispatch.reply == Failed(true)
  }

  /** The client needs a replacement, or has to give up. */
  predicate NeedsReplacement(p: Start, t: Trace) {
    t != [] && (FailedForGood(p, t) || Last(t).Refreshed? || StaleOffer(t))
  }

  /** Without another replacement to try. */
  predicate NothingLeft(p: Start, t: Trace) {
    || (CountKind(t, Failover) >= LimitNow(p, t) && Refreshes(t) > 0)
    || Skips(t) >= SkipsAllowed(p, t)
  }

  /** The server that the next request goes to, if one is due, and what the request is for. */
  function Due(p: Start, t: Trace): Option<(Selected, Kind)> {
    if t == [] then
      if p.selected.Some? && (p.auto ==> Fits(p.selected, p.wanted)) then Some((p.selected.value, First)) else None
    else if Last(t).Offered? && Fits(Last(t).offer, Last(t).requested) && !StaleOffer(t) then
      Some((Last(t).offer.value, if Last(t).replacing then Failover else if Retried(p, t) then ContextRetry else First))
    else None
  }

  predicate May(p: Start, t: Trace, act: Act) {
    match act
    case Sent(d) => d.requested == TierNow(p, t) && Due(p, t) == Some((d.to, d.kind)) && (d.recorded ==> d.reply == Failed(true))
    case Offered(_, requested, replacing) =>
      && requested == TierNow(p, t)
      && if replacing then NeedsReplacement(p, t) && CountKind(t, Failover) < LimitNow(p, t) && !NothingLeft(p, t)
         else (t == [] && Due(p, t) == None) || RetryDue(p, t)
    case Refreshed(_) => FailedForGood(p, t) && CountKind(t, Failover) >= LimitNow(p, t) && Refreshes(t) == 0
  }

  predicate Played(p: Start, t: Trace) {
    t != [] ==> Played(p, Front(t)) && May(p, Front(t), Last(t))
  }

  /** `known` tells whether the client still had a model to ask for. */
  predicate Ends(p: Start, t: Trace, result: Result, known: bool) {
    match result
    case Stopped => t != [] && Last(t).Sent? && Last(t).dispatch.reply == Terminated
    case Returned(NotSent) =>
      || (!known && (t == [] || Due(p, t).Some? || RetryDue(p, t)))
      || (t != [] && Last(t).Offered? && !Last(t).replacing && !Fits(Last(t).offer, Last(t).requested))
    case Returned(Replied(reply, tier)) =>
      && t != [] && Last(t).Sent? && !RetryDue(p, t)
      && Last(t).dispatch.reply == reply && Last(t).dispatch.to.tier == tier && reply != Failed(true) && reply != Terminated
    case NoServer => t != [] && Last(t).Offered? && Last(t).replacing && !Fits(Last(t).offer, Last(t).requested)
    case Exhausted => NeedsReplacement(p, t) && NothingLeft(p, t)
  }

  // ----- What every trace keeps -----

  lemma Appended(p: Start, t: Trace, act: Act)
    ensures Front(t + [act]) == t && Last(t + [act]) == act
    ensures Played(p, t) && May(p, t, act) ==> Played(p, t + [act])
  {
    assert (t + [act])[..|t|] == t;
  }

  lemma {:induction false} PlayedPrefix(p: Start, t: Trace, k: nat)
    requires Played(p, t) && k <= |t|
    ensures Played(p, t[..k])
  {
    if k < |t| {
      PlayedPrefix(p, Front(t), k);
      assert t[..k] == Front(t)[..k];
    } else {
      assert t[..k] == t;
    }
  }

  /** The act at `k` was allowed by what came before it. */
  lemma PlayedAt(p: Start, t: Trace, k: nat)
    requires Played(p, t) && k < |t|
    ensures Played(p, t[..k]) && May(p, t[..k], t[k])
  {
    PlayedPrefix(p, t, k + 1);
    PlayedPrefix(p, t, k);
    assert Front(t[..k + 1]) == t[..k];
  }

  lemma {:induction false} FailedGrows(t: Trace, k: nat)
    requires k <= |t|
    ensures FailedIn(t[..k]) <= FailedIn(t)
  {
    if k < |t| {
      FailedGrows(Front(t), k);
      assert t[..k] == Front(t)[..k];
    } else {
      assert t[..k] == t;
    }
  }

  /** A server noted as failed is contacted again by the one context retry at most. */
  predicate AvoidsFailed(t: Trace) {
    forall i, j | 0 <= i < j < |t| && t[i].Sent? && t[j].Sent? && t[i].dispatch.recorded
                  && t[i].dispatch.to.server == t[j].dispatch.to.server :: t[j].dispatch.kind == ContextRetry
  }

  /** A first request comes first, so nothing has failed then. */
  lemma FirstIsFirst(p: Start, t: Trace)
    requires Played(p, t) && Due(p, t).Some? && Due(p, t).value.1 == First
    ensures t == [] || (|t| == 1 && t[0].Offered?)
    ensures FailedIn(t) == {}
  {
    if t != [] {
      assert Retried(p, Front(t)) || RetryDue(p, Front(t)) ==> Retried(p, t);
      assert Front(t) == [];
      assert FailedIn(Front(t)) == {};
    }
  }

  lemma {:induction false} FailoversAvoid(p: Start, t: Trace)
    requires Played(p, t)
    ensures AvoidsFailed(t)
  {
    if t != [] {
      var n := |t| - 1;
      FailoversAvoid(p, Front(t));
      forall i, j | 0 <= i < j < |t| && t[i].Sent? && t[j].Sent? && t[i].dispatch.recorded
                    && t[i].dispatch.to.server == t[j].dispatch.to.server
        ensures t[j].dispatch.kind == ContextRetry
      {
        if j < n {
          assert Front(t)[i] == t[i] && Front(t)[j] == t[j];
        } else {
          RecordedIsFailed(Front(t), i);
          if t[j].dispatch.kind == First {
            FirstIsFirst(p, Front(t));
          }
        }
      }
    }
  }

  lemma {:induction false} RecordedIsFailed(t: Trace, i: nat)
    requires i < |t| && t[i].Sent? && t[i].dispatch.recorded
    ensures t[i].dispatch.to.server in FailedIn(t)
  {
    if i < |t| - 1 {
      assert Front(t)[i] == t[i];
      RecordedIsFailed(Front(t), i);
    }
  }

  lemma {:induction false} KindsAddUp(t: Trace)
    ensures Requests(t) == CountKind(t, First) + CountKind(t, ContextRetry) + CountKind(t, Failover)
  {
    if t != [] {
      KindsAddUp(Front(t));
    }
  }

  lemma {:induction false} FirstOnce(p: Start, t: Trace)
    requires Played(p, t)
    ensures CountKind(t, First) <= 1
    ensures t == [] || (|t| == 1 && t[0].Offered?) ==> CountKind(t, First) == 0
  {
    if t != [] {
      FirstOnce(p, Front(t));
      if Last(t).Sent? && Last(t).dispatch.kind == First {
        FirstIsFirst(p, Front(t));
      }
    }
  }

  lemma {:induction false} RetryOnce(p: Start, t: Trace)
    requires Played(p, t)
    ensures CountKind(t, ContextRetry) <= if Retried(p, t) then 1 else 0
    ensures RetryDue(p, t) || (t != [] && Last(t).Offered? && !Last(t).replacing) ==> CountKind(t, ContextRetry) == 0
  {
    if t != [] {
      RetryOnce(p, Front(t));
      if Last(t).Offered? && !Last(t).replacing {
        assert RetryDue(p, Front(t)) || Front(t) == [];
      }
    }
  }

  lemma {:induction false} FailoversBounded(p: Start, t: Trace)
    requires Played(p, t)
    ensures CountKind(t, Failover) + (if Due(p, t).Some? && Due(p, t).value.1 == Failover then 1 else 0) <= 3
    ensures Refreshes(t) <= 1
  {
    if t != [] {
      FailoversBounded(p, Front(t));
    }
  }

  lemma Totals(p: Start, t: Trace)
    requires Played(p, t)
    ensures Requests(t) <= 5 && Refreshes(t) <= 1
    ensures CountKind(t, First) <= 1 && CountKind(t, ContextRetry) <= 1 && CountKind(t, Failover) <= 3
  {
    KindsAddUp(t);
    FirstOnce(p, t);
    RetryOnce(p, t);
    FailoversBounded(p, t);
  }

  // ----- What the client owes -----

  /** A replacement that is suitable and has not failed gets the request, unless the model has gone. */
  lemma FreshOfferIsSent(p: Start, t: Trace, result: Result, known: bool, k: nat)
    requires Played(p, t) && Ends(p, t, result, known) && k < |t|
    requires var act := t[k];
             act.Offered? && act.replacing && Fits(act.offer, act.requested) && act.offer.value.server !in FailedIn(t[..k])
    ensures if k + 1 < |t| then t[k + 1].Sent? && t[k + 1].dispatch.to == t[k].offer.value && t[k + 1].dispatch.kind == Failover
            else result == Returned(NotSent) && !known
  {
    var now := t[..k + 1];
    assert Front(now) == t[..k] && Last(now) == t[k];
    PlayedAt(p, t, k);
    if k + 1 < |t| {
      PlayedAt(p, t, k + 1);
    } else {
      assert now == t;
    }
  }

  /** After a terminal failure another server is asked for as long as the limit is not reached. */
  lemma FailureIsReplaced(p: Start, t: Trace, result: Result, known: bool, k: nat)
    requires Played(p, t) && Ends(p, t, result, known) && k < |t|
    requires t[k].Sent? && t[k].dispatch.reply == Failed(true)
    requires CountKind(t[..k + 1], Failover) < LimitNow(p, t[..k + 1])
    ensures k + 1 < |t| && t[k + 1].Offered? && t[k + 1].replacing
  {
    var now := t[..k + 1];
    assert Front(now) == t[..k] && Last(now) == t[k];
    assert k + 1 == |t| ==> now == t;
    if k + 1 < |t| {
      PlayedAt(p, t, k + 1);
    }
  }

  lemma {:induction false} RefreshedAt(p: Start, t: Trace) returns (k: nat)
    requires Played(p, t) && Refreshes(t) > 0
    ensures k < |t| && t[k].Refreshed?
    ensures t[k].count.Some? ==> LimitNow(p, t) == FailoverLimit(t[k].count.value)
    ensures t[k].count.None? ==> LimitNow(p, t) >= 1 && LimitNow(p, t) >= FailoverLimit(p.nodes)
  {
    hide May, FailoverLimit;
    FailoversBounded(p, t);
    if Last(t).Refreshed? {
      k := |t| - 1;
      NotRefreshed(p, Front(t));
    } else {
      k := RefreshedAt(p, Front(t));
    }
  }

  lemma {:induction false} NotRefreshed(p: Start, t: Trace)
    requires Refreshes(t) == 0
    ensures LimitNow(p, t) == FailoverLimit(p.nodes)
  {
    if t != [] {
      NotRefreshed(p, Front(t));
    }
  }

  /**
    The client gives up only after as many failovers as the node count asked for once more allows, or
    one if it could not be had; or after as many offers in a row of servers that had failed as that
    limit and the failed servers together, and at least one.
  */
  lemma ExhaustedOnlyIf(p: Start, t: Trace, known: bool) returns (k: nat)
    requires Played(p, t) && Ends(p, t, Exhausted, known)
    ensures || (k < |t| && t[k].Refreshed?
                && CountKind(t, Failover) >= if t[k].count.Some? then FailoverLimit(t[k].count.value) else 1)
            || (AllStale(t, Skips(t)) && Skips(t) >= 1 && Skips(t) >= LimitNow(p, t) + |FailedIn(t)|)
  {
    hide FailoverLimit, Due, May, Skips;
    k := 0;
    SkipsAreStale(t);
    if Refreshes(t) > 0 {
      k := RefreshedAt(p, t);
    }
  }

  /** The last `n` acts offered servers that had already failed. */
  predicate AllStale(t: Trace, n: nat) {
    n <= |t| && forall i | |t| - n <= i < |t| ::
      t[i].Offered? && t[i].replacing && t[i].offer.Some? && t[i].offer.value.server in FailedIn(t)
  }

  lemma {:induction false} SkipsAreStale(t: Trace)
    ensures AllStale(t, Skips(t))
  {
    if StaleOffer(t) {
      SkipsAreStale(Front(t));
      assert FailedIn(t) == FailedIn(Front(t));
      forall i | |t| - Skips(t) <= i < |t|
        ensures t[i].Offered? && t[i].replacing && t[i].offer.Some? && t[i].offer.value.server in FailedIn(t)
      {
        assert i < |t| - 1 ==> t[i] == Front(t)[i];
      }
    }
  }

  /**
    With more than one node known, a first request that fails for good is followed by an offer, and if
    that is a suitable server other than the failed one, by the request to it.
  */
  lemma FirstFailureFailsOver(p: Start, t: Trace, result: Result, known: bool, k: nat)
    requires Played(p, t) && Ends(p, t, result, known) && k < |t| && p.nodes.Some? && p.nodes.value > 1
    requires t[k].Sent? && t[k].dispatch.kind == First && t[k].dispatch.reply == Failed(true)
    ensures k + 1 < |t| && t[k + 1].Offered? && t[k + 1].replacing
    ensures var next := t[k + 1];
            Fits(next.offer, next.requested) && next.offer.value.server != t[k].dispatch.to.server ==>
              if k + 2 < |t| then t[k + 2].Sent? && t[k + 2].dispatch.to == next.offer.value && t[k + 2].dispatch.kind == Failover
              else result == Returned(NotSent) && !known
  {
    FirstSoFar(p, t, k);
    FailureIsReplaced(p, t, result, known, k);
    if Fits(t[k + 1].offer, t[k + 1].requested) && t[k + 1].offer.value.server != t[k].dispatch.to.server {
      FreshOfferIsSent(p, t, result, known, k + 1);
    }
  }

  lemma FirstSoFar(p: Start, t: Trace, k: nat)
    requires Played(p, t) && k < |t| && t[k].Sent? && t[k].dispatch.kind == First
    ensures CountKind(t[..k + 1], Failover) == 0 && LimitNow(p, t[..k + 1]) == FailoverLimit(p.nodes)
    ensures FailedIn(t[..k + 1]) <= {t[k].dispatch.to.server}
  {
    hide May;
    PlayedAt(p, t, k);
    FirstDue(p, t[..k], t[k]);
    FirstIsFirst(p, t[..k]);
    EarlyOn(p, t[..k], t[k]);
    assert t[..k + 1] == t[..k] + [t[k]];
  }

  lemma FirstDue(p: Start, t: Trace, act: Act)
    requires May(p, t, act) && act.Sent? && act.dispatch.kind == First
    ensures Due(p, t).Some? && Due(p, t).value.1 == First
  {
  }

  lemma EarlyOn(p: Start, t: Trace, act: Act)
    requires (t == [] || (|t| == 1 && t[0].Offered?)) && act.Sent? && act.dispatch.kind == First
    ensures CountKind(t + [act], Failover) == 0 && LimitNow(p, t + [act]) == FailoverLimit(p.nodes)
    ensures FailedIn(t + [act]) <= {act.dispatch.to.server}
  {
    hide FailoverLimit;
    Appended(p, t, act);
    if t != [] {
      assert Front(t) == [];
    }
  }

  lemma {:induction false} RetriedShows(p: Start, t: Trace)
    requires Played(p, t) && Retried(p, t)
    ensures RetryDue(p, t) || (Last(t).Offered? && !Last(t).replacing) || CountKind(t, ContextRetry) >= 1
  {
    if !RetryDue(p, t) {
      RetriedShows(p, Front(t));
    }
  }

  /** The request asked for the smaller context, automatically, and was too large for its server; none has been retried. */
  predicate TooLarge(p: Start, t: Trace, k: nat) {
    && k < |t| && t[k].Sent? && p.auto && CountKind(t[..k + 1], ContextRetry) == 0
    && var d := t[k].dispatch;
       d.reply == ContextExceeded && d.requested == Fast8k && d.to.tier == Fast8k
  }

  lemma TooLargeIsDue(p: Start, t: Trace, k: nat)
    requires Played(p, t) && TooLarge(p, t, k)
    ensures RetryDue(p, t[..k + 1])
  {
    var now := t[..k + 1];
    assert Front(now) == t[..k] && Last(now) == t[k];
    PlayedAt(p, t, k);
    NotYetRetried(p, t[..k], t[k]);
  }

  lemma NotYetRetried(p: Start, t: Trace, act: Act)
    requires Played(p, t) && act.Sent? && May(p, t, act) && CountKind(t, ContextRetry) == 0 && act.dispatch.kind != ContextRetry
    ensures !Retried(p, t)
  {
    if Retried(p, t) {
      RetriedShows(p, t);
    }
  }

  /** When a server turns out too small, a larger one is asked for once and gets the request again. */
  lemma RetryIsSent(p: Start, t: Trace, result: Result, known: bool, k: nat)
    requires Played(p, t) && Ends(p, t, result, known) && TooLarge(p, t, k)
    ensures k + 1 == |t| ==> result == Returned(NotSent) && !known
    ensures k + 1 < |t| ==> t[k + 1].Offered? && !t[k + 1].replacing && t[k + 1].requested == Full64k
    ensures k + 2 < |t| ==>
              && Fits(t[k + 1].offer, Full64k) && t[k + 2].Sent? && t[k + 2].dispatch.to == t[k + 1].offer.value
              && t[k + 2].dispatch.kind == ContextRetry && t[k + 2].dispatch.requested == Full64k
    ensures k + 2 == |t| ==> result == Returned(NotSent) && (known ==> !Fits(t[k + 1].offer, Full64k))
  {
    hide NothingLeft, LimitNow, Skips, SkipsAllowed, FailedIn, CountKind, FailoverLimit;
    TooLargeIsDue(p, t, k);
    var now := t[..k + 1];
    assert Front(now) == t[..k] && Last(now) == t[k];
    assert Retried(p, now);
    if k + 1 == |t| {
      assert now == t;
    } else {
      PlayedAt(p, t, k + 1);
      var asked := t[..k + 2];
      assert Front(asked) == now && Last(asked) == t[k + 1];
      if k + 2 < |t| {
        PlayedAt(p, t, k + 2);
      } else {
        assert asked == t;
      }
    }
  }

  lemma RetryAsked(p: Start, t: Trace)
    requires Played(p, t) && Due(p, t).Some? && Due(p, t).value.1 == ContextRetry
    ensures |t| >= 2 && RetryDue(p, Front(t)) && CountKind(Front(t), ContextRetry) == 0
  {
    RetryOnce(p, Front(t));
    assert Retried(p, t) && !RetryDue(p, t);
    assert Retried(p, Front(t)) && Front(t) != [];
  }

  /** And nothing else is retried: two acts before a retry is the request that was too large. */
  lemma RetryOnlyIf(p: Start, t: Trace, k: nat)
    requires Played(p, t) && k < |t| && t[k].Sent? && t[k].dispatch.kind == ContextRetry
    ensures k >= 2 && TooLarge(p, t, k - 2)
  {
    hide Played;
    PlayedAt(p, t, k);
    RetryAsked(p, t[..k]);
    assert Front(t[..k]) == t[..k - 2 + 1] && Last(t[..k - 2 + 1]) == t[k - 2];
  }

  /** A server that has been asked for serves the context that the request asks for. */
  lemma OffersSuffice(p: Start, t: Trace, k: nat)
    requires Played(p, t) && 0 < k < |t| && t[k].Sent?
    ensures t[k].dispatch.requested.Tokens() <= t[k].dispatch.to.tier.Tokens()
    ensures t[k - 1].Offered? && t[k - 1].offer == Some(t[k].dispatch.to)
  {
    PlayedAt(p, t, k);
    PlayedAt(p, t, k - 1);
    assert Front(t[..k]) == t[..k - 1] && Last(t[..k]) == t[k - 1];
    assert Retried(p, t[..k]) == Retried(p, t[..k - 1]);
  }

  // ----- The loop -----

  /** What the loop keeps in its variables is what the trace says. */
  predicate Books(p: Start, t: Trace, retried: bool, refreshed: bool, limit: nat, failed: set<ServerKey>, skipped: nat) {
    && retried == Retried(p, t) && refreshed == (Refreshes(t) > 0) && limit == LimitNow(p, t) && failed == FailedIn(t)
    && skipped == Skips(t)
  }

  predicate DueFailover(p: Start, t: Trace) {
    Due(p, t).Some? && Due(p, t).value.1 == Failover
  }

  /** Before a request: the first, the one with more context, or one to the replacement just chosen. */
  predicate AboutToSend(p: Start, t: Trace, preserve: bool, force: bool, selected: Option<Selected>) {
    || (t == [] && !preserve && !force && selected == p.selected)
    || (RetryDue(p, t) && !preserve && force)
    || (DueFailover(p, t) && preserve && !force && selected == Some(Due(p, t).value.0))
  }

  function KindDue(preserve: bool, force: bool): Kind {
    if preserve then Failover else if force then ContextRetry else First
  }

  /** Whether an attempt asks the relay for a server before it sends. */
  predicate Asks(selected: Option<Selected>, requested: Tier, auto: bool, force: bool, preserve: bool) {
    force || (auto && !preserve && !Fits(selected, requested)) || selected.None?
  }

  lemma AskAllowed(p: Start, t: Trace, preserve: bool, force: bool, selected: Option<Selected>, offer: Option<Selected>)
    requires Played(p, t) && AboutToSend(p, t, preserve, force, selected)
    requires Asks(selected, TierNow(p, t), p.auto || Retried(p, t), force, preserve)
    ensures var u := t + [Offered(offer, TierNow(p, t), false)];
            && Played(p, u) && FailedIn(u) == FailedIn(t) && Retried(p, u) == Retried(p, t) && TierNow(p, u) == TierNow(p, t)
            && CountKind(u, Failover) == CountKind(t, Failover) && LimitNow(p, u) == LimitNow(p, t)
            && Refreshes(u) == Refreshes(t) && Skips(u) == 0
            && if Fits(offer, TierNow(p, t)) then Due(p, u) == Some((offer.value, KindDue(preserve, force)))
               else Ends(p, u, Returned(NotSent), true)
  {
    hide FailoverLimit;
    Appended(p, t, Offered(offer, TierNow(p, t), false));
  }

  lemma SendAllowed(p: Start, t: Trace, d: Dispatch)
    requires Played(p, t) && Due(p, t) == Some((d.to, d.kind)) && d.requested == TierNow(p, t)
    requires d.recorded ==> d.reply == Failed(true)
    ensures var u := t + [Sent(d)];
            && Played(p, u) && FailedIn(u) == FailedIn(t) + (if d.recorded then {d.to.server} else {})
            && CountKind(u, Failover) == CountKind(t, Failover) + (if d.kind == Failover then 1 else 0)
            && LimitNow(p, u) == LimitNow(p, t) && Refreshes(u) == Refreshes(t) && Skips(u) == 0
            && Retried(p, u) == (Retried(p, t) || RetryDue(p, u))
  {
    hide FailoverLimit;
    Appended(p, t, Sent(d));
  }

  /** The attempt that `before` was about to make: not made, or the last act. */
  predicate Attempted(p: Start, before: Trace, t: Trace, known: bool, kind: Kind, attempt: Attempt) {
    && Played(p, t) && LimitNow(p, t) == LimitNow(p, before) && Refreshes(t) == Refreshes(before)
    && match attempt
       case NotSent => Ends(p, t, Returned(NotSent), known)
       case Replied(reply, tier) =>
         && t != [] && Last(t).Sent? && Last(t).dispatch.reply == reply && Last(t).dispatch.to.tier == tier
         && Last(t).dispatch.requested == TierNow(p, before) && Skips(t) == 0
         && Retried(p, Front(t)) == Retried(p, before) && Retried(p, t) == (Retried(p, before) || RetryDue(p, t))
         && CountKind(t, Failover) == CountKind(before, Failover) + (if kind == Failover then 1 else 0)
  }

  lemma NotKnown(p: Start, t: Trace, preserve: bool, force: bool, selected: Option<Selected>)
    requires Played(p, t) && AboutToSend(p, t, preserve, force, selected)
    ensures Attempted(p, t, t, false, KindDue(preserve, force), NotSent)
  {
  }

  lemma AskRefused(p: Start, t: Trace, preserve: bool, force: bool, selected: Option<Selected>, offer: Option<Selected>)
    requires Played(p, t) && AboutToSend(p, t, preserve, force, selected)
    requires Asks(selected, TierNow(p, t), p.auto || Retried(p, t), force, preserve) && !Fits(offer, TierNow(p, t))
    ensures Attempted(p, t, t + [Offered(offer, TierNow(p, t), false)], true, KindDue(preserve, force), NotSent)
  {
    hide Ends, Due, AboutToSend, Asks, LimitNow;
    AskAllowed(p, t, preserve, force, selected, offer);
  }

  /** The server that the attempt goes to without asking. */
  lemma KeptIsDue(p: Start, t: Trace, preserve: bool, force: bool, selected: Option<Selected>)
    requires Played(p, t) && AboutToSend(p, t, preserve, force, selected)
    requires !Asks(selected, TierNow(p, t), p.auto || Retried(p, t), force, preserve)
    ensures selected.Some? && Due(p, t) == Some((selected.value, KindDue(preserve, force)))
  {
  }

  lemma SentIsAttempted(p: Start, before: Trace, asked: Trace, d: Dispatch)
    requires Played(p, asked) && Due(p, asked) == Some((d.to, d.kind)) && d.requested == TierNow(p, before)
    requires d.recorded ==> d.reply == Failed(true)
    requires FailedIn(asked) == FailedIn(before) && Retried(p, asked) == Retried(p, before)
    requires CountKind(asked, Failover) == CountKind(before, Failover) && LimitNow(p, asked) == LimitNow(p, before)
    requires Refreshes(asked) == Refreshes(before)
    ensures var t := asked + [Sent(d)];
            && Attempted(p, before, t, true, d.kind, Replied(d.reply, d.to.tier))
            && FailedIn(t) == FailedIn(before) + (if d.recorded then {d.to.server} else {})
  {
    hide Ends, Due, LimitNow, Skips, RetryDue, Retried;
    SendAllowed(p, asked, d);
    Appended(p, asked, Sent(d));
  }

  /** What comes after a request that has failed for good, a refresh, or an offer that has failed. */
  lemma RefreshAllowed(p: Start, t: Trace, count: Option<Option<int>>)
    requires Played(p, t) && FailedForGood(p, t) && CountKind(t, Failover) >= LimitNow(p, t) && Refreshes(t) == 0
    ensures var u := t + [Refreshed(count)];
            && Played(p, u) && FailedIn(u) == FailedIn(t) && CountKind(u, Failover) == CountKind(t, Failover)
            && Retried(p, u) == Retried(p, t) && Refreshes(u) == 1 && Skips(u) == 0 && NeedsReplacement(p, u)
            && LimitNow(p, u) == (if count.Some? then FailoverLimit(count.value)
                                  else if LimitNow(p, t) < 1 then 1 else LimitNow(p, t))
  {
    hide FailoverLimit;
    Appended(p, t, Refreshed(count));
  }

  lemma ReplaceAllowed(p: Start, t: Trace, offer: Option<Selected>)
    requires Played(p, t) && NeedsReplacement(p, t) && CountKind(t, Failover) < LimitNow(p, t) && Skips(t) < SkipsAllowed(p, t)
    ensures var u := t + [Offered(offer, TierNow(p, t), true)];
            && Played(p, u) && FailedIn(u) == FailedIn(t) && CountKind(u, Failover) == CountKind(t, Failover)
            && Retried(p, u) == Retried(p, t) && Refreshes(u) == Refreshes(t) && LimitNow(p, u) == LimitNow(p, t)
            && if !Fits(offer, TierNow(p, t)) then Ends(p, u, NoServer, true)
               else if offer.value.server in FailedIn(t) then StaleOffer(u) && Skips(u) == Skips(t) + 1
               else Skips(u) == 0 && Due(p, u) == Some((offer.value, Failover))
  {
    hide FailoverLimit;
    Appended(p, t, Offered(offer, TierNow(p, t), true));
  }

  /** What an attempt comes to: the end, the one retry, or a replacement. */
  lemma AfterAttempt(p: Start, before: Trace, t: Trace, known: bool, kind: Kind, attempt: Attempt)
    requires Attempted(p, before, t, known, kind, attempt)
    ensures Played(p, t) && LimitNow(p, t) == LimitNow(p, before) && Refreshes(t) == Refreshes(before)
    ensures attempt.NotSent? ==> Ends(p, t, Returned(attempt), known)
    ensures attempt.Replied? ==>
              && Skips(t) == 0 && Retried(p, t) == (Retried(p, before) || RetryDue(p, t))
              && CountKind(t, Failover) == CountKind(before, Failover) + (if kind == Failover then 1 else 0)
    ensures attempt.Replied? && attempt.reply == Terminated ==> Ends(p, t, Stopped, known)
    ensures attempt.Replied? ==>
              (RetryDue(p, t) <==>
                 && attempt.reply == ContextExceeded && p.auto && TierNow(p, before) == Fast8k && !Retried(p, before)
                 && attempt.tier != Full64k)
    ensures attempt.Replied? && !RetryDue(p, t) && attempt.reply != Failed(true) && attempt.reply != Terminated ==>
              Ends(p, t, Returned(attempt), known)
    ensures attempt.Replied? && attempt.reply == Failed(true) ==> FailedForGood(p, t) && NeedsReplacement(p, t)
  {
    hide LimitNow, Retried, Played, Skips, StaleOffer;
  }

  lemma RetriesNext(p: Start, t: Trace, selected: Option<Selected>)
    requires RetryDue(p, t)
    ensures AboutToSend(p, t, false, true, selected)
  {
  }

  lemma ChosenNext(p: Start, t: Trace, offer: Option<Selected>)
    requires offer.Some? && Due(p, t) == Some((offer.value, Failover))
    ensures AboutToSend(p, t, true, false, offer)
  {
  }

  lemma NoSkips(p: Start, t: Trace)
    requires FailedForGood(p, t)
    ensures Skips(t) == 0
  {
  }

  lemma StaleNeeds(p: Start, t: Trace)
    requires StaleOffer(t)
    ensures NeedsReplacement(p, t)
  {
  }

  lemma GivesUp(p: Start, t: Trace, known: bool)
    requires NeedsReplacement(p, t) && NothingLeft(p, t)
    ensures Ends(p, t, Exhausted, known)
  {
  }

  lemma EndsAnyway(p: Start, t: Trace, result: Result, known: bool, other: bool)
    requires Ends(p, t, result, known) && result != Returned(NotSent)
    ensures Ends(p, t, result, other)
  {
  }

  lemma NothingYet(p: Start)
    ensures Played(p, []) && Books(p, [], false, false, FailoverLimit(p.nodes), {}, 0)
    ensures AboutToSend(p, [], false, false, p.selected) && CountKind([], Failover) == 0
    ensures Refreshes([]) == 0
  {
  }

  class Client {
    const env: Environment
    const auto: bool
    const wanted: Tier

    var selected: Option<Selected>
    var nodes: Option<int>
    var replies: nat
    var selections: nat
    var refreshes: nat
    ghost var trace: Trace

    constructor (env: Environment, auto: bool, wanted: Tier, selected: Option<Selected>, nodes: Option<int>)
      ensures trace == [] && this.selected == selected && this.nodes == nodes
      ensures this.env == env && this.auto == auto && this.wanted == wanted
    {
      this.env, this.auto, this.wanted, this.selected, this.nodes := env, auto, wanted, selected, nodes;
      replies, selections, refreshes, trace := 0, 0, 0, [];
    }

    /** Keep the selected server, or ask the relay for one that satisfies the tier. */
    method EnsureSelectedServer(requested: Tier, force: bool, ghost replacing: bool) returns (ok: bool)
      modifies `selected, `selections, `trace
      ensures var asks, offer := force || old(selected).None?, env.selection(old(selections));
              && selections == old(selections) + (if asks then 1 else 0)
              && trace == old(trace) + (if asks then [Offered(offer, requested, replacing)] else [])
              && ok == (asks ==> Fits(offer, requested))
              && (ok ==> selected == if asks then offer else old(selected))
    {
      if force {
        selected := None;
      }
      if selected.Some? {
        return true;
      }
      var offer := env.selection(selections);
      selections := selections + 1;
      trace := trace + [Offered(offer, requested, replacing)];
      if offer.None? {
        return false;
      }
      if !Satisfies(offer.value.tier, requested) {
        selected := None;
        return false;
      }
      selected := offer;
      ok := true;
    }

    /** One attempt: choose a server if need be and send the request to it. */
    method SendOnce(requested: Tier, auto: bool, force: bool, preserve: bool, ghost kind: Kind)
      returns (attempt: Attempt, ghost asked: Trace)
      modifies `selected, `selections, `replies, `trace
      ensures var known, asks, offer :=
                env.modelKnown(old(replies)), Asks(old(selected), requested, auto, force, preserve), env.selection(old(selections));
              && asked == old(trace) + (if known && asks then [Offered(offer, requested, false)] else [])
              && (attempt.NotSent? <==> !known || (asks && !Fits(offer, requested)))
              && (attempt.NotSent? ==> trace == asked)
              && (attempt.Replied? ==>
                    && (asks || old(selected).Some?) && |trace| == |asked| + 1 && trace[|asked|].Sent?
                    && var d := trace[|asked|].dispatch;
                    && trace == asked + [Sent(d)]
                    && d.to == (if asks then offer.value else old(selected).value)
                    && d.requested == requested && d.kind == kind && d.to.tier == attempt.tier
                    && d.reply == attempt.reply == env.reply(old(replies))
                    && d.recorded == (d.reply == Failed(true) && !env.lost(old(replies)))
                    && selected == if env.lost(old(replies)) then None else Some(d.to))
      ensures replies == old(replies) + if attempt.Replied? then 1 else 0
    {
      asked := trace;
      if !env.modelKnown(replies) {
        return NotSent, asked;
      }
      var fits := selected.Some? && Satisfies(selected.value.tier, requested);
      var ok := EnsureSelectedServer(requested, force || (auto && !preserve && !fits), false);
      asked := trace;
      if !ok {
        return NotSent, asked;
      }
      var server := selected.value;
      var reply, lost := env.reply(replies), env.lost(replies);
      replies := replies + 1;
      if lost {
        selected := None;
      }
      trace := trace + [Sent(Dispatch(server, requested, kind, reply, reply == Failed(true) && !lost))];
      attempt := Replied(reply, server.tier);
    }

    /** One attempt, noting the server if it has failed for good. */
    method SendAndNote(ghost p: Start, requested: Tier, auto: bool, force: bool, preserve: bool, failed: set<ServerKey>)
      returns (attempt: Attempt, noted: set<ServerKey>)
      requires Played(p, trace) && AboutToSend(p, trace, preserve, force, selected) && failed == FailedIn(trace)
      requires requested == TierNow(p, trace) && auto == (p.auto || Retried(p, trace))
      modifies `selected, `selections, `replies, `trace
      ensures Attempted(p, old(trace), trace, env.modelKnown(old(replies)), KindDue(preserve, force), attempt)
      ensures attempt.Replied? ==> noted == FailedIn(trace)
      ensures replies == old(replies) + if attempt.Replied? then 1 else 0
    {
      hide Played, AboutToSend, FailedIn, Due, Attempted, LimitNow, Refreshes, CountKind, Retried, Skips;
      ghost var before, kept, offer := trace, selected, env.selection(selections);
      ghost var kind, asks := KindDue(preserve, force), Asks(selected, requested, auto, force, preserve);
      NotKnown(p, before, preserve, force, kept);
      if asks {
        AskAllowed(p, before, preserve, force, kept, offer);
        if !Fits(offer, requested) {
          AskRefused(p, before, preserve, force, kept, offer);
        }
      } else {
        KeptIsDue(p, before, preserve, force, kept);
      }
      noted := failed;
      ghost var asked, known := before, env.modelKnown(replies);
      attempt, asked := SendOnce(requested, auto, force, preserve, kind);
      assert asked == if known && asks then before + [Offered(offer, requested, false)] else before;
      if attempt.NotSent? {
        return;
      }
      SentIsAttempted(p, before, asked, trace[|asked|].dispatch);
      if attempt.reply == Failed(true) && selected.Some? {
        noted := failed + {selected.value.server};
      }
    }

    /** Ask the relay for another server than the failed ones. */
    method Replacement(requested: Tier, failed: set<ServerKey>) returns (next: Next)
      modifies `selected, `selections, `trace
      ensures var offer := env.selection(old(selections));
              && trace == old(trace) + [Offered(offer, requested, true)]
              && (next == Unavailable <==> !Fits(offer, requested))
              && (next == KnownFailed <==> Fits(offer, requested) && offer.value.server in failed)
              && (next == Chosen ==> selected == offer)
    {
      selected := None;
      var ok := EnsureSelectedServer(requested, true, true);
      if !ok {
        return Unavailable;
      }
      if selected.value.server in failed {
        selected := None;
        return KnownFailed;
      }
      next := Chosen;
    }

    /** Ask for the node count again; without an answer, allow one probe at least. */
    method RefreshCapacity(known: nat) returns (maxFailovers: nat)
      modifies `nodes, `refreshes, `trace
      ensures var count := env.refresh(old(refreshes));
              && trace == old(trace) + [Refreshed(count)] && refreshes == old(refreshes) + 1
              && nodes == (if count.Some? then count.value else old(nodes))
              && maxFailovers == if count.Some? then FailoverLimit(nodes) else if known < 1 then 1 else known
    {
      var count := env.refresh(refreshes);
      refreshes := refreshes + 1;
      trace := trace + [Refreshed(count)];
      if count.Some? {
        nodes := count.value;
        maxFailovers := FailoverLimit(nodes);
      } else {
        maxFailovers := if known < 1 then 1 else known;
      }
    }

    /** At the limit, ask for the node count once. */
    method RefreshOnce(ghost p: Start, failovers: nat, limit: nat, wasRefreshed: bool)
      returns (maxFailovers: nat, refreshed: bool)
      requires Played(p, trace) && NeedsReplacement(p, trace) && failovers == CountKind(trace, Failover)
      requires limit == LimitNow(p, trace) && wasRefreshed == (Refreshes(trace) > 0)
      requires failovers >= limit && !wasRefreshed ==> FailedForGood(p, trace)
      modifies `nodes, `refreshes, `trace
      ensures Played(p, trace) && NeedsReplacement(p, trace) && failovers == CountKind(trace, Failover)
      ensures maxFailovers == LimitNow(p, trace) && refreshed == (Refreshes(trace) > 0)
      ensures FailedIn(trace) == FailedIn(old(trace)) && Retried(p, trace) == Retried(p, old(trace))
      ensures Skips(trace) == Skips(old(trace))
      ensures failovers >= maxFailovers ==> refreshed
      ensures refreshes - old(refreshes) == Refreshes(trace) - Refreshes(old(trace))
    {
      hide Played, NeedsReplacement, FailedForGood, LimitNow, Refreshes, CountKind, Retried, Skips, FailedIn, FailoverLimit;
      maxFailovers, refreshed := limit, wasRefreshed;
      if failovers >= maxFailovers && !refreshed {
        RefreshAllowed(p, trace, env.refresh(refreshes));
        NoSkips(p, trace);
        refreshed := true;
        maxFailovers := RefreshCapacity(maxFailovers);
      }
    }

    /**
      Send a message, retrying once with a larger context and failing over to other servers.  It
      always ends, after at most five requests; no failover goes back to a failed server, and each act
      and the end are those that the trace so far calls for.
    */
    method SendMessage() returns (result: Result)
      requires trace == []
      modifies this
      ensures var p := Start(auto, wanted, old(selected), old(nodes));
              Played(p, trace) && Ends(p, trace, result, env.modelKnown(replies))
      ensures Requests(trace) <= 5 && AvoidsFailed(trace)
      ensures CountKind(trace, First) <= 1 && CountKind(trace, ContextRetry) <= 1 && CountKind(trace, Failover) <= 3
      ensures refreshes == old(refreshes) + Refreshes(trace) <= old(refreshes) + 1
    {
      ghost var p := Start(auto, wanted, selected, nodes);
      result := SendWithFailover(p);
      Totals(p, trace);
      FailoversAvoid(p, trace);
    }

    method SendWithFailover(ghost p: Start) returns (result: Result)
      requires trace == [] && p == Start(auto, wanted, selected, nodes)
      modifies this
      ensures Played(p, trace) && Ends(p, trace, result, env.modelKnown(replies))
      ensures refreshes == old(refreshes) + Refreshes(trace)
    {
      hide Played, Ends, AboutToSend, Attempted, NeedsReplacement, FailedForGood, StaleOffer, Due, RetryDue, Retried, LimitNow,
           Refreshes, CountKind, Requests, FailedIn, Skips, FailoverLimit, AvoidsFailed, Asks, DueFailover, May;
      NothingYet(p);
      var retried, refreshed, needsDispatch, preserve, force := false, false, true, false, false;
      var maxFailovers: nat := FailoverLimit(nodes);
      var skipped: nat, failovers: nat := 0, 0;
      var failed: set<ServerKey> := {};
      while failovers <= maxFailovers
        invariant Played(p, trace) && Books(p, trace, retried, refreshed, maxFailovers, failed, skipped)
        invariant failovers == CountKind(trace, Failover) + (if needsDispatch && preserve then 1 else 0) <= maxFailovers <= 3
        invariant needsDispatch ==> AboutToSend(p, trace, preserve, force, selected) && skipped == 0
        invariant !needsDispatch ==> StaleOffer(trace) && failovers < maxFailovers && !preserve && !force
        invariant refreshes == old(refreshes) + Refreshes(trace)
        decreases if retried then 0 else 1, 3 - failovers, if needsDispatch then 1 else 0, 4 + |failed| - skipped
      {
        if needsDispatch {
          var requested := if retried then Full64k else wanted;
          ghost var before, kind, known := trace, KindDue(preserve, force), env.modelKnown(replies);
          var attempt: Attempt;
          attempt, failed := SendAndNote(p, requested, auto || retried, force, preserve, failed);
          AfterAttempt(p, before, trace, known, kind, attempt);
          preserve, force := false, false;
          if attempt.NotSent? {
            return Returned(attempt);
          }
          if attempt.reply == Terminated {
            EndsAnyway(p, trace, Stopped, known, env.modelKnown(replies));
            return Stopped;
          }
          if attempt.reply == ContextExceeded && (auto || retried) && requested == Fast8k && !retried && attempt.tier != Full64k {
            RetriesNext(p, trace, None);
            retried := true;
            selected := None;
            force, needsDispatch := true, true;
            continue;
          }
          if attempt.reply != Failed(true) {
            EndsAnyway(p, trace, Returned(attempt), known, env.modelKnown(replies));
            return Returned(attempt);
          }
        }
        if !needsDispatch {
          StaleNeeds(p, trace);
        }
        needsDispatch := false;

        maxFailovers, refreshed := RefreshOnce(p, failovers, maxFailovers, refreshed);
        var maxSkipped := if maxFailovers + |failed| < 1 then 1 else maxFailovers + |failed|;
        if failovers >= maxFailovers || skipped >= maxSkipped {
          selected := None;
          GivesUp(p, trace, env.modelKnown(replies));
          return Exhausted;
        }

        ghost var offer := env.selection(selections);
        ReplaceAllowed(p, trace, offer);
        var next := Replacement(if retried then Full64k else wanted, failed);
        if next == Unavailable {
          EndsAnyway(p, trace, NoServer, true, env.modelKnown(replies));
          return NoServer;
        }
        if next == KnownFailed {
          skipped := skipped + 1;
          continue;
        }
        ChosenNext(p, trace, offer);
        skipped := 0;
        failovers := failovers + 1;
        preserve, needsDispatch := true, true;
      }
      assert false;
    }
  }
}
