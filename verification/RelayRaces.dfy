/**
  The wired relay's request lifecycle as a state machine over its lock-protected steps.

  One thread at a time may hold the terminal-transition lock, to cancel a request or to post a
  response; between any two of its steps other threads enqueue, poll (a pop, then an in-flight
  insertion), retrieve, prune, register and remove servers, and the clocks advance.
*/
module RelayRaces {
  import opened RelayTypes

  datatype Pair = Pair(client: Digest, request: Digest)
  datatype Item = Item(pair: Pair, deadline: Time)
  datatype Slot = Slot(server: NodeId, request: Digest)
  datatype InFlight = InFlight(client: Digest, deadline: Time)
  datatype Polled = Polled(server: NodeId, item: Item)

  datatype Kind = AsCompleted | AsTerminal

  /** One counted outcome; no other may be counted for the pair before `until`. */
  datatype Counted = Counted(pair: Pair, kind: Kind, at: Time, until: Time)

  /** Where the thread that holds the terminal-transition lock is. */
  datatype Program =
    | Idle
    | CancelUnqueue(pair: Pair, won: bool, nested: bool)
    | CancelPending(pair: Pair, won: bool, owned: bool, nested: bool)
    | CancelInFlight(pair: Pair, won: bool, owned: bool, nested: bool)
    | CancelDecide(pair: Pair, won: bool, owned: bool, nested: bool)
    | MarkTime(pair: Pair, nested: bool)
    | MarkPrune(pair: Pair, expiry: Time, nested: bool)
    | MarkInsert(pair: Pair, expiry: Time, nested: bool)
    | CountTime(pair: Pair, nested: bool)
    | CountInsert(pair: Pair, expiry: Time, nested: bool)
    | PostDuplicate(pair: Pair)
    | PostExpire(pair: Pair)
    | PostRecheck(pair: Pair)
    | PostInFlight(pair: Pair)
    | PostUnqueue(pair: Pair, owned: bool)
    | PostPending(pair: Pair, owned: bool)
    | PostLastCheck(pair: Pair, owned: bool)
    | PostTime(pair: Pair)
    | PostCount(pair: Pair, expiry: Time)
    | PostQueue(pair: Pair, index: nat)

  /** A response that was queued, and the place of its outcome among the counted ones. */
  datatype Posted = Posted(pair: Pair, index: nat)

  /**
    Work on its way to and through the servers.  `admitting` is the request whose thread holds the
    registry lock between marking it pending and appending it to its server's queue.
  */
  datatype Traffic = Traffic(
    servers: set<NodeId>,
    admitting: Option<Polled>,
    queues: map<NodeId, seq<Item>>,
    pending: map<Pair, Time>,
    polled: map<nat, Polled>,
    inFlight: map<Slot, InFlight>)

  /** Recorded outcomes with their expiry, and every outcome ever counted. */
  datatype Ledger = Ledger(outcomes: map<Pair, Time>, counted: seq<Counted>)

  datatype Relay = Relay(
    wall: Time,
    mono: Time,
    traffic: Traffic,
    responses: seq<Pair>,
    markers: map<Pair, Time>,
    ledger: Ledger,
    holder: Program,
    posted: seq<Posted>,
    admitted: set<Pair>)

  datatype Step =
    | Tick(wall: Time, mono: Time)
    | Register(server: NodeId)
    | Remove(server: NodeId)
    | Admit(server: NodeId, item: Item)
    | Append
    | Pop(thread: nat, server: NodeId)
    | Insert(thread: nat)
    | GiveUp(thread: nat)
    | Retrieve(at: nat)
    | DropResponses(pair: Pair)
    | Prune
    | LookUp(pair: Pair)
    | ForgetOutcome(pair: Pair)
    | BeginCancel(pair: Pair)
    | BeginPost(pair: Pair)
    | Advance(server: NodeId)

  function Init(wall: Time, mono: Time): Relay {
    Relay(wall, mono, Traffic({}, None, map[], map[], map[], map[]), [], map[], Ledger(map[], []), Idle, [], {})
  }

  /** An unexpired terminal marker: responses for the pair are refused. */
  predicate Terminal(s: Relay, p: Pair) {
    p in s.markers && s.markers[p] > s.wall
  }

  function LookedUp(s: Relay, p: Pair): map<Pair, Time> {
    if p in s.markers && s.markers[p] <= s.wall then s.markers - {p} else s.markers
  }

  function Unexpired(m: map<Pair, Time>, now: Time): map<Pair, Time> {
    map p | p in m && m[p] > now :: m[p]
  }

  function WithoutPair(items: seq<Item>, p: Pair): seq<Item> {
    if items == [] then []
    else if items[0].pair == p then WithoutPair(items[1..], p)
    else [items[0]] + WithoutPair(items[1..], p)
  }

  predicate Queued(t: Traffic, p: Pair) {
    exists n :: n in t.queues && exists i :: 0 <= i < |t.queues[n]| && t.queues[n][i].pair == p
  }

  function Unqueued(t: Traffic, p: Pair): Traffic {
    t.(queues := map n | n in t.queues && WithoutPair(t.queues[n], p) != [] :: WithoutPair(t.queues[n], p))
  }

  function Unpending(t: Traffic, p: Pair): Traffic {
    t.(pending := t.pending - {p})
  }

  /** The in-flight slots that belong to the pair, on whatever server. */
  function SlotsOf(t: Traffic, p: Pair): set<Slot> {
    set k | k in t.inFlight && k.request == p.request && t.inFlight[k].client == p.client
  }

  function Released(t: Traffic, slots: set<Slot>): Traffic {
    t.(inFlight := t.inFlight - slots)
  }

  function WithoutResponses(responses: seq<Pair>, p: Pair): (r: seq<Pair>)
    ensures forall q | q in r :: q in responses
  {
    if responses == [] then []
    else if responses[0] == p then WithoutResponses(responses[1..], p)
    else [responses[0]] + WithoutResponses(responses[1..], p)
  }

  /** After a cancellation that was part of a posting, the posting goes on; else the lock is free. */
  function Return(p: Pair, nested: bool): Program {
    if nested then PostRecheck(p) else Idle
  }

  predicate Stale(s: Relay, p: Pair) {
    p in s.traffic.pending && s.traffic.pending[p] <= s.mono
  }

  predicate Can(s: Relay, step: Step) {
    match step
    case Tick(wall, mono) => s.wall <= wall && s.mono <= mono
    case Register(_) => s.traffic.admitting.None?
    case Remove(_) => s.traffic.admitting.None?
    case Admit(server, _) => s.traffic.admitting.None? && server in s.traffic.servers
    case Append => s.traffic.admitting.Some?
    case Pop(thread, server) =>
      thread !in s.traffic.polled && server in s.traffic.queues && s.traffic.queues[server] != []
    case Insert(thread) =>
      && s.traffic.admitting.None?
      && thread in s.traffic.polled && s.traffic.polled[thread].server in s.traffic.servers
    case GiveUp(thread) => thread in s.traffic.polled
    case Retrieve(at) => at < |s.responses|
    case BeginCancel(_) => s.holder.Idle?
    case BeginPost(_) => s.holder.Idle?
    case Advance(server) =>
      && !s.holder.Idle?
      && (s.holder.CancelInFlight? || s.holder.PostInFlight? ==> s.traffic.admitting.None?)
      && (s.holder.PostInFlight? && SlotsOf(s.traffic, s.holder.pair) != {} ==>
            Slot(server, s.holder.pair.request) in SlotsOf(s.traffic, s.holder.pair))
    case _ => true
  }

  /** Count an outcome unless one is on record for the pair, expired or not. */
  function CountOnce(l: Ledger, p: Pair, kind: Kind, now: Time, expiry: Time): Ledger {
    if p in l.outcomes then l
    else Ledger(l.outcomes[p := expiry], l.counted + [Counted(p, kind, now, expiry)])
  }

  function Pruned(l: Ledger, now: Time): Ledger {
    l.(outcomes := Unexpired(l.outcomes, now))
  }

  function Forgotten(l: Ledger, p: Pair, now: Time): Ledger {
    if p in l.outcomes && l.outcomes[p] <= now then l.(outcomes := l.outcomes - {p}) else l
  }

  /** The next step of the thread that holds the terminal-transition lock. */
  function Proceed(ttl: Time, s: Relay, server: NodeId): Relay
    requires !s.holder.Idle?
  {
    var w := s.traffic;
    match s.holder
    // Cancelling or expiring a request.
    case CancelUnqueue(p, won, nested) =>
      s.(traffic := Unqueued(w, p), holder := CancelPending(p, won, Queued(w, p), nested))
    case CancelPending(p, won, owned, nested) =>
      s.(traffic := Unpending(w, p), holder := CancelInFlight(p, won, owned || p in w.pending, nested))
    case CancelInFlight(p, won, owned, nested) =>
      s.(traffic := Released(w, SlotsOf(w, p)), holder := CancelDecide(p, won, owned || SlotsOf(w, p) != {}, nested))
    case CancelDecide(p, won, owned, nested) =>
      s.(holder := if owned && !won && p !in s.responses then MarkTime(p, nested) else Return(p, nested))
    case MarkTime(p, nested) => s.(holder := MarkPrune(p, s.wall + ttl, nested))
    case MarkPrune(p, expiry, nested) =>
      s.(markers := Unexpired(s.markers, s.wall), ledger := Pruned(s.ledger, s.wall), holder := MarkInsert(p, expiry, nested))
    case MarkInsert(p, expiry, nested) =>
      if p in s.markers then s.(holder := Return(p, nested))
      else s.(markers := s.markers[p := expiry], holder := CountTime(p, nested))
    case CountTime(p, nested) => s.(holder := CountInsert(p, s.wall + ttl, nested))
    case CountInsert(p, expiry, nested) =>
      s.(ledger := CountOnce(s.ledger, p, AsTerminal, s.wall, expiry), holder := Return(p, nested))
    // Posting a response.
    case PostDuplicate(p) => s.(holder := if p in s.responses then Idle else PostExpire(p))
    case PostExpire(p) =>
      s.(holder := if Stale(s, p) then CancelUnqueue(p, p in s.responses, true) else PostRecheck(p))
    case PostRecheck(p) =>
      s.(markers := LookedUp(s, p), holder := if Terminal(s, p) then Idle else PostInFlight(p))
    case PostInFlight(p) =>
      if SlotsOf(w, p) == {} then s.(holder := PostUnqueue(p, false))
      else s.(traffic := Released(w, {Slot(server, p.request)}), holder := PostUnqueue(p, true))
    case PostUnqueue(p, owned) =>
      s.(traffic := Unqueued(w, p), holder := PostPending(p, owned || Queued(w, p)))
    case PostPending(p, owned) =>
      s.(traffic := Unpending(w, p), holder := PostLastCheck(p, owned || p in w.pending))
    case PostLastCheck(p, owned) =>
      s.(markers := LookedUp(s, p), holder := if Terminal(s, p) || !owned then Idle else PostTime(p))
    case PostTime(p) => s.(holder := PostCount(p, s.wall + ttl))
    case PostCount(p, expiry) =>
      s.(ledger := CountOnce(s.ledger, p, AsCompleted, s.wall, expiry),
         holder := if p in s.ledger.outcomes then Idle else PostQueue(p, |s.ledger.counted|))
    case PostQueue(p, index) =>
      s.(responses := s.responses + [p], posted := s.posted + [Posted(p, index)], holder := Idle)
  }

  /** What a step that is not part of a cancellation or posting does to the traffic. */
  function Moved(s: Relay, step: Step): Traffic
    requires Can(s, step)
  {
    var w := s.traffic;
    match step
    case Register(server) => w.(servers := w.servers + {server})
    case Remove(server) =>
      w.(servers := w.servers - {server}, queues := w.queues - {server},
         inFlight := map k | k in w.inFlight && k.server != server :: w.inFlight[k])
    case Admit(server, item) =>
      w.(pending := w.pending[item.pair := item.deadline], admitting := Some(Polled(server, item)))
    case Append =>
      var server, item := w.admitting.value.server, w.admitting.value.item;
      w.(queues := w.queues[server := (if server in w.queues then w.queues[server] else []) + [item]], admitting := None)
    case Pop(thread, server) =>
      w.(polled := w.polled[thread := Polled(server, w.queues[server][0])],
         queues := if |w.queues[server]| == 1 then w.queues - {server} else w.queues[server := w.queues[server][1..]])
    case Insert(thread) =>
      var polled := w.polled[thread];
      w.(polled := w.polled - {thread},
         inFlight := w.inFlight[Slot(polled.server, polled.item.pair.request) :=
                                  InFlight(polled.item.pair.client, polled.item.deadline)])
    case GiveUp(thread) => w.(polled := w.polled - {thread})
    case Retrieve(at) => Unpending(w, s.responses[at])
    case _ => w
  }

  function Do(ttl: Time, s: Relay, step: Step): Relay
    requires Can(s, step)
  {
    match step
    case Advance(server) => Proceed(ttl, s, server)
    case Admit(_, item) => s.(traffic := Moved(s, step), admitted := s.admitted + {item.pair})
    case Tick(wall, mono) => s.(wall := wall, mono := mono)
    case Retrieve(at) => s.(traffic := Moved(s, step), responses := s.responses[..at] + s.responses[at + 1..])
    case DropResponses(p) => s.(responses := WithoutResponses(s.responses, p))
    case Prune => s.(markers := Unexpired(s.markers, s.wall), ledger := Pruned(s.ledger, s.wall))
    case LookUp(p) => s.(markers := LookedUp(s, p))
    case ForgetOutcome(p) => s.(ledger := Forgotten(s.ledger, p, s.wall))
    case BeginCancel(p) => s.(holder := CancelUnqueue(p, p in s.responses, false))
    case BeginPost(p) => s.(markers := LookedUp(s, p), holder := if Terminal(s, p) then Idle else PostDuplicate(p))
    case _ => s.(traffic := Moved(s, step))
  }

  // ----- The invariant -----

  /** A marked pair has no queued response, and whoever is about to add either knows the other away. */
  predicate Exclusive(s: Relay) {
    && (forall p | p in s.responses :: !Terminal(s, p))
    && (s.holder.MarkTime? || s.holder.MarkPrune? || s.holder.MarkInsert? ==> s.holder.pair !in s.responses)
    && (s.holder.PostTime? || s.holder.PostCount? || s.holder.PostQueue? ==> !Terminal(s, s.holder.pair))
  }

  /** Outcomes of one pair are counted in disjoint windows; the last window is still on record. */
  predicate CountedOnce(l: Ledger, now: Time) {
    && (forall i | 0 <= i < |l.counted| ::
          && l.counted[i].at <= now
          && var c := l.counted[i];
             c.until <= now || (c.pair in l.outcomes && l.outcomes[c.pair] >= c.until))
    && (forall i, j | 0 <= i < j < |l.counted| && l.counted[i].pair == l.counted[j].pair ::
          l.counted[i].until <= l.counted[j].at)
  }

  /** Every response ever queued goes with a completed outcome of its own. */
  predicate PostedOnce(posted: seq<Posted>, counted: seq<Counted>, holder: Program) {
    && (forall k | 0 <= k < |posted| ::
          && posted[k].index < |counted|
          && counted[posted[k].index].kind == AsCompleted && counted[posted[k].index].pair == posted[k].pair)
    && (forall k, m | 0 <= k < m < |posted| :: posted[k].index < posted[m].index)
    && (holder.PostQueue? ==>
          && holder.index < |counted|
          && counted[holder.index].kind == AsCompleted && counted[holder.index].pair == holder.pair
          && forall k | 0 <= k < |posted| :: posted[k].index < holder.index)
  }

  predicate Single(responses: seq<Pair>) {
    forall i, j | 0 <= i < j < |responses| :: responses[i] != responses[j]
  }

  /** No pair ever has two queued responses. */
  predicate SingleResponses(s: Relay) {
    && Single(s.responses)
    && (Posting(s.holder) ==> s.holder.pair !in s.responses)
  }

  /** A posting that has found no response for its pair, or a cancellation nested in it. */
  predicate Posting(h: Program) {
    || h.PostExpire? || h.PostRecheck? || h.PostInFlight? || h.PostUnqueue? || h.PostPending? || h.PostLastCheck?
    || h.PostTime? || h.PostCount? || h.PostQueue?
    || ((h.CancelUnqueue? || h.CancelPending? || h.CancelInFlight? || h.CancelDecide? || h.MarkTime? || h.MarkPrune?
         || h.MarkInsert? || h.CountTime? || h.CountInsert?) && h.nested)
  }

  predicate Inv(s: Relay) {
    && Exclusive(s) && SingleResponses(s)
    && CountedOnce(s.ledger, s.wall) && PostedOnce(s.posted, s.ledger.counted, s.holder)
    && Known(s)
  }

  lemma {:induction false} WithoutStaysSingle(responses: seq<Pair>, p: Pair)
    requires Single(responses)
    ensures Single(WithoutResponses(responses, p))
  {
    if responses != [] {
      var first, rest := responses[0], responses[1..];
      WithoutStaysSingle(rest, p);
      forall q | q in WithoutResponses(rest, p)
        ensures q != first
      {
        var i :| 0 <= i < |rest| && rest[i] == q;
        assert responses[i + 1] == q;
      }
      FirstStaysSingle(first, WithoutResponses(rest, p));
    }
  }

  lemma FirstStaysSingle(first: Pair, rest: seq<Pair>)
    requires Single(rest) && first !in rest
    ensures Single([first] + rest)
  {
  }

  lemma RetrievedStaysSingle(responses: seq<Pair>, at: nat)
    requires at < |responses| && Single(responses)
    ensures var r := responses[..at] + responses[at + 1..];
            Single(r) && forall q | q in r :: q in responses
  {
  }

  lemma LastStaysSingle(responses: seq<Pair>, p: Pair)
    requires Single(responses) && p !in responses
    ensures Single(responses + [p])
  {
  }

  /** Only posting adds a response, and what it adds is its own pair. */
  lemma ResponsesFrame(ttl: Time, s: Relay, step: Step)
    requires Can(s, step)
    ensures var t := Do(ttl, s, step);
            if step.Advance? && s.holder.PostQueue? then t.responses == s.responses + [s.holder.pair] && t.holder.Idle?
            else if step.Retrieve? then t.responses == s.responses[..step.at] + s.responses[step.at + 1..]
            else if step.DropResponses? then t.responses == WithoutResponses(s.responses, step.pair)
            else t.responses == s.responses
  {
    hide Queued, Unqueued, Unpending, Released, SlotsOf, Stale, WithoutResponses, CountOnce, Pruned, Forgotten, Moved,
         LookedUp, Unexpired, Terminal;
  }

  lemma PostingFrame(ttl: Time, s: Relay, step: Step)
    requires Can(s, step)
    ensures var h, t := s.holder, Do(ttl, s, step).holder;
            Posting(t) ==> if Posting(h) then t.pair == h.pair else t.pair !in s.responses
  {
    hide Queued, Unqueued, Unpending, Released, SlotsOf, Stale, WithoutResponses, CountOnce, Pruned, Forgotten, Moved,
         LookedUp, Unexpired, Terminal;
  }

  lemma MarkingFrame(ttl: Time, s: Relay, step: Step)
    requires Can(s, step)
    ensures var h, t := s.holder, Do(ttl, s, step).holder;
            && (t.MarkTime? ==> if h.MarkTime? then t == h else t.pair !in s.responses)
            && (t.MarkPrune? ==> (h.MarkTime? || h.MarkPrune?) && t.pair == h.pair)
            && (t.MarkInsert? ==> (h.MarkPrune? || h.MarkInsert?) && t.pair == h.pair)
  {
    hide Queued, Unqueued, Unpending, Released, SlotsOf, Stale, WithoutResponses, CountOnce, Pruned, Forgotten, Moved,
         LookedUp, Unexpired, Terminal;
  }

  lemma CompletingFrame(ttl: Time, s: Relay, step: Step)
    requires Can(s, step)
    ensures var h, t := s.holder, Do(ttl, s, step).holder;
            && (t.PostTime? ==> if h.PostTime? then t == h else h.PostLastCheck? && t.pair == h.pair && !Terminal(s, t.pair))
            && (t.PostCount? || t.PostQueue? ==> (h.PostTime? || h.PostCount? || h.PostQueue?) && t.pair == h.pair)
  {
    hide Queued, Unqueued, Unpending, Released, SlotsOf, Stale, WithoutResponses, CountOnce, Pruned, Forgotten, Moved,
         LookedUp, Unexpired, Terminal;
  }

  /** A marker is set only for the pair that the holder is marking. */
  lemma MarkersFrame(ttl: Time, s: Relay, step: Step)
    requires Can(s, step)
    ensures var t := Do(ttl, s, step);
            && s.wall <= t.wall
            && forall p | p in t.markers ::
                 || (p in s.markers && t.markers[p] == s.markers[p])
                 || (step.Advance? && s.holder.MarkInsert? && p == s.holder.pair && t.holder.CountTime?)
  {
    hide Queued, Unqueued, Unpending, Released, SlotsOf, Stale, WithoutResponses, CountOnce, Pruned, Forgotten, Moved,
         Terminal;
  }

  lemma ExclusiveStep(ttl: Time, s: Relay, step: Step)
    requires Can(s, step) && Exclusive(s) && SingleResponses(s)
    ensures Exclusive(Do(ttl, s, step))
  {
    ResponsesFrame(ttl, s, step);
    MarkersFrame(ttl, s, step);
    MarkingFrame(ttl, s, step);
    CompletingFrame(ttl, s, step);
    if step.Retrieve? {
      RetrievedStaysSingle(s.responses, step.at);
    }
    hide Do, Can, Single, SingleResponses, WithoutResponses;
  }

  lemma SingleStep(ttl: Time, s: Relay, step: Step)
    requires Can(s, step) && SingleResponses(s)
    ensures SingleResponses(Do(ttl, s, step))
  {
    ResponsesFrame(ttl, s, step);
    PostingFrame(ttl, s, step);
    if step.Retrieve? {
      RetrievedStaysSingle(s.responses, step.at);
    } else if step.DropResponses? {
      WithoutStaysSingle(s.responses, step.pair);
    } else if step.Advance? && s.holder.PostQueue? {
      LastStaysSingle(s.responses, s.holder.pair);
    }
    hide Do, Can, Single, WithoutResponses;
  }

  // ----- Counting -----

  lemma CountOnceKeeps(l: Ledger, p: Pair, kind: Kind, now: Time, expiry: Time)
    requires CountedOnce(l, now)
    ensures CountedOnce(CountOnce(l, p, kind, now, expiry), now)
  {
  }

  lemma PrunedKeeps(l: Ledger, now: Time)
    requires CountedOnce(l, now)
    ensures CountedOnce(Pruned(l, now), now) && forall p :: CountedOnce(Forgotten(l, p, now), now)
  {
  }

  lemma LaterKeeps(l: Ledger, now: Time, later: Time)
    requires CountedOnce(l, now) && now <= later
    ensures CountedOnce(l, later)
  {
  }

  lemma CountedStep(ttl: Time, s: Relay, step: Step)
    requires Can(s, step) && CountedOnce(s.ledger, s.wall)
    ensures CountedOnce(Do(ttl, s, step).ledger, Do(ttl, s, step).wall)
  {
    hide Queued, Unqueued, Unpending, Released, SlotsOf, Stale, WithoutResponses, CountOnce, LookedUp, Unexpired,
         Terminal, CountedOnce, Pruned, Forgotten, Moved;
    PrunedKeeps(s.ledger, s.wall);
    if step.Tick? {
      LaterKeeps(s.ledger, s.wall, step.wall);
    } else if step.Advance? && s.holder.CountInsert? {
      CountOnceKeeps(s.ledger, s.holder.pair, AsTerminal, s.wall, s.holder.expiry);
    } else if step.Advance? && s.holder.PostCount? {
      CountOnceKeeps(s.ledger, s.holder.pair, AsCompleted, s.wall, s.holder.expiry);
    }
  }

  lemma PostedElsewhere(ttl: Time, s: Relay, step: Step)
    requires Can(s, step) && !(step.Advance? && (s.holder.PostCount? || s.holder.PostQueue? || s.holder.CountInsert?))
    ensures var t := Do(ttl, s, step);
            && t.posted == s.posted && t.ledger.counted == s.ledger.counted
            && (t.holder.PostQueue? ==> t.holder == s.holder)
  {
    hide Queued, Unqueued, Unpending, Released, SlotsOf, Stale, WithoutResponses, LookedUp, Unexpired, CountOnce,
         Terminal, Moved;
  }

  lemma PostedStep(ttl: Time, s: Relay, step: Step)
    requires Can(s, step) && PostedOnce(s.posted, s.ledger.counted, s.holder)
    ensures var t := Do(ttl, s, step);
            PostedOnce(t.posted, t.ledger.counted, t.holder)
  {
    if step.Advance? && (s.holder.PostCount? || s.holder.PostQueue? || s.holder.CountInsert?) {
      hide Queued, Unqueued, Unpending, Released, SlotsOf, Stale, WithoutResponses, LookedUp, Unexpired, Terminal, Moved;
    } else {
      hide Can, Do, CountOnce;
      PostedElsewhere(ttl, s, step);
    }
  }

  // ----- Where answers come from -----

  /** Everything on its way through the servers was admitted. */
  predicate KnownTraffic(t: Traffic, admitted: set<Pair>) {
    && (forall p | p in t.pending :: p in admitted)
    && (t.admitting.Some? ==> t.admitting.value.item.pair in admitted)
    && (forall n | n in t.queues :: forall i | 0 <= i < |t.queues[n]| :: t.queues[n][i].pair in admitted)
    && (forall k | k in t.polled :: t.polled[k].item.pair in admitted)
    && (forall k | k in t.inFlight :: Pair(t.inFlight[k].client, k.request) in admitted)
  }

  /** The holder has taken over work of its pair. */
  predicate Owns(h: Program) {
    || ((h.CancelPending? || h.CancelInFlight? || h.CancelDecide? || h.PostUnqueue? || h.PostPending? || h.PostLastCheck?)
        && h.owned)
    || h.MarkTime? || h.MarkPrune? || h.MarkInsert? || h.CountTime? || h.CountInsert?
    || h.PostTime? || h.PostCount? || h.PostQueue?
  }

  predicate Known(s: Relay) {
    && KnownTraffic(s.traffic, s.admitted)
    && (Owns(s.holder) ==> s.holder.pair in s.admitted)
    && (forall i | 0 <= i < |s.ledger.counted| :: s.ledger.counted[i].pair in s.admitted)
    && (forall k | 0 <= k < |s.posted| :: s.posted[k].pair in s.admitted)
    && (forall p | p in s.responses :: p in s.admitted)
  }

  lemma {:induction false} WithoutPairMembers(items: seq<Item>, p: Pair)
    ensures forall x :: x in WithoutPair(items, p) <==> x in items && x.pair != p
  {
    if items != [] {
      WithoutPairMembers(items[1..], p);
      assert items == [items[0]] + items[1..];
    }
  }

  lemma UnqueuedKnown(t: Traffic, p: Pair, admitted: set<Pair>)
    requires KnownTraffic(t, admitted)
    ensures KnownTraffic(Unqueued(t, p), admitted)
    ensures Queued(t, p) ==> p in admitted
  {
    var u := Unqueued(t, p);
    forall n, i | n in u.queues && 0 <= i < |u.queues[n]|
      ensures u.queues[n][i].pair in admitted
    {
      WithoutPairMembers(t.queues[n], p);
      assert u.queues[n][i] in t.queues[n];
    }
  }

  lemma ReleasedKnown(t: Traffic, p: Pair, slots: set<Slot>, admitted: set<Pair>)
    requires KnownTraffic(t, admitted)
    ensures KnownTraffic(Released(t, slots), admitted) && KnownTraffic(Unpending(t, p), admitted)
    ensures SlotsOf(t, p) != {} ==> p in admitted
    ensures p in t.pending ==> p in admitted
  {
    if SlotsOf(t, p) != {} {
      var k :| k in SlotsOf(t, p);
      assert Pair(t.inFlight[k].client, k.request) == p;
    }
  }

  lemma MovedKnown(s: Relay, step: Step)
    requires Can(s, step) && KnownTraffic(s.traffic, s.admitted)
    ensures KnownTraffic(Moved(s, step), s.admitted + if step.Admit? then {step.item.pair} else {})
  {
  }

  /** What the holder does with the traffic, and when it comes to own its pair. */
  lemma ProceedKnown(ttl: Time, s: Relay, server: NodeId)
    requires !s.holder.Idle? && Known(s)
    ensures var t := Proceed(ttl, s, server);
            && KnownTraffic(t.traffic, s.admitted) && t.admitted == s.admitted
            && (Owns(t.holder) ==> t.holder.pair in s.admitted)
  {
    hide KnownTraffic, Unqueued, Queued, Released, Unpending, SlotsOf, Stale, CountOnce, Pruned, LookedUp, Unexpired,
         Terminal;
    UnqueuedKnown(s.traffic, s.holder.pair, s.admitted);
    ReleasedKnown(s.traffic, s.holder.pair, SlotsOf(s.traffic, s.holder.pair), s.admitted);
    ReleasedKnown(s.traffic, s.holder.pair, {Slot(server, s.holder.pair.request)}, s.admitted);
  }

  lemma ProceedAnswers(ttl: Time, s: Relay, server: NodeId)
    requires !s.holder.Idle? && Known(s)
    ensures var t := Proceed(ttl, s, server);
            && (forall i | 0 <= i < |t.ledger.counted| :: t.ledger.counted[i].pair in s.admitted)
            && (forall k | 0 <= k < |t.posted| :: t.posted[k].pair in s.admitted)
            && (forall p | p in t.responses :: p in s.admitted)
  {
    hide KnownTraffic, Unqueued, Queued, Released, Unpending, SlotsOf, Stale, LookedUp, Unexpired, Terminal;
  }

  lemma KnownStep(ttl: Time, s: Relay, step: Step)
    requires Can(s, step) && Known(s)
    ensures Known(Do(ttl, s, step))
  {
    hide Proceed, KnownTraffic, Moved, LookedUp, Unexpired, Terminal, SlotsOf, WithoutResponses;
    if step.Advance? {
      ProceedKnown(ttl, s, step.server);
      ProceedAnswers(ttl, s, step.server);
    } else {
      MovedKnown(s, step);
      assert s.admitted + {} == s.admitted;
      if step.DropResponses? {
        assert forall q | q in WithoutResponses(s.responses, step.pair) :: q in s.responses;
      }
    }
  }

  lemma StepKeepsInv(ttl: Time, s: Relay, step: Step)
    requires Can(s, step) && Inv(s)
    ensures Inv(Do(ttl, s, step))
  {
    hide Can, Do, Exclusive, CountedOnce, PostedOnce, SingleResponses, Known;
    KnownStep(ttl, s, step);
    ExclusiveStep(ttl, s, step);
    CountedStep(ttl, s, step);
    PostedStep(ttl, s, step);
    SingleStep(ttl, s, step);
  }

  // ----- Runs -----

  /** Any interleaving of the steps of any number of threads. */
  ghost predicate Run(ttl: Time, states: seq<Relay>, steps: seq<Step>) {
    && |states| == |steps| + 1
    && states[0] == Init(states[0].wall, states[0].mono)
    && forall i | 0 <= i < |steps| :: Can(states[i], steps[i]) && states[i + 1] == Do(ttl, states[i], steps[i])
  }

  lemma {:induction false} RunInv(ttl: Time, states: seq<Relay>, steps: seq<Step>, i: nat)
    requires Run(ttl, states, steps) && i < |states|
    ensures Inv(states[i])
  {
    hide Inv, Can, Do;
    if i == 0 {
      InitInv(states[0]);
    } else {
      RunInv(ttl, states, steps, i - 1);
      StepKeepsInv(ttl, states[i - 1], steps[i - 1]);
    }
  }

  lemma InitInv(s: Relay)
    requires s == Init(s.wall, s.mono)
    ensures Inv(s)
  {
  }

  // ----- Main results -----

  /** In no interleaving is a response queued for a pair that has an unexpired terminal marker. */
  lemma NeverBoth(ttl: Time, states: seq<Relay>, steps: seq<Step>, i: nat, p: Pair)
    requires Run(ttl, states, steps) && i < |states|
    ensures !(Terminal(states[i], p) && p in states[i].responses)
  {
    RunInv(ttl, states, steps, i);
  }

  /** Retrieval's removal of responses for a terminal pair never has anything to remove. */
  lemma TerminalCleanupIsIdle(ttl: Time, states: seq<Relay>, steps: seq<Step>, i: nat, p: Pair)
    requires Run(ttl, states, steps) && i < |states| && Terminal(states[i], p)
    ensures Do(ttl, states[i], DropResponses(p)) == states[i]
  {
    NeverBoth(ttl, states, steps, i, p);
    NothingToDrop(states[i].responses, p);
  }

  lemma {:induction false} NothingToDrop(responses: seq<Pair>, p: Pair)
    requires p !in responses
    ensures WithoutResponses(responses, p) == responses
  {
    if responses != [] {
      NothingToDrop(responses[1..], p);
    }
  }

  /** Two outcomes of one pair are never counted within one retention window. */
  lemma OneOutcomePerWindow(ttl: Time, states: seq<Relay>, steps: seq<Step>, i: nat, k: nat, m: nat)
    requires Run(ttl, states, steps) && i < |states| && k < m < |states[i].ledger.counted|
    requires states[i].ledger.counted[k].pair == states[i].ledger.counted[m].pair
    ensures states[i].ledger.counted[k].until <= states[i].ledger.counted[m].at
  {
    RunInv(ttl, states, steps, i);
  }

  /**
    Each response ever queued has a completed outcome of its own, so no two responses for one pair
    are queued within one retention window, and never two at once.
  */
  lemma OneResponsePerWindow(ttl: Time, states: seq<Relay>, steps: seq<Step>, i: nat, k: nat, m: nat)
    requires Run(ttl, states, steps) && i < |states| && k < m < |states[i].posted|
    ensures var a, b, counted := states[i].posted[k], states[i].posted[m], states[i].ledger.counted;
            && a.index < b.index < |counted|
            && counted[a.index].pair == a.pair && counted[a.index].kind == AsCompleted
            && counted[b.index].pair == b.pair && counted[b.index].kind == AsCompleted
            && (a.pair == b.pair ==> counted[a.index].until <= counted[b.index].at)
    ensures forall x, y | 0 <= x < y < |states[i].responses| :: states[i].responses[x] != states[i].responses[y]
  {
    RunInv(ttl, states, steps, i);
  }

  lemma {:induction false} AdmittedEarlier(ttl: Time, states: seq<Relay>, steps: seq<Step>, i: nat, p: Pair)
    returns (j: nat)
    requires Run(ttl, states, steps) && i < |states| && p in states[i].admitted
    ensures j < i && steps[j].Admit? && steps[j].item.pair == p
  {
    hide Can, Do;
    assert i != 0;
    AdmittedFrame(ttl, states[i - 1], steps[i - 1]);
    if p in states[i - 1].admitted {
      j := AdmittedEarlier(ttl, states, steps, i - 1, p);
    } else {
      j := i - 1;
    }
  }

  lemma AdmittedFrame(ttl: Time, s: Relay, step: Step)
    requires Can(s, step)
    ensures Do(ttl, s, step).admitted == s.admitted + if step.Admit? then {step.item.pair} else {}
  {
    hide Moved, Queued, Unqueued, Unpending, Released, SlotsOf, Stale, WithoutResponses, LookedUp, Unexpired, CountOnce,
         Terminal, Pruned, Forgotten;
  }

  /**
    Whatever the servers post and whoever cancels, every outcome counted and every response queued
    is for a pair whose request was admitted earlier; so is everything queued, polled or in flight.
  */
  lemma OnlyAdmittedIsAnswered(ttl: Time, states: seq<Relay>, steps: seq<Step>, i: nat, p: Pair) returns (j: nat)
    requires Run(ttl, states, steps) && i < |states|
    requires var s := states[i];
             || (exists k :: 0 <= k < |s.ledger.counted| && s.ledger.counted[k].pair == p)
             || (exists k :: 0 <= k < |s.posted| && s.posted[k].pair == p)
             || p in s.responses || p in s.traffic.pending || Queued(s.traffic, p) || SlotsOf(s.traffic, p) != {}
    ensures j < i && steps[j].Admit? && steps[j].item.pair == p
  {
    RunInv(ttl, states, steps, i);
    UnqueuedKnown(states[i].traffic, p, states[i].admitted);
    ReleasedKnown(states[i].traffic, p, {}, states[i].admitted);
    j := AdmittedEarlier(ttl, states, steps, i, p);
  }

  lemma MarkerStep(ttl: Time, s: Relay, step: Step, p: Pair)
    requires Can(s, step) && p in s.markers && s.markers[p] > s.wall
    ensures var t := Do(ttl, s, step);
            p in t.markers && t.markers[p] == s.markers[p] && s.wall <= t.wall
  {
    hide Moved, Queued, Unqueued, Unpending, Released, SlotsOf, Stale, WithoutResponses, CountOnce, Pruned, Forgotten;
  }

  /**
    A terminal marker is final until it expires: it is neither dropped nor moved, however the request
    is popped, put in flight or posted meanwhile, so no response for its pair is queued before then.
  */
  lemma {:induction false} MarkerIsFinal(ttl: Time, states: seq<Relay>, steps: seq<Step>, i: nat, j: nat, p: Pair)
    requires Run(ttl, states, steps) && i <= j < |states| && Terminal(states[i], p)
    requires states[j].wall < states[i].markers[p]
    ensures p in states[j].markers && states[j].markers[p] == states[i].markers[p]
    ensures p !in states[j].responses
  {
    hide Can, Do, Inv;
    if i < j {
      WallStep(ttl, states[j - 1], steps[j - 1]);
      MarkerIsFinal(ttl, states, steps, i, j - 1, p);
      MarkerStep(ttl, states[j - 1], steps[j - 1], p);
    }
    NeverBoth(ttl, states, steps, j, p);
  }

  lemma WallStep(ttl: Time, s: Relay, step: Step)
    requires Can(s, step)
    ensures s.wall <= Do(ttl, s, step).wall
  {
    hide Moved, Queued, Unqueued, Unpending, Released, SlotsOf, Stale, WithoutResponses, LookedUp, Unexpired, CountOnce,
         Terminal, Pruned, Forgotten;
  }
}
