/**
  The round-robin side of the wired relay: known servers in registration order, the index of the
  next API v1 server to serve, and the per-tie positions of the best-fit scheduler.

  What must survive every registration and removal is the cyclic order in which servers are next.
*/
module RelayRoundRobin {
  import opened RelayTypes

  type Key = nat

  /** `api` is the marker of servers that speak API v1; others are never scheduled here. */
  datatype Server = Server(key: Key, api: bool)

  /** What a server has reported and what is known of its load; absent or malformed parts are `None`. */
  datatype Report = Report(
    unavailable: bool,
    stale: bool,
    apiV1: bool,
    tier: Option<Tier>,
    models: set<ModelId>,
    contextTokens: Option<int>,
    maxConcurrency: Option<int>,
    queueDepth: nat,
    inFlight: nat)
  {
    function TierTokens(): nat {
      if tier.Some? then tier.value.Tokens() else 0
    }

    function Concurrency(): (n: nat)
      ensures n >= 1
    {
      if maxConcurrency.Some? && maxConcurrency.value >= 1 then maxConcurrency.value else 1
    }
  }

  /** What the scheduler compares: serving tier first, then the rounded load score. */
  datatype Offer = Offer(tierTokens: nat, load: real)

  /** The server is up, serves the model and the tier, and its context covers its own tier. */
  predicate Suits(r: Report, model: Option<ModelId>, wanted: Tier) {
    && !r.unavailable && !r.stale && r.apiV1
    && r.tier.Some? && r.tier.value.Tokens() >= wanted.Tokens()
    && r.models != {} && (model.Some? ==> model.value in r.models)
    && r.contextTokens.Some? && r.contextTokens.value >= r.tier.value.Tokens()
  }

  predicate HasCapacity(r: Report, maxQueueDepth: nat) {
    r.inFlight < r.Concurrency() && r.queueDepth < maxQueueDepth
  }

  /** The exact load; `rounded` stands for the original's rounding to six decimals. */
  function LoadScore(r: Report, rounded: real -> real): real {
    rounded((r.queueDepth + r.inFlight) as real / r.Concurrency() as real)
  }

  /** The API v1 keys in registration order. */
  function ApiKeys(servers: seq<Server>): seq<Key> {
    if servers == [] then []
    else ApiKeys(servers[..|servers| - 1])
         + if servers[|servers| - 1].api then [servers[|servers| - 1].key] else []
  }

  predicate Distinct<T(==)>(s: seq<T>) {
    forall i, j | 0 <= i < j < |s| :: s[i] != s[j]
  }

  predicate DistinctServers(servers: seq<Server>) {
    forall i, j | 0 <= i < j < |servers| :: servers[i].key != servers[j].key
  }

  /** The order in which servers are next, starting with the one the index points at. */
  function Cycle(keys: seq<Key>, next: nat): seq<Key> {
    if next > |keys| then [] else keys[next..] + keys[..next]
  }

  function Dropped(keys: seq<Key>, k: Key): seq<Key> {
    if keys == [] then []
    else if keys[0] == k then Dropped(keys[1..], k)
    else [keys[0]] + Dropped(keys[1..], k)
  }

  // ----- Sequences of keys -----

  lemma {:induction false} ApiKeysConcat(a: seq<Server>, b: seq<Server>)
    ensures ApiKeys(a + b) == ApiKeys(a) + ApiKeys(b)
  {
    if b == [] {
      assert a + b == a;
    } else {
      ApiKeysConcat(a, b[..|b| - 1]);
      assert (a + b)[..|a + b| - 1] == a + b[..|b| - 1];
    }
  }

  lemma {:induction false} ApiKeysMembers(servers: seq<Server>)
    ensures forall k :: k in ApiKeys(servers) <==> Server(k, true) in servers
  {
    if servers != [] {
      var last := |servers| - 1;
      ApiKeysMembers(servers[..last]);
      assert servers == servers[..last] + [servers[last]];
    }
  }

  lemma {:induction false} ApiKeysDistinct(servers: seq<Server>)
    requires DistinctServers(servers)
    ensures Distinct(ApiKeys(servers))
  {
    if servers != [] {
      var last := |servers| - 1;
      ApiKeysDistinct(servers[..last]);
      ApiKeysMembers(servers[..last]);
      forall k | k in ApiKeys(servers[..last])
        ensures k != servers[last].key
      {
        var i :| 0 <= i < last && servers[..last][i] == Server(k, true);
      }
    }
  }

  lemma {:induction false} DroppedConcat(a: seq<Key>, b: seq<Key>, k: Key)
    ensures Dropped(a + b, k) == Dropped(a, k) + Dropped(b, k)
  {
    if a == [] {
      assert a + b == b;
    } else {
      DroppedConcat(a[1..], b, k);
      assert (a + b)[0] == a[0] && (a + b)[1..] == a[1..] + b;
      if a[0] != k {
        assert Dropped(a + b, k) == [a[0]] + Dropped(a[1..] + b, k);
      }
    }
  }

  lemma {:induction false} DroppedAbsent(a: seq<Key>, k: Key)
    requires k !in a
    ensures Dropped(a, k) == a
  {
    if a != [] {
      DroppedAbsent(a[1..], k);
    }
  }

  /** Where the index goes when the key at `p` is removed. */
  function IndexAfter(count: nat, p: nat, next: nat): nat
    requires p < count && next < count
  {
    if p < next then next - 1 else if next < count - 1 then next else 0
  }

  /** The cyclic order after a removal is the order before it without the removed key. */
  lemma RemovalKeepsCycle(a: seq<Key>, k: Key, b: seq<Key>, next: nat)
    requires k !in a && k !in b && next < |a| + 1 + |b|
    ensures Cycle(a + b, IndexAfter(|a| + 1 + |b|, |a|, next)) == Dropped(Cycle(a + [k] + b, next), k)
  {
    if |a| < next {
      RemovalBefore(a, k, b, next);
    } else {
      RemovalAfter(a, k, b, next);
    }
  }

  lemma RemovalBefore(a: seq<Key>, k: Key, b: seq<Key>, next: nat)
    requires k !in a && k !in b && |a| < next < |a| + 1 + |b|
    ensures Cycle(a + b, next - 1) == Dropped(Cycle(a + [k] + b, next), k)
  {
    var i := next - |a| - 1;
    assert b == b[..i] + b[i..];
    assert (a + [k] + b)[next..] == b[i..] && (a + [k] + b)[..next] == a + [k] + b[..i];
    assert (a + b)[next - 1..] == b[i..] && (a + b)[..next - 1] == a + b[..i];
    DroppedOne(b[i..] + a, k, b[..i]);
    assert b[i..] + (a + [k] + b[..i]) == b[i..] + a + [k] + b[..i];
    assert b[i..] + (a + b[..i]) == b[i..] + a + b[..i];
  }

  lemma RemovalAfter(a: seq<Key>, k: Key, b: seq<Key>, next: nat)
    requires k !in a && k !in b && next <= |a|
    ensures Cycle(a + b, if next < |a| + |b| then next else 0) == Dropped(Cycle(a + [k] + b, next), k)
  {
    assert a == a[..next] + a[next..];
    assert (a + [k] + b)[next..] == a[next..] + [k] + b && (a + [k] + b)[..next] == a[..next];
    assert (a + b)[next..] == a[next..] + b && (a + b)[..next] == a[..next];
    DroppedOne(a[next..], k, b + a[..next]);
    assert a[next..] + [k] + b + a[..next] == a[next..] + [k] + (b + a[..next]);
    assert a[next..] + b + a[..next] == a[next..] + (b + a[..next]);
    if next == |a| + |b| {
      assert b == [] && a[next..] == [] && a[..next] == a;
    }
  }

  lemma DroppedOne(a: seq<Key>, k: Key, b: seq<Key>)
    requires k !in a && k !in b
    ensures Dropped(a + [k] + b, k) == a + b
  {
    hide Dropped;
    DroppedConcat(a + [k], b, k);
    DroppedConcat(a, [k], k);
    DroppedAbsent(a, k);
    DroppedAbsent(b, k);
    DroppedSelf(k);
  }

  lemma DroppedSelf(k: Key)
    ensures Dropped([k], k) == []
  {
  }

  lemma KeysWithout(keys: seq<Key>, next: nat, k: Key)
    requires k !in keys
    ensures Dropped(keys, k) == keys && Dropped(Cycle(keys, next), k) == Cycle(keys, next)
  {
    DroppedAbsent(keys, k);
    DroppedAbsent(Cycle(keys, next), k);
  }

  /** A server that registers comes after all others, before whoever was next. */
  lemma RegistrationKeepsCycle(keys: seq<Key>, k: Key, next: nat)
    requires k !in keys && next < |keys|
    ensures Cycle(keys + [k], next)[0] == Cycle(keys, next)[0]
    ensures Dropped(Cycle(keys + [k], next), k) == Cycle(keys, next)
  {
    assert keys == keys[..next] + keys[next..];
    assert (keys + [k])[next..] == keys[next..] + [k] && (keys + [k])[..next] == keys[..next];
    DroppedOne(keys[next..], k, keys[..next]);
  }

  lemma DistinctAround(servers: seq<Server>, i: nat)
    requires DistinctServers(servers) && i < |servers|
    ensures DistinctServers(servers[..i] + servers[i + 1..])
    ensures servers[i].key !in ApiKeys(servers[..i]) && servers[i].key !in ApiKeys(servers[i + 1..])
    ensures forall s | s in servers[..i] + servers[i + 1..] :: s.key != servers[i].key
  {
    ApiKeysMembers(servers[..i]);
    ApiKeysMembers(servers[i + 1..]);
  }

  /** The keys around one server. */
  lemma SplitKeys(servers: seq<Server>, i: nat)
    requires DistinctServers(servers) && i < |servers|
    ensures var a, b, k := ApiKeys(servers[..i]), ApiKeys(servers[i + 1..]), servers[i].key;
            && k !in a && k !in b
            && ApiKeys(servers) == (if servers[i].api then a + [k] + b else a + b)
            && Dropped(ApiKeys(servers), k) == a + b
            && ApiKeys(servers[..i] + servers[i + 1..]) == a + b
  {
    hide ApiKeys, DistinctServers, Dropped;
    var before, after, mid := servers[..i], servers[i + 1..], [servers[i]];
    var k := servers[i].key;
    DistinctAround(servers, i);
    assert servers == before + mid + after;
    ApiKeysConcat(before + mid, after);
    ApiKeysConcat(before, mid);
    ApiKeysConcat(before, after);
    ApiKeysOne(servers[i]);
    if servers[i].api {
      DroppedOne(ApiKeys(before), k, ApiKeys(after));
    } else {
      DroppedAbsent(ApiKeys(before) + ApiKeys(after), k);
    }
  }

  lemma ApiKeysOne(server: Server)
    ensures ApiKeys([server]) == if server.api then [server.key] else []
  {
    assert [server][..0] == [];
  }

  function WithoutServer(servers: seq<Server>, i: nat): seq<Server>
    requires i < |servers|
  {
    servers[..i] + servers[i + 1..]
  }

  predicate InRange(keys: seq<Key>, next: nat) {
    keys != [] ==> next < |keys|
  }

  lemma ServerRemoved(servers: seq<Server>, i: nat, next: nat)
    requires DistinctServers(servers) && i < |servers| && InRange(ApiKeys(servers), next)
    ensures var rest, keys, p := WithoutServer(servers, i), ApiKeys(servers), |ApiKeys(servers[..i])|;
            && DistinctServers(rest)
            && ApiKeys(rest) == Dropped(keys, servers[i].key)
            && (servers[i].api ==> p < |keys| && |ApiKeys(rest)| == |keys| - 1)
            && (!servers[i].api ==> ApiKeys(rest) == keys)
            && var moved := if servers[i].api then IndexAfter(|keys|, p, next) else next;
            && InRange(ApiKeys(rest), moved)
            && Cycle(ApiKeys(rest), moved) == Dropped(Cycle(keys, next), servers[i].key)
  {
    hide ApiKeys, DistinctServers, Dropped, Cycle;
    DistinctAround(servers, i);
    SplitKeys(servers, i);
    if servers[i].api {
      RemovalKeepsCycle(ApiKeys(servers[..i]), servers[i].key, ApiKeys(servers[i + 1..]), next);
    } else {
      KeysWithout(ApiKeys(servers), next, servers[i].key);
    }
  }

  lemma ServerAdded(servers: seq<Server>, key: Key, api: bool)
    requires DistinctServers(servers) && forall s | s in servers :: s.key != key
    ensures DistinctServers(servers + [Server(key, api)])
    ensures ApiKeys(servers + [Server(key, api)]) == ApiKeys(servers) + if api then [key] else []
    ensures key !in ApiKeys(servers)
  {
    ApiKeysConcat(servers, [Server(key, api)]);
    ApiKeysOne(Server(key, api));
    ApiKeysMembers(servers);
  }

  // ----- Turns -----

  /** One selection: the tied keys, in registration order, and which of them was served. */
  datatype Turn = Turn(tied: seq<Key>, index: nat)

  /** The indices served for one tie, whatever was served for others in between. */
  function Turns(log: seq<Turn>, tied: seq<Key>): seq<nat> {
    if log == [] then []
    else Turns(log[..|log| - 1], tied)
         + if log[|log| - 1].tied == tied then [log[|log| - 1].index] else []
  }

  function After(i: nat, count: nat): nat {
    if i + 1 < count then i + 1 else 0
  }

  /** Each turn of a tie serves the key after the one its last turn served. */
  predicate Rotates(turns: seq<nat>, k: nat) {
    && (forall i | 0 <= i < |turns| :: turns[i] < k)
    && (forall i | 0 < i < |turns| :: turns[i] == After(turns[i - 1], k))
  }

  ghost predicate PositionFollows(positions: map<seq<Key>, nat>, log: seq<Turn>, tied: seq<Key>) {
    var turns := Turns(log, tied);
    && Rotates(turns, |tied|)
    && (tied in positions <==> turns != [])
    && (tied in positions ==> positions[tied] == After(turns[|turns| - 1], |tied|))
  }

  ghost predicate PositionsFollow(positions: map<seq<Key>, nat>, log: seq<Turn>) {
    forall tied :: PositionFollows(positions, log, tied)
  }

  lemma TurnTaken(positions: map<seq<Key>, nat>, log: seq<Turn>, turn: Turn)
    requires PositionsFollow(positions, log) && turn.index < |turn.tied|
    requires turn.tied in positions ==> turn.index == positions[turn.tied]
    ensures PositionsFollow(positions[turn.tied := After(turn.index, |turn.tied|)], log + [turn])
  {
    var next := log + [turn];
    assert next[..|next| - 1] == log;
    forall tied: seq<Key> {:trigger Turns(next, tied)}
      ensures PositionFollows(positions[turn.tied := After(turn.index, |turn.tied|)], next, tied)
    {
      assert PositionFollows(positions, log, tied);
      assert Turns(next, tied) == Turns(log, tied) + if tied == turn.tied then [turn.index] else [];
    }
  }

  lemma {:induction false} TurnAt(turns: seq<nat>, k: nat, i: nat, d: nat)
    requires Rotates(turns, k) && i + d < |turns| && d <= k
    ensures turns[i + d] == if turns[i] + d < k then turns[i] + d else turns[i] + d - k
  {
    if d > 0 {
      TurnAt(turns, k, i, d - 1);
    }
  }

  /** Any `k` turns of a tie of `k` servers serve each of them exactly once. */
  lemma RoundServesEachOnce(turns: seq<nat>, k: nat, i: nat, index: nat) returns (d: nat)
    requires Rotates(turns, k) && i + k <= |turns| && index < k
    ensures i <= d < i + k && turns[d] == index
    ensures forall e | i <= e < i + k && turns[e] == index :: e == d
  {
    var first := turns[i];
    d := i + if index >= first then index - first else index + k - first;
    TurnAt(turns, k, i, d - i);
    forall e | i <= e < i + k && turns[e] == index
      ensures e == d
    {
      TurnAt(turns, k, i, e - i);
    }
  }

  lemma SmallMod(x: nat, k: nat)
    requires x <= k && k > 0
    ensures x % k == if x < k then x else 0
  {
  }

  // ----- Best fit -----

  /** No other offered server has a smaller tier, or the same tier and a smaller load. */
  ghost predicate Fits(keys: seq<Key>, offers: map<Key, Offer>, k: Key) {
    && k in keys && k in offers
    && forall m | m in keys && m in offers ::
         || offers[k].tierTokens < offers[m].tierTokens
         || (offers[k].tierTokens == offers[m].tierTokens && offers[k].load <= offers[m].load)
  }

  /** The keys that fit best, in the order of `some`. */
  ghost function Fitting(keys: seq<Key>, offers: map<Key, Offer>, some: seq<Key>): seq<Key> {
    if some == [] then []
    else Fitting(keys, offers, some[..|some| - 1])
         + if Fits(keys, offers, some[|some| - 1]) then [some[|some| - 1]] else []
  }

  lemma FitsIff(keys: seq<Key>, offers: map<Key, Offer>, best: Key, tier: nat, load: real)
    requires best in keys && best in offers && offers[best].tierTokens == tier && offers[best].load == load
    requires forall k | k in keys && k in offers :: tier <= offers[k].tierTokens
    requires forall k | k in keys && k in offers && offers[k].tierTokens == tier :: load <= offers[k].load
    ensures forall k | k in keys ::
              Fits(keys, offers, k) <==> k in offers && offers[k].tierTokens == tier && offers[k].load == load
  {
  }

  lemma {:induction false} NoFitting(keys: seq<Key>, offers: map<Key, Offer>, some: seq<Key>)
    requires forall k | k in some :: k !in offers
    ensures Fitting(keys, offers, some) == []
  {
    if some != [] {
      NoFitting(keys, offers, some[..|some| - 1]);
    }
  }

  lemma NoneFits(keys: seq<Key>, offers: map<Key, Offer>)
    requires forall k | k in keys :: k !in offers
    ensures forall k :: !Fits(keys, offers, k)
  {
  }

  /** How far position `i` is ahead of `next`, going round. */
  function Ahead(i: nat, next: nat, count: nat): int {
    if i >= next then i - next else i - next + count
  }

  lemma AheadIsMod(i: nat, next: nat, count: nat)
    requires i < count && next < count
    ensures (i as int - next as int) % count as int == Ahead(i, next, count)
  {
  }

  /** `selected` is the first in the cyclic order that fits best. */
  ghost predicate FirstFitting(keys: seq<Key>, next: nat, offers: map<Key, Offer>, selected: Key) {
    exists p ::
      && 0 <= p < |Cycle(keys, next)| && Cycle(keys, next)[p] == selected
      && forall q | 0 <= q < p :: !Fits(keys, offers, Cycle(keys, next)[q])
  }

  lemma LeastAheadIsFirst(keys: seq<Key>, next: nat, offers: map<Key, Offer>, i: nat)
    requires Distinct(keys) && next < |keys| && i < |keys|
    requires forall j: nat | j < |keys| && Fits(keys, offers, keys[j]) ::
               Ahead(i, next, |keys|) <= Ahead(j, next, |keys|)
    ensures FirstFitting(keys, next, offers, keys[i])
  {
    hide Fits;
    var cycle, p := Cycle(keys, next), Ahead(i, next, |keys|);
    assert cycle[p] == keys[i];
    forall q | 0 <= q < p
      ensures !Fits(keys, offers, cycle[q])
    {
      var j := if next + q < |keys| then next + q else next + q - |keys|;
      assert cycle[q] == keys[j] && Ahead(j, next, |keys|) == q;
    }
  }

  lemma LeastOfTied(keys: seq<Key>, next: nat, offers: map<Key, Offer>, indices: seq<nat>, turn: nat)
    requires Distinct(keys) && next < |keys| && turn < |indices|
    requires forall j | 0 <= j < |indices| :: indices[j] < |keys|
    requires forall i: nat | i < |keys| && Fits(keys, offers, keys[i]) :: i in indices
    requires forall j | 0 <= j < |indices| :: Ahead(indices[turn], next, |keys|) <= Ahead(indices[j], next, |keys|)
    ensures FirstFitting(keys, next, offers, keys[indices[turn]])
  {
    hide Fits, FirstFitting, Distinct, Ahead;
    LeastAheadIsFirst(keys, next, offers, indices[turn]);
  }

  lemma FreshTie(positions: map<seq<Key>, nat>, log: seq<Turn>, tied: seq<Key>)
    requires PositionsFollow(positions, log)
    ensures tied !in positions <==> Turns(log, tied) == []
  {
    assert PositionFollows(positions, log, tied);
  }

  /** With the index just behind the key at `i`, that key is the last in turn. */
  lemma ServedIsLast(keys: seq<Key>, i: nat)
    requires i < |keys|
    ensures var cycle := Cycle(keys, After(i, |keys|));
            |cycle| == |keys| && cycle[|keys| - 1] == keys[i]
  {
  }

  class Scheduler {
    const maxQueueDepth: nat
    const rounded: real -> real
    var servers: seq<Server>
    var nextIndex: nat
    var nextPositions: map<seq<Key>, nat>
    ghost var served: seq<Turn>

    ghost predicate Valid()
      reads this
    {
      && DistinctServers(servers)
      && (ApiKeys(servers) != [] ==> nextIndex < |ApiKeys(servers)|)
      && PositionsFollow(nextPositions, served)
    }

    /** The API v1 servers from the one that is next. */
    ghost function Order(): seq<Key>
      reads this
    {
      Cycle(ApiKeys(servers), nextIndex)
    }

    constructor (maxQueueDepth: nat, rounded: real -> real)
      ensures Valid() && servers == [] && served == []
      ensures this.maxQueueDepth == maxQueueDepth && this.rounded == rounded
    {
      this.maxQueueDepth, this.rounded := maxQueueDepth, rounded;
      servers, nextIndex, nextPositions, served := [], 0, map[], [];
    }

    /** Any |tied| turns of a tie, whatever happened in between, serve each of its servers once. */
    lemma TiesAreFair(tied: seq<Key>, i: nat, index: nat) returns (d: nat)
      requires Valid() && i + |tied| <= |Turns(served, tied)| && index < |tied|
      ensures i <= d < i + |tied| && Turns(served, tied)[d] == index
      ensures forall e | i <= e < i + |tied| && Turns(served, tied)[e] == index :: e == d
    {
      assert PositionFollows(nextPositions, served, tied);
      d := RoundServesEachOnce(Turns(served, tied), |tied|, i, index);
    }

    method Find(key: Key) returns (at: Option<nat>)
      ensures at.Some? ==> at.value < |servers| && servers[at.value].key == key
      ensures at.None? ==> forall i | 0 <= i < |servers| :: servers[i].key != key
    {
      for i := 0 to |servers|
        invariant forall j | 0 <= j < i :: servers[j].key != key
      {
        if servers[i].key == key {
          return Some(i);
        }
      }
      at := None;
    }

    /** Remove a server; the others keep their cyclic order and whoever of them was next. */
    method RemoveKnownServer(key: Key) returns (removed: bool)
      requires Valid()
      modifies `servers, `nextIndex
      ensures Valid()
      ensures removed <==> exists i :: 0 <= i < |old(servers)| && old(servers)[i].key == key
      ensures !removed ==> servers == old(servers) && nextIndex == old(nextIndex)
      ensures removed ==>
                exists i :: 0 <= i < |old(servers)| && old(servers)[i].key == key
                            && servers == WithoutServer(old(servers), i)
      ensures ApiKeys(servers) == Dropped(old(ApiKeys(servers)), key)
      ensures Order() == Dropped(old(Order()), key)
    {
      hide ApiKeys, DistinctServers, Dropped, Cycle, PositionsFollow;
      var at := Find(key);
      if at.None? {
        ApiKeysMembers(servers);
        KeysWithout(ApiKeys(servers), nextIndex, key);
        return false;
      }
      var i := at.value;
      ServerRemoved(servers, i, nextIndex);
      var count, api, removedPosition := |ApiKeys(servers)|, servers[i].api, |ApiKeys(servers[..i])|;
      servers := WithoutServer(servers, i);
      if api {
        SmallMod(nextIndex, count);
        var current := nextIndex % count;
        var remaining := count - 1;
        if remaining <= 0 {
          nextIndex := 0;
        } else if removedPosition < current {
          SmallMod(current - 1, remaining);
          nextIndex := (current - 1) % remaining;
        } else {
          SmallMod(current, remaining);
          nextIndex := current % remaining;
        }
      }
      removed := true;
    }

    /** Register an API v1 server: it comes last, unless it is registered already. */
    method RegisterApi(key: Key)
      requires Valid()
      modifies `servers, `nextIndex
      ensures Valid()
      ensures if key in old(ApiKeys(servers)) then servers == old(servers) && nextIndex == old(nextIndex)
              else ApiKeys(servers) == old(ApiKeys(servers)) + [key]
      ensures old(ApiKeys(servers)) != [] ==>
                nextIndex == old(nextIndex) && Order()[0] == old(Order())[0]
                && (key !in old(ApiKeys(servers)) ==> Dropped(Order(), key) == old(Order()))
      ensures old(ApiKeys(servers)) == [] ==> Order() == [key]
    {
      hide ApiKeys, DistinctServers, Dropped, PositionsFollow;
      var keys := ApiKeys(servers);
      ApiKeysMembers(servers);
      var at := Find(key);
      if at.Some? && servers[at.value].api {
        return;
      }
      if keys == [] {
        nextIndex := 0;
      }
      if at.Some? {
        ServerRemoved(servers, at.value, nextIndex);
        DistinctAround(servers, at.value);
        servers := WithoutServer(servers, at.value);
      }
      ServerAdded(servers, key, true);
      servers := servers + [Server(key, true)];
      if keys != [] {
        RegistrationKeepsCycle(keys, key, nextIndex);
      }
    }

    /** The deprecated registration adds a server that API v1 scheduling never sees. */
    method RegisterLegacy(key: Key)
      requires Valid()
      modifies `servers
      ensures Valid() && Order() == old(Order())
    {
      var at := Find(key);
      if at.None? {
        ApiKeysConcat(servers, [Server(key, false)]);
        servers := servers + [Server(key, false)];
      }
    }

    static method SmallestTier(keys: seq<Key>, offers: map<Key, Offer>) returns (tier: Option<nat>)
      ensures tier.None? <==> forall k | k in keys :: k !in offers
      ensures tier.Some? ==>
                && (exists k :: k in keys && k in offers && offers[k].tierTokens == tier.value)
                && (forall k | k in keys && k in offers :: tier.value <= offers[k].tierTokens)
    {
      tier := None;
      for i := 0 to |keys|
        invariant tier.None? <==> forall k | k in keys[..i] :: k !in offers
        invariant tier.Some? ==>
                    && (exists k :: k in keys[..i] && k in offers && offers[k].tierTokens == tier.value)
                    && (forall k | k in keys[..i] && k in offers :: tier.value <= offers[k].tierTokens)
      {
        var key := keys[i];
        assert keys[..i + 1] == keys[..i] + [key];
        if key in offers && (tier.None? || offers[key].tierTokens < tier.value) {
          tier := Some(offers[key].tierTokens);
        }
      }
      assert keys[..|keys|] == keys;
    }

    static method LeastLoaded(keys: seq<Key>, offers: map<Key, Offer>, tier: nat) returns (best: Key)
      requires exists k :: k in keys && k in offers && offers[k].tierTokens == tier
      ensures best in keys && best in offers && offers[best].tierTokens == tier
      ensures forall k | k in keys && k in offers && offers[k].tierTokens == tier :: offers[best].load <= offers[k].load
    {
      var least: Option<Key> := None;
      for i := 0 to |keys|
        invariant least.None? ==> forall k | k in keys[..i] && k in offers :: offers[k].tierTokens != tier
        invariant least.Some? ==>
                    && least.value in keys && least.value in offers && offers[least.value].tierTokens == tier
                    && forall k | k in keys[..i] && k in offers && offers[k].tierTokens == tier ::
                         offers[least.value].load <= offers[k].load
      {
        var key := keys[i];
        assert keys[..i + 1] == keys[..i] + [key];
        if && key in offers && offers[key].tierTokens == tier
           && (least.None? || offers[key].load < offers[least.value].load)
        {
          least := Some(key);
        }
      }
      assert keys[..|keys|] == keys;
      best := least.value;
    }

    /** The tier and load that the best fitting servers share. */
    static method BestOffer(keys: seq<Key>, offers: map<Key, Offer>) returns (best: Option<Offer>)
      ensures best.None? <==> forall k | k in keys :: k !in offers
      ensures best.Some? ==>
                && (exists k :: k in keys && Fits(keys, offers, k))
                && forall k | k in keys ::
                     Fits(keys, offers, k)
                     <==> k in offers && offers[k].tierTokens == best.value.tierTokens && offers[k].load == best.value.load
    {
      var tier := SmallestTier(keys, offers);
      if tier.None? {
        return None;
      }
      var key := LeastLoaded(keys, offers, tier.value);
      FitsIff(keys, offers, key, tier.value, offers[key].load);
      best := Some(offers[key]);
    }

    /** The best fitting servers with their positions, in registration order. */
    static method BestFits(keys: seq<Key>, offers: map<Key, Offer>) returns (indices: seq<nat>, tied: seq<Key>)
      ensures tied == Fitting(keys, offers, keys) && |indices| == |tied|
      ensures tied == [] <==> forall k | k in keys :: k !in offers
      ensures forall j | 0 <= j < |indices| ::
                indices[j] < |keys| && tied[j] == keys[indices[j]] && Fits(keys, offers, keys[indices[j]])
      ensures forall i: nat | i < |keys| && Fits(keys, offers, keys[i]) :: i in indices
    {
      hide Fits;
      var best := BestOffer(keys, offers);
      indices, tied := [], [];
      if best.None? {
        NoFitting(keys, offers, keys);
        NoneFits(keys, offers);
        return;
      }
      for i := 0 to |keys|
        invariant tied == Fitting(keys, offers, keys[..i]) && |indices| == |tied|
        invariant forall j | 0 <= j < |indices| ::
                    indices[j] < i && tied[j] == keys[indices[j]] && Fits(keys, offers, keys[indices[j]])
        invariant forall m: nat | m < i && Fits(keys, offers, keys[m]) :: m in indices
      {
        assert keys[..i + 1][..i] == keys[..i];
        var key := keys[i];
        if key in offers && offers[key].tierTokens == best.value.tierTokens && offers[key].load == best.value.load {
          indices, tied := indices + [i], tied + [key];
        }
      }
      assert keys[..|keys|] == keys;
    }

    /** Which of the tied servers to serve: the next of the tie, at first the next of all. */
    method TurnOf(indices: seq<nat>, tied: seq<Key>, count: nat) returns (turn: nat)
      requires Valid() && tied != [] && |indices| == |tied| && nextIndex < count
      requires forall j | 0 <= j < |indices| :: indices[j] < count
      ensures turn < |tied|
      ensures tied in nextPositions ==> turn == nextPositions[tied]
      ensures tied !in nextPositions ==>
                forall j | 0 <= j < |indices| :: Ahead(indices[turn], nextIndex, count) <= Ahead(indices[j], nextIndex, count)
    {
      if tied in nextPositions {
        assert PositionFollows(nextPositions, served, tied);
        SmallMod(nextPositions[tied], |tied|);
        return nextPositions[tied] % |tied|;
      }
      hide PositionsFollow;
      SmallMod(nextIndex, count);
      var current := nextIndex % count;
      turn := 0;
      for j := 1 to |indices|
        invariant turn < |tied|
        invariant forall m | 0 <= m < j :: Ahead(indices[turn], current, count) <= Ahead(indices[m], current, count)
      {
        AheadIsMod(indices[j], current, count);
        AheadIsMod(indices[turn], current, count);
        if (indices[j] - current) % count < (indices[turn] - current) % count {
          turn := j;
        }
      }
    }

    /** Whether this server may be offered the request, and with what. */
    method Candidate(r: Report, model: Option<ModelId>, wanted: Tier) returns (offer: Option<Offer>)
      ensures offer.Some? <==> Suits(r, model, wanted) && HasCapacity(r, maxQueueDepth)
      ensures offer.Some? ==> offer.value == Offer(r.TierTokens(), LoadScore(r, rounded))
    {
      if r.unavailable || r.stale || !r.apiV1 {
        return None;
      }
      if r.tier.None? || r.tier.value.Tokens() < wanted.Tokens() {
        return None;
      }
      if r.models == {} || (model.Some? && model.value !in r.models) {
        return None;
      }
      if r.contextTokens.None? || r.contextTokens.value < r.tier.value.Tokens() {
        return None;
      }
      if r.inFlight >= r.Concurrency() || r.queueDepth >= maxQueueDepth {
        return None;
      }
      offer := Some(Offer(r.TierTokens(), LoadScore(r, rounded)));
    }

    /** The offers of all API v1 servers that can take the request. */
    ghost function OffersFor(reports: map<Key, Report>, model: Option<ModelId>, wanted: Tier): map<Key, Offer>
      reads this
    {
      map k | k in reports && k in ApiKeys(servers) && Suits(reports[k], model, wanted) && HasCapacity(reports[k], maxQueueDepth)
        :: Offer(reports[k].TierTokens(), LoadScore(reports[k], rounded))
    }

    /** A best fitting server is up, serves model and tier, has capacity, and no other such server is smaller or, of its tier, less loaded. */
    lemma BestFitServes(reports: map<Key, Report>, model: Option<ModelId>, wanted: Tier, k: Key)
      requires Fits(ApiKeys(servers), OffersFor(reports, model, wanted), k)
      ensures k in ApiKeys(servers) && k in reports
      ensures var r := reports[k];
              && !r.unavailable && !r.stale && r.apiV1 && (model.Some? ==> model.value in r.models)
              && r.tier.Some? && wanted.Tokens() <= r.tier.value.Tokens()
              && r.contextTokens.Some? && r.tier.value.Tokens() <= r.contextTokens.value
              && r.inFlight < r.Concurrency() && r.queueDepth < maxQueueDepth
      ensures forall m | m in ApiKeys(servers) && m in reports && Suits(reports[m], model, wanted)
                         && HasCapacity(reports[m], maxQueueDepth) ::
                var r, other := reports[k], reports[m];
                || r.tier.value.Tokens() < other.tier.value.Tokens()
                || (&& r.tier == other.tier
                    && rounded((r.queueDepth + r.inFlight) as real / r.Concurrency() as real)
                         <= rounded((other.queueDepth + other.inFlight) as real / other.Concurrency() as real))
    {
      forall m | m in ApiKeys(servers) && m in reports && Suits(reports[m], model, wanted)
                 && HasCapacity(reports[m], maxQueueDepth)
        ensures m in OffersFor(reports, model, wanted)
        ensures OffersFor(reports, model, wanted)[m] == Offer(reports[m].TierTokens(), LoadScore(reports[m], rounded))
      {
      }
      assert forall a: Tier, b: Tier :: a.Tokens() == b.Tokens() ==> a == b;
    }

    method CollectOffers(reports: map<Key, Report>, model: Option<ModelId>, wanted: Tier) returns (offers: map<Key, Offer>)
      ensures offers == OffersFor(reports, model, wanted)
    {
      hide ApiKeys, Suits, HasCapacity, LoadScore;
      var keys := ApiKeys(servers);
      offers := map[];
      for i := 0 to |keys|
        invariant offers == map k | k in reports && k in keys[..i] && Suits(reports[k], model, wanted)
                                    && HasCapacity(reports[k], maxQueueDepth)
                              :: Offer(reports[k].TierTokens(), LoadScore(reports[k], rounded))
      {
        assert keys[..i + 1] == keys[..i] + [keys[i]];
        if keys[i] in reports {
          var offer := Candidate(reports[keys[i]], model, wanted);
          if offer.Some? {
            offers := offers[keys[i] := offer.value];
          }
        }
      }
      assert keys[..|keys|] == keys;
    }

    /**
      Choose a server for a request among those that suit it and have capacity: a best fitting one,
      its tie's next turn, or at the tie's first turn the first fitting one in cyclic order.
    */
    method SelectBestFit(reports: map<Key, Report>, model: Option<ModelId>, wanted: Tier) returns (selected: Option<Key>)
      requires Valid()
      modifies `nextIndex, `nextPositions, `served
      ensures Valid()
      ensures selected.None? <==>
                forall k | k in ApiKeys(servers) && k in reports ::
                  !(Suits(reports[k], model, wanted) && HasCapacity(reports[k], maxQueueDepth))
      ensures selected.None? ==> nextIndex == old(nextIndex) && nextPositions == old(nextPositions) && served == old(served)
      ensures selected.Some? ==>
                var keys, offers := ApiKeys(servers), OffersFor(reports, model, wanted);
                var tied := Fitting(keys, offers, keys);
                && Fits(keys, offers, selected.value)
                && |served| == |old(served)| + 1 && old(served) <= served
                && served[|old(served)|].tied == tied
                && served[|old(served)|].index < |tied| && tied[served[|old(served)|].index] == selected.value
                && (Turns(old(served), tied) == [] ==> FirstFitting(keys, old(nextIndex), offers, selected.value))
                && Order()[|keys| - 1] == selected.value
    {
      hide Valid, Fits, Suits, HasCapacity, LoadScore, ApiKeys, Cycle, Turns, Fitting, FirstFitting;
      var offers := CollectOffers(reports, model, wanted);
      selected := ServeBestFit(offers);
    }

    /**
      Serve a best fitting server: the next turn of its tie, or at the first turn the first fitting
      one in cyclic order; the served one then comes last in that order.
    */
    method ServeBestFit(offers: map<Key, Offer>) returns (selected: Option<Key>)
      requires Valid()
      modifies `nextIndex, `nextPositions, `served
      ensures Valid()
      ensures selected.None? <==> forall k | k in ApiKeys(servers) :: k !in offers
      ensures selected.None? ==> nextIndex == old(nextIndex) && nextPositions == old(nextPositions) && served == old(served)
      ensures selected.Some? ==>
                var keys := ApiKeys(servers);
                var tied := Fitting(keys, offers, keys);
                && Fits(keys, offers, selected.value)
                && |served| == |old(served)| + 1 && old(served) <= served
                && served[|old(served)|].tied == tied
                && served[|old(served)|].index < |tied| && tied[served[|old(served)|].index] == selected.value
                && (Turns(old(served), tied) == [] ==> FirstFitting(keys, old(nextIndex), offers, selected.value))
                && Order()[|keys| - 1] == selected.value
    {
      hide Fits, ApiKeys, DistinctServers, PositionsFollow, Cycle, Turns, Fitting, FirstFitting, Distinct;
      var keys := ApiKeys(servers);
      ApiKeysDistinct(servers);
      var indices, tied := BestFits(keys, offers);
      if tied == [] {
        return None;
      }
      FreshTie(nextPositions, served, tied);
      var turn := TurnOf(indices, tied, |keys|);
      var at := indices[turn];
      if tied !in nextPositions {
        LeastOfTied(keys, nextIndex, offers, indices, turn);
      }
      Serve(tied, turn, at, |keys|);
      ServedIsLast(keys, at);
      selected := Some(keys[at]);
    }

    method Serve(tied: seq<Key>, turn: nat, at: nat, count: nat)
      requires turn < |tied| && at < count && PositionsFollow(nextPositions, served)
      requires tied in nextPositions ==> turn == nextPositions[tied]
      modifies `nextIndex, `nextPositions, `served
      ensures nextIndex == After(at, count) && PositionsFollow(nextPositions, served)
      ensures served == old(served) + [Turn(tied, turn)]
    {
      hide PositionsFollow;
      TurnTaken(nextPositions, served, Turn(tied, turn));
      SmallMod(turn + 1, |tied|);
      SmallMod(at + 1, count);
      nextPositions := nextPositions[tied := (turn + 1) % |tied|];
      nextIndex := (at + 1) % count;
      served := served + [Turn(tied, turn)];
    }
  }
}
