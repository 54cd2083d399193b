# Relay coordination: a verified model

The relay hands encrypted requests to compute nodes and their encrypted responses back to clients
without reading either. This project models the parts of it that coordinate, and proves what they
promise over every run and every interleaving:

* **The in-memory relay state store** (`relay_state_store.py`). `RelayStateStore.dfy` holds the
  class with the store's dictionaries as fields and one method per public operation. A ghost run
  records every change as one `Event`; `Valid()` says that the fields are exactly what that run
  leaves. So what is proved of all runs holds of every store. The specification is in
  `StoreState.dfy` (state, events, guards), `StoreCalls.dfy` (what each call decides) and
  `StoreDrain.dfy` (node teardown); the representation invariant in `StoreInvariant.dfy`; properties
  of whole runs in `StoreRuns.dfy`, `StoreRefinement.dfy`, `StoreClock.dfy` and
  `StoreScheduler.dfy`; what housekeeping keeps in `StoreHousekeeping.dfy`, when overdue work
  expires in `StoreDeadlines.dfy`, and which outcomes a call reports in `StoreReports.dfy`. What the
  answers are worth is in `StoreAnswers.dfy`; which secret opens what, and what is told of requests
  and nodes that are over, in `StoreSecrets.dfy`; which node a request goes to, told by the history of
  events alone, in `StoreOffers.dfy`; that nothing is refused or removed but for its reason in
  `StoreGuards.dfy`.
  `StoreLimits.dfy` states promises that fail, with their exact conditions; `StoreScenarios.dfy` and
  `StoreTurns.dfy` have the runs that show it. `StoreEvents.dfy` only helps the class.
* **The wired relay's round-robin scheduler** (`relay.py`), in `RelayRoundRobin.dfy`.
* **The wired relay's lock-protected request lifecycle** (`relay.py`), in `RelayRaces.dfy`: every
  interleaving of the steps of enqueueing, polling, cancelling, expiring, posting and retrieving.
  `RelayOutcomes.dfy` says what a cancellation or posting has achieved when it frees the lock.
* **The browser client's failover loop** (`static/chat.js`), in `ChatFailover.dfy`, against an
  environment that may answer anything. A ghost trace holds the requests sent and the servers and
  node counts received; which acts may follow one another, and when the client may stop, is stated on
  the trace.
* **Encrypted streaming and PKCS#7 padding** (`encrypt.py`), in `StreamSession.dfy` and `Pkcs7.dfy`.

`dafny verify dfyconfig.toml` checks the whole project.

## How the store is modelled

Every public method of the store runs under one lock, so a call is one atomic action: a series of
housekeeping events at one reading of the clock, then at most one event of its own (a node
transition: one batch). The clock reading is the parameter `now`; fresh secrets are parameters.
Digests are injective, so a digest stands for what it hides, an absent digest is `None`, and a
malformed token is `None` (or `Malformed` for an acknowledgement). Node identifiers are ordered
numbers in place of sorted strings.

Each public method returns, as ghost results, the run `tidy` where housekeeping ended. Its
contract says that only housekeeping happened up to there, that `tidy` is settled (or stuck because
a lapsed node cannot be torn down for lack of room, in which case the call raises and `Valid()`
still holds), and that the answer and the events from there on are those of the call's decision
function on the settled state, and that without a successful answer nothing has changed since.

The representation invariant needs no assumption on the clock. The bounds on live claims, the
meaning of the deferred set and the time a removed owner stays fenced need a clock that does not
run backwards (`StoreClock.dfy`).

A counter of arrivals stands for the insertion order of the dictionaries that the original walks
in it: the work of a node, and the reservations.

Some promises one might expect of the store do not hold, and the project says exactly how far they
do. Each has a run that shows it.

* A node's load exceeds its concurrency only through its own renewal or report.
* Overdue work that a settled call still holds had no room at its turn and cannot expire in that
  call. It expires in a later one once room for its records is back, unless its requester cancels it
  first, or its node is torn down by a call that does not work off deadlines. Housekeeping that does
  work them off never tears down overdue work: where a teardown has room, so has the expiry.
* A pending transition may run out of work before its next call.
* A call reports its own outcomes, not those of its housekeeping. What housekeeping concludes is
  decided by the state before the call: something, exactly if after reaping some overdue request has
  room to expire, or the sweep over lapsed nodes comes to one whose first request has room to be torn
  down, or, for `expire`, the first pending transition that the sweep did not start has such a
  request. In every other case the outcomes concluded in the call are those it reports.

In the client, the one retry with a larger context asks for any server again and may be given one
that has failed; only failovers never go back, which is what `ChatFailover.FailoversAvoid` says.

## Model

| member | source | states |
|---|---|---|
| StoreInvariant.EventInv | relay_state_store.py:890-918 | every atomic change, housekeeping and raising calls included, keeps the representation invariant: disjoint lifecycles, indexes and queues that agree with them, claims that agree with their work and owner, records, tombstones, fences, cursors and all capacity bounds |
| StoreInvariant.InitInv | relay_state_store.py:876-919 | the empty store satisfies the invariant |
| StoreInvariant.RemovedInv | relay_state_store.py:2250-2273 | taking one identity out of every index of live work keeps indexes, queues, claims and bounds in agreement |
| StoreInvariant.TerminalizeInv | relay_state_store.py:1841-1918 | recording an outcome keeps the invariant whenever the capacity checks pass |
| StoreInvariant.AcceptInv | relay_state_store.py:1637-1688 | completing a claim keeps the invariant: response and ready record appear together, all work indexes let go together |
| StoreInvariant.ReapInv | relay_state_store.py:2211-2248 | dropping expired records keeps the nesting of responses and tombstones in terminal records, and every pending transition's fence |
| StoreInvariant.StartTransitionInv | relay_state_store.py:1983-2039 | starting a teardown moves the owner from registered to fenced and pending, drops the node's cursors and keeps every bound |
| StoreInvariant.CompleteTransitionInv | relay_state_store.py:2094-2113 | completing a teardown leaves no claim or work without an owner |
| StoreInvariant.LiveIsNotOver | relay_state_store.py:1841-1899 | live work never has a terminal record, so recording an outcome never overwrites one |
| StoreRuns.RunInv | relay_state_store.py:890-918 | every state of every run satisfies the invariant |
| StoreRuns.Fencing | relay_state_store.py:1384-1540 | once a claim is superseded, concluded, or its node removed, no later renewal or accepted response carries its generation, whatever identity or node name is reused |
| StoreRuns.GenerationsIncrease | relay_state_store.py:1418-1441 | later claims have strictly larger generations, over all requests and nodes |
| StoreRuns.ClaimHasIssuer | relay_state_store.py:1400-1441 | every claim goes back to one claim event for the same request, node and consumer |
| StoreRuns.ExercisedByItsOwner | relay_state_store.py:1511-1540 | a renewal or response succeeds only for the request, node and consumer its generation was issued to, while that owner is registered |
| StoreRuns.OwnerUntilRemoved | relay_state_store.py:949-972 | a registered node keeps its owner and its place in the order until a transition removes it |
| StoreRuns.LapsesOnlyAfterLease | relay_state_store.py:984-1001 | a node is removed as lapsed only a full lease after its last registration or renewal |
| StoreRuns.SchedulerStateIsLastReport | relay_state_store.py:1050-1064 | the scheduler goes by what a node last reported since it registered, or by the initial healthy and idle state |
| StoreRuns.RecordsAreFinal | relay_state_store.py:1892-1893 | a terminal record never changes its outcome; its retrieval state moves only from ready to acknowledged or expired; it goes only when its retention has elapsed |
| StoreRuns.LeavesOnlyWithRecord | relay_state_store.py:1892-1909 | work stops being live only in the step that records its outcome, or as a lapsed reservation; queued work only with a record |
| StoreRuns.BecomesLiveByReserving | relay_state_store.py:1224-1228 | only a reservation of an identity without a terminal record makes it live |
| StoreRuns.RecordStays | relay_state_store.py:2223-2225 | a record is retained unchanged until a reap at or after its expiry |
| StoreRuns.OneOutcomePerLifecycle | relay_state_store.py:1786-1819 | between two conclusions of one identity the first record's retention elapsed and was reaped, and the identity was reserved afresh |
| StoreRuns.Conservation | relay_state_store.py:1329-1349 | over any run, requests enqueued are those still queued plus those concluded from the queue |
| StoreRefinement.Refinement | relay_state_store.py:1066-1349 | each event does to the one map from identity to phase (reserved, queued, claimed, over) exactly what the abstract lifecycle allows |
| StoreRefinement.RunRefines | relay_state_store.py:2168-2209 | every step of every run of the many-map store is a step of the one-map lifecycle |
| StoreClock.ClockHolds | relay_state_store.py:2127-2209 | with a clock that does not run backwards, live claims respect both bounds at every moment, renewals included, and deferred identities are live overdue work |
| StoreClock.LiveStep | relay_state_store.py:1400-1440 | no change raises the number of live claims past either bound; a renewal takes no new place |
| StoreClock.ServedBeforeDeadline | relay_state_store.py:1257-1260 | nothing is enqueued, claimed, renewed or completed at or after its deadline |
| StoreClock.FormerOwnerIsFenced | relay_state_store.py:946-956 | an owner whose node was removed registers it again only after a reap past the fence's retention |
| StoreScheduler.SelectionIsUnique | relay_state_store.py:1190-1207 | tier, load, registration order and cursor leave no freedom: the state determines the node |
| StoreScheduler.SelectionExistsIff | relay_state_store.py:1158-1189 | a node is found exactly when some registered node is eligible |
| StoreScheduler.RoundVisitsEachOnce | relay_state_store.py:1195-1206 | taking turns from the cursor among k tied nodes visits each once in k turns |
| StoreScheduler.FairRounds | relay_state_store.py:1195-1230 | over runs, k selections for one fingerprint among the same k tied nodes serve each node exactly once, if between them no tied node is removed, nothing else is selected for the fingerprint and its cursor is not evicted; anything else may happen, other nodes may come and go |
| StoreTurns.ReregistrationSkips | relay_state_store.py:2025-2032 | that condition cannot be weakened to the same nodes being tied again: a run in which, among the same three tied nodes, turns go to 2, to 3, and, after only 2 was removed and has registered again, to 2, while 1 waits |
| StoreScheduler.PlacesDecide | relay_state_store.py:1195-1207 | who is next depends on the places of the tied nodes alone, not on the rest of the registration order |
| StoreScheduler.ActiveCursorStays | relay_state_store.py:2299-2331 | a cursor with live work is dropped only when its node is removed, never by eviction |
| StoreCalls.SelectRetry | relay_state_store.py:1107-1141 | an exact retry of a selection, at any later moment of the lifecycle, names the same node, reveals no second token and changes nothing |
| StoreCalls.EnqueueRetry | relay_state_store.py:1263-1292 | an exact retry of an enqueue reports the original place in the queue and changes nothing |
| StoreCalls.EnqueueEnabled | relay_state_store.py:1293-1349 | a new enqueue removes the reservation, appends exactly one entry with both token digests to its own node's queue, and changes nothing else |
| StoreCalls.QueueDepthNeverRefuses | relay_state_store.py:1316-1320 | a reservation keeps its place: the queue-depth refusal inside enqueue is unreachable |
| StoreCalls.ClaimsAreFifo | relay_state_store.py:1407-1451 | the granted request is the earliest on the node that is before its deadline and under no live lease; empty means there is none; a refusal means there is one but no room |
| StoreCalls.FirstClaimableIsEarliest | relay_state_store.py:1407-1417 | scanning the queue in order finds the claimable entry with the smallest sequence |
| StoreCalls.ContinuedIff | relay_state_store.py:1511-1540 | a renewal continues a claim exactly when its own consumer, node and owner ask with its generation while it is live |
| StoreCalls.StopIff | relay_state_store.py:1488-1510 | the stop instruction is read exactly by the node, owner, consumer and generation in the terminal record, with that record's outcome; it is acknowledged at most once |
| StoreCalls.AcknowledgedForGood | relay_state_store.py:1501-1510 | an acknowledged stop instruction stays acknowledged until it is reaped |
| StoreCalls.TombstonesNeverMaskWork | relay_state_store.py:1488-1510 | while a tombstone is readable its request is over, unclaimed, and its record agrees with it |
| StoreCalls.NewOutcomeIff | relay_state_store.py:1589-1689 | a response is a new outcome exactly when it comes from the holder of the live claim with that generation and there is room |
| StoreCalls.ClaimedIsQueuedOnItsNode | relay_state_store.py:1627-1636 | the identity conflict checked after the claim is unreachable: claimed work is queued on its node with both tokens |
| StoreCalls.AcceptRetry | relay_state_store.py:1590-1607 | an exact retry of an accepted response gets the original answer and no second outcome while the record is retained, even after its node is gone |
| StoreCalls.ReadyHasResponse | relay_state_store.py:1724-1730 | stored responses exist exactly for ready records, so the repair of a missing response is dead code |
| StoreCalls.RetrievalServes | relay_state_store.py:1711-1754 | the envelope is served exactly while the record is ready; the issued token acknowledges it and no other token does |
| StoreCalls.RetrievalOverTime | relay_state_store.py:1680-1689 | until the record leaves the ready state every authenticated retrieval returns the same envelope, token and expiry; afterwards never again |
| StoreCalls.ConclusionTellsOwner | relay_state_store.py:1841-1918 | cancelling, expiring or tearing down leaves a stop instruction exactly for the consumer that may still be computing, and the terminal record names that owner or none |
| StoreDrain.NothingToSkip | relay_state_store.py:2062-2075 | every item of a batch is live work of its node without a record, so the skipping branches are unreachable |
| StoreDrain.BatchTornDown | relay_state_store.py:2058-2093 | with room, a whole batch is torn down and recorded as cancelled by unregistration, and nothing else moves: every other request, claim, queue entry, response, record and stop instruction, the fleet and the cursors are as before |
| StoreDrain.TransitionReport | relay_state_store.py:2058-2125 | each processed item is one outcome, reserved or queued; a transition that does not continue has left the node without registration or work and its owner fenced for the full retention |
| StoreDrain.PendingOnlyDrains | relay_state_store.py:939-940 | while a transition is pending its node is unregistered, cannot register, and gets no new work |
| StoreDrain.SweepProgress | relay_state_store.py:2145-2166 | with room and no lapsed lease, a sweep strictly decreases remaining items plus pending transitions |
| StoreDrain.DrainFinishes | relay_state_store.py:1018-1024 | that many sweeps complete every transition, and every drained item has had its terminal record |
| StoreHousekeeping.HousekeepingKeeps | relay_state_store.py:2168-2209 | later housekeeping of the same call undoes nothing: expired records stay away, leases stay live, overdue work stays concluded or blocked, lapsed reservations stay gone |
| StoreHousekeeping.RoomOnlyShrinks | relay_state_store.py:1855-1873 | as records and tombstones accumulate, whatever had no room still has none |
| StoreHousekeeping.LapsedCall | relay_state_store.py:2132-2146 | a lapsed node is removed, or the call raises for lack of room and changes nothing |
| StoreHousekeeping.PendingCall | relay_state_store.py:2147-2166 | continuing a pending transition with its own cause and owner never raises and is a sweep |
| StoreHousekeeping.DueStep | relay_state_store.py:2175-2199 | concluding or deferring one overdue item leaves exactly the other overdue items to do |
| StoreHousekeeping.CallDone | relay_state_store.py:1095-1156 | a call whose decision has no events leaves the state as housekeeping left it, and every call keeps the recorded clock running forwards |
| RelayStateStore.InMemoryRelayStateStore.constructor | relay_state_store.py:876-919 | a new store is empty with an empty history |
| RelayStateStore.InMemoryRelayStateStore.ReapRetained | relay_state_store.py:2211-2248 | the five reaping loops perform one reap; nothing kept has outlived its retention afterwards |
| RelayStateStore.InMemoryRelayStateStore.TerminalizeLocked | relay_state_store.py:1841-1918 | records the outcome and removes the work from every map, or, without room, changes nothing |
| RelayStateStore.InMemoryRelayStateStore.RemoveQueuedIdentity | relay_state_store.py:2260-2273 | one queued identity leaves queue, maps, claim and index together |
| RelayStateStore.InMemoryRelayStateStore.TransitionGate | relay_state_store.py:1927-2019 | the refusals and idle answers of a transition call, in the code's order |
| RelayStateStore.InMemoryRelayStateStore.LatestAuthority | relay_state_store.py:1951-1971 | finds the most recent retained fence that matches, or shows there is none |
| RelayStateStore.InMemoryRelayStateStore.ChooseBatch | relay_state_store.py:2058-2059 | a batch is as much of the node's work as the bound allows, the earliest arrived first, each item once |
| RelayStateStore.InMemoryRelayStateStore.TeardownBatch | relay_state_store.py:2060-2093 | the batch is worked off in order until an item finds no room, with exact counts of what it was |
| RelayStateStore.InMemoryRelayStateStore.TransitionNodeLocked | relay_state_store.py:1920-2125 | the call ends at the gate without any change, or starts if needed, works off one batch and completes if nothing is left, and reports exactly that |
| RelayStateStore.InMemoryRelayStateStore.ExpireLocked | relay_state_store.py:2127-2166 | removes lapsed nodes in order and continues one transition; on success every registered lease is live; raising part-way leaves a valid store; requests are concluded exactly if the state before says so |
| RelayStateStore.InMemoryRelayStateStore.ConcludeDue | relay_state_store.py:2174-2199 | exactly the overdue work is worked off, reservations first as they arrived, then queued requests as they were enqueued; afterwards what is still overdue is deferred because its expiry has no room; something expires exactly if something overdue had room before |
| RelayStateStore.InMemoryRelayStateStore.ReapLocked | relay_state_store.py:2168-2209 | on normal return the store is settled: records current, leases live, overdue work held only where its expiry has no room, lapsed reservations gone; overdue work was ended by expiring it only, and all of it if there was room for all; requests were concluded exactly if the state before says so |
| RelayStateStore.InMemoryRelayStateStore.Register | relay_state_store.py:924-973 | answers and changes the store as the registration decision says on the tidied state; if it raises, nothing has changed since tidying; it concludes no request unless a lapsed node has work with room |
| RelayStateStore.InMemoryRelayStateStore.Renew | relay_state_store.py:975-1002 | answers and changes the store as the renewal decision says on the tidied state; for an unknown node or another owner nothing has changed since tidying; it concludes no request unless a lapsed node has work with room |
| RelayStateStore.InMemoryRelayStateStore.SetSchedulerState | relay_state_store.py:1050-1064 | answers and changes the store as decided on the tidied state; for an unknown node or another owner nothing has changed since tidying; it concludes no request unless a lapsed node has work with room |
| RelayStateStore.InMemoryRelayStateStore.Expire | relay_state_store.py:1018-1024 | returns the removed registrations; with no lapsed lease it is one sweep; it concludes requests, and reports none of them, exactly if a lapsed node or the first pending one has work with room |
| RelayStateStore.InMemoryRelayStateStore.UnregisterNodeAndTransitionWork | relay_state_store.py:1031-1048 | one reap, then one transition call with its exact events and report; it reports every request that it concludes |
| RelayStateStore.InMemoryRelayStateStore.Least | relay_state_store.py:1190-1196 | the nodes with the smallest key |
| RelayStateStore.InMemoryRelayStateStore.FirstAfter | relay_state_store.py:1197-1207 | the first tied node after the cursor in registration order, or the first of all |
| RelayStateStore.InMemoryRelayStateStore.SelectNode | relay_state_store.py:1158-1208 | the selected node is eligible, minimal in tier and load, and next in turn; none is selected only if none is eligible |
| RelayStateStore.InMemoryRelayStateStore.CursorEvictionCandidate | relay_state_store.py:2312-2331 | the evicted cursor is the idlest one without live work; there is no room only if all are in use |
| RelayStateStore.InMemoryRelayStateStore.SelectAndReserve | relay_state_store.py:1066-1231 | answers a known request without change, or reserves on the selected node, or finds no capacity; unless it creates a reservation nothing has changed since settling; requests end unreported in it exactly if its housekeeping has something to conclude; a new reservation is on the node whose turn it is by the history |
| RelayStateStore.InMemoryRelayStateStore.EnqueueEncryptedRequest | relay_state_store.py:1233-1349 | answers and changes the store as the enqueue decision says on the settled state; unless it creates a queue entry nothing has changed since settling; requests end unreported in it exactly if its housekeeping has something to conclude |
| RelayStateStore.InMemoryRelayStateStore.ScanQueue | relay_state_store.py:1407-1417 | the loop finds the first claimable entry of the queue |
| RelayStateStore.InMemoryRelayStateStore.ClaimQueuedRequest | relay_state_store.py:1384-1451 | answers and changes the store as the claim decision says on the settled state; unless it grants a claim nothing has changed since settling; requests end unreported in it exactly if its housekeeping has something to conclude; a granted answer is the claim that the store then holds |
| RelayStateStore.InMemoryRelayStateStore.RenewClaimOrReadControl | relay_state_store.py:1471-1540 | answers and changes the store as the renewal decision says on the settled state; a mismatch, a stale generation, a missing claim or an unacknowledged reading change nothing; requests end unreported in it exactly if its housekeeping has something to conclude |
| RelayStateStore.InMemoryRelayStateStore.AcceptEncryptedResponse | relay_state_store.py:1556-1689 | answers and changes the store as the acceptance decision says on the settled state; unless the outcome is new nothing has changed since settling; the outcomes concluded in the call are the one it reports as new, or none, exactly if its housekeeping has nothing to conclude |
| RelayStateStore.InMemoryRelayStateStore.RetrieveEncryptedResponse | relay_state_store.py:1691-1754 | answers and changes the store as the retrieval decision says on the settled state; only an acknowledgement changes anything; requests end unreported in it exactly if its housekeeping has something to conclude |
| RelayStateStore.InMemoryRelayStateStore.CancelOrExpireRequest | relay_state_store.py:1764-1819 | answers and changes the store as the cancellation decision says on the settled state; a missing proof, an active deadline, a retry or a lack of room change nothing; the outcomes concluded in the call are the one it reports as new, or none, exactly if its housekeeping has nothing to conclude |
| RelayStateStore.InMemoryRelayStateStore.ClockReaches | relay_state_store.py:2547-2555 | a store whose calls came at moments that never run backwards respects both bounds on live claims, and defers only overdue live work |
| StoreLimits.LoadStep | relay_state_store.py:1176-1187 | a registered node's load stays within its concurrency through every event except, exactly, its own renewal with less concurrency than its load and its own report of more claimed work than fits |
| StoreLimits.LoadBounded | relay_state_store.py:1176-1187 | so over any stretch of a run without those two calls the load stays within bounds; a node starts with none |
| StoreScenarios.LoadMayExceed | relay_state_store.py:990-1001 | a run after which either of the two calls puts the load above the concurrency |
| StoreLimits.OverdueRoom | relay_state_store.py:1841-1873 | cancelling overdue work needs room for its record only; expiring it also needs room for a stop instruction if its claim ran to the deadline |
| StoreLimits.OverdueVerdict | relay_state_store.py:2174-2199 | overdue work never completes; its record says expired exactly when an expiry ended it, and cancelled when its requester or a teardown did |
| StoreLimits.OverdueCancelledIff | relay_state_store.py:1786-1819 | once a call has settled the store, the requester can still cancel overdue work exactly when its record has room; then its stop instruction has none and none is left, and asking to expire it raises |
| StoreScenarios.OverdueMayEndCancelled | relay_state_store.py:2193-2199 | a run that defers an overdue request which its requester then cancels, leaving its consumer without a stop instruction |
| StoreLimits.EmptiedIff | relay_state_store.py:2060-2096 | a pending transition loses its last work exactly when that one item expires, is cancelled or torn down, or is a lapsed reservation |
| StoreLimits.IdleTransitionCompletes | relay_state_store.py:2094-2113 | the next transition call that goes ahead completes a pending transition without work |
| StoreScenarios.PendingMayBeIdle | relay_state_store.py:2174-2192 | a run in which a deadline ends the last work of a pending transition |
| StoreHousekeeping.NoneTornOverdue | relay_state_store.py:2141-2200 | once a call has worked off the deadlines, its lapsed nodes tear down no overdue work: whatever it still concludes is before its deadline |
| StoreHousekeeping.ExpiryNeedsLess | relay_state_store.py:1841-1873 | because a request with room to be torn down has room to expire |
| StoreHousekeeping.SomeExpiresIff | relay_state_store.py:2174-2199 | working off overdue requests expires some of them exactly if before it one of them had room for its records |
| StoreDeadlines.TurnDecides | relay_state_store.py:2186-2199 | an overdue request, deferred before or not, expires in a call exactly if its records have room when its turn comes |
| StoreDeadlines.FirstWithRoomExpires | relay_state_store.py:2186-2199 | the first overdue request in the order of the call that has room beforehand expires in it |
| StoreDeadlines.RoomEndsDeferral | relay_state_store.py:2168-2199 | a call with room for all overdue work expires all of it |
| StoreScenarios.DeferredExpiresLater | relay_state_store.py:2196-2199 | a deferred request that expires, with its stop instruction, once the one that took its place is reaped |
| StoreReports.CallQuietIff | relay_state_store.py:2058-2096 | a transition call that goes ahead concludes some request exactly if the first one of its node has room to be torn down; otherwise only the transition itself moves |
| StoreReports.LapsedReadyIff | relay_state_store.py:2132-2146 | removing lapsed nodes in order concludes some request exactly if one of them, the nodes up to it having room to start, has a first request with room as things are |
| StoreReports.DueQuietIff | relay_state_store.py:2174-2199 | working off deadlines concludes nothing exactly if no overdue request has room, and then only what is deferred changes |
| StoreReports.ReportIff | relay_state_store.py:1764-1819 | a call's outcomes are the ones its own decision concludes exactly if its housekeeping concludes none |
| StoreReports.AcceptReportsOwn | relay_state_store.py:1637-1689 | a response is reported as new exactly if its decision concludes a request |
| StoreReports.CancelReportsOwn | relay_state_store.py:1786-1819 | so is a cancellation or an expiry |
| StoreReports.TransitionReportsAll | relay_state_store.py:2060-2125 | a transition call reports as many outcomes as its events conclude requests |
| StoreScenarios.NobodyHears | relay_state_store.py:2186-2199 | an overdue request is expired by the housekeeping of the call that asks for its end; the call answers that the outcome is not new and does nothing else |
| StoreScenarios.SweepTearsDown | relay_state_store.py:2147-2166 | before that deadline only a sweep concludes the request, by continuing its node's transition |
| StoreScenarios.LapsedNodeTearsDown | relay_state_store.py:2141-2144 | a run after which every call's housekeeping tears down a request that is not overdue, because the lease of its node has ended |
| StoreRuns.ArrivalsHold | relay_state_store.py:1224-1228 | every live request has a place of its own in the order of arrival, so batches and deadlines are taken in one determined order |
| StoreOffers.GivenInTurn | relay_state_store.py:1158-1207 | over runs, a reservation goes to a node whose last registration or renewal offered the model and enough tier and context, whose last report was healthy and not draining, and which has room by its live requests and that report; among those to the smallest tier, then the least load, then the first to have registered after the node served last |
| StoreOffers.ReservedIff | relay_state_store.py:1143-1189 | a new request is reserved exactly when some such node exists and there is room for the request and its cursor; otherwise it is refused as without capacity, and nothing else is |
| StoreOffers.HistoryAgrees | relay_state_store.py:949-972 | in every state of every run capabilities, reports, registration order and cursors are what the events so far say |
| StoreOffers.LoadIsLive | relay_state_store.py:1160-1178 | the load of a node is its live requests and the work it has reported |
| StoreOffers.ReservationIsAnswered | relay_state_store.py:1208-1231 | the answer to a new selection is the reservation stored, with its token, for the full time or to the deadline |
| StoreOffers.ForgetsLongestAgo | relay_state_store.py:2312-2331 | a cursor is evicted only when the table is full, and then the unused one whose last choice was longest ago |
| StoreAnswers.GrantedIsHeld | relay_state_store.py:1418-1451 | a granted answer is the claim then stored for node, owner and consumer: the envelope enqueued, a generation above all others, a lease of the full time or to the deadline; reclaimed exactly if a lapsed claim was there |
| StoreAnswers.GrantedIsUsable | relay_state_store.py:1511-1540 | within the lease, renewing with the granted generation continues, and answering with it is accepted exactly if there is room |
| StoreAnswers.QueuedFrom | relay_state_store.py:1329-1349 | over runs, the envelope of a queued request is the one enqueued for it, with no conclusion in between |
| StoreAnswers.ContinuedIsStored | relay_state_store.py:1530-1540 | a renewal stores the lease that it answers and changes nothing else |
| StoreAnswers.RenewalRefusedIff | relay_state_store.py:1488-1529 | a stale generation, a missing or expired claim and a wrong owner are answered each under exactly its condition on tombstone, registration and claim |
| StoreAnswers.RegisteredAs | relay_state_store.py:949-973 | after a registration the node has the capabilities given, its owner, a full lease and, if new, the initial report |
| StoreAnswers.RegistrationRefusedIff | relay_state_store.py:939-956 | registration is refused exactly for a pending node, for lack of room, or under another or a fenced owner |
| StoreAnswers.RenewedAs | relay_state_store.py:975-1002 | a renewal by the owner keeps the node but for a full lease and the capabilities given, or the old ones; others are refused |
| StoreAnswers.ReportedAs | relay_state_store.py:1050-1064 | a report by the owner is stored as given; others are refused |
| StoreAnswers.EnqueuedIff | relay_state_store.py:1257-1349 | a new enqueue is accepted exactly against its own live reservation on a node with a live lease, with its parameters and secrets, in time and with room |
| StoreAnswers.EnqueueRefusedBy | relay_state_store.py:1257-1328 | which refusal a request that is not queued gets, for exactly which reason |
| StoreAnswers.KnownIsAnswered | relay_state_store.py:1095-1141 | what a selection answers for a request that is live, over, or out of time |
| StoreAnswers.AcceptRefusedBy | relay_state_store.py:1608-1636 | which refusal a response for an unfinished request gets, for exactly which reason |
| StoreAnswers.AcceptedIsAnswered | relay_state_store.py:1590-1607 | a finished request answers only its own response again; any other is a conflict |
| StoreAnswers.EndIsAnswered | relay_state_store.py:1786-1819 | what asking for the end of an unfinished request answers: no proof, not expired, no capacity, or its verdict and reason as new |
| StoreSecrets.TokenOpensResponse | relay_state_store.py:1637-1730 | over runs, from the reservation that issued a token through enqueueing and acceptance: that token and no other opens exactly the accepted response until it is acknowledged or its replay time is reaped, and the cancel token and no other is told that the request completed |
| StoreSecrets.RetrievalAnsweredBy | relay_state_store.py:1711-1754 | every answer to a retrieval, by credential, acknowledgement and the record |
| StoreSecrets.RetrievalEnds | relay_state_store.py:1743-1754 | acknowledging closes retrieval as acknowledged, the replay time as expired, and the response is gone |
| StoreSecrets.ConclusionIsTold | relay_state_store.py:1786-1800 | over runs, as long as a record is retained, the holder of the request's cancel token, and whoever asks for expiry, is told exactly how it ended, and nobody else |
| StoreSecrets.GivenToken | relay_state_store.py:1226-1228 | over runs, a request's cancel token is the one given with its reservation or on enqueueing |
| StoreSecrets.ConclusionRecord | relay_state_store.py:1874-1918 | verdict, reason, cancel token and retention of each conclusion's record, and of its stop instruction |
| StoreSecrets.FormerOwnerIsTold | relay_state_store.py:1935-1971 | over runs, the former owner of a node that is gone is told when and why it was removed while its fence stands; another owner is refused while the tombstone stands |
| StoreGuards.LapsesInTime | relay_state_store.py:2200-2209 | over runs, a reservation lapses only when its full time or the request's deadline has come |
| StoreGuards.ExpiresInTime | relay_state_store.py:2174-2192 | over runs, a request expires only when the deadline it was reserved with has come |
| StoreGuards.NothingGoesEarly | relay_state_store.py:2211-2248 | responses, stop instructions, tombstones and fences go only at their time, or when acknowledged |
| StoreGuards.FullIff | relay_state_store.py:1855-1873 | capacity for records, instructions, responses and queue entries refuses exactly when a configured bound is reached |
| StoreGuards.ClaimRefusedBy | relay_state_store.py:1396-1417 | a claim is refused to strangers, and for capacity exactly when every place for live leases is taken |
| StoreGuards.GoesAheadIff | relay_state_store.py:1927-2019 | a transition goes ahead exactly for the owner or a lapsed lease, with its own cause, and with room; each refusal has exactly its reason |
| StoreGuards.ReportCounts | relay_state_store.py:2060-2125 | the counts of a report are those of the requests torn down, by what they were before the call |
| StoreGuards.EarliestGoFirst | relay_state_store.py:2058-2093 | a call tears down the earliest requests of its node: a full batch, or all, or as many until the next has no room |
| RelayRoundRobin.RemovalKeepsCycle | relay.py:1485-1503 | the cyclic order after moving the index is the order before without the removed key |
| RelayRoundRobin.RegistrationKeepsCycle | relay.py:2818-2838 | a new server comes last in the cyclic order; whoever was next stays next |
| RelayRoundRobin.RoundServesEachOnce | relay.py:1950-1959 | any k turns of a tie of k servers serve each exactly once |
| RelayRoundRobin.Scheduler.RemoveKnownServer | relay.py:1480-1505 | removes exactly the one entry, API v1 or not, and so filters it out of the key order and of the cyclic order |
| RelayRoundRobin.Scheduler.RegisterApi | relay.py:2818-2843 | registering keeps the next key; a heartbeat changes nothing |
| RelayRoundRobin.Scheduler.RegisterLegacy | relay.py:3594-3603 | a server without the API v1 marker never affects the order |
| RelayRoundRobin.Scheduler.BestFits | relay.py:1940-1949 | the tied candidates are exactly the best fitting servers in registration order |
| RelayRoundRobin.Scheduler.CollectOffers | relay.py:1907-1929 | the candidates are exactly the API v1 servers that are available, fresh, serve the model and tier and have capacity, each with its tier and rounded load |
| RelayRoundRobin.Scheduler.SelectBestFit | relay.py:1895-1981 | serves a best fitting one of the suitable servers with capacity: the next turn of its tie, at first the first in cyclic order; the served one is then last in that order; none is served only if none is suitable |
| RelayRoundRobin.Scheduler.TiesAreFair | relay.py:1950-1959 | whatever else was selected, registered or removed in between, k turns of the same k tied servers serve each once |
| RelayRoundRobin.Scheduler.BestFitServes | relay.py:1907-1949 | a best fitting server is up and fresh, serves model, tier and context and has capacity; no other such server has a smaller tier or, in the same tier, a smaller rounded load |
| RelayRaces.StepKeepsInv | relay.py:2546-2592 | every lock-protected step of every thread keeps markers and responses exclusive, outcomes in disjoint windows and responses single |
| RelayRaces.NeverBoth | relay.py:3272-3319 | in no interleaving does an unexpired terminal marker coexist with a queued response for the pair |
| RelayRaces.OneOutcomePerWindow | relay.py:678-696 | no two outcomes of one pair are counted within one retention window |
| RelayRaces.OneResponsePerWindow | relay.py:3304-3319 | each response ever queued has a completed outcome of its own for its own pair; no two for one pair within one retention window, and never two at once |
| RelayRaces.OnlyAdmittedIsAnswered | relay.py:3193-3208 | every outcome counted and every response queued, and all work pending, queued or in flight, is for a pair whose request was admitted earlier |
| RelayRaces.MarkerIsFinal | relay.py:2387-2403 | a terminal marker stays as it is until it expires, whatever is popped, put in flight or posted meanwhile, and no response for its pair is queued before then |
| RelayRaces.TerminalCleanupIsIdle | relay.py:3401-3408 | while the marker of a pair is unexpired, the removal of its responses on retrieval finds none |
| RelayOutcomes.CancellationEnds | relay.py:2546-2592 | in every interleaving, a cancellation that begins with no response queued and takes over anything of its pair, from queue, pending or flight, has marked the pair for a retention window and put an outcome on record when it frees the lock; one that takes nothing over has changed neither |
| RelayOutcomes.CancelledForGood | relay.py:2387-2403 | from then until the window is over the pair stays marked and nothing posted queues a response; a fresh outcome stays on record |
| RelayOutcomes.PendingIsCancelled | relay.py:2554-2556 | a request that is pending when its cancellation begins is taken over by it |
| RelayOutcomes.CompletedWins | relay.py:2553-2582 | a cancellation that finds a response queued marks and counts nothing |
| RelayOutcomes.PostingEnds | relay.py:3273-3319 | in every interleaving, a posting that takes over anything while no outcome is on record ends with its response queued and counted as completed for a window; without taking over anything it queues nothing |
| RelayOutcomes.PendingIsAnswered | relay.py:3273-3319 | so the posting for a pending request, in time and neither ended nor on record, answers it |
| RelayOutcomes.StaleIsExpired | relay.py:3286-3290 | a posting after the deadline of a pending request ends it instead: marked, on record and without a response for the window |
| RelayOutcomes.LockIsFreed | relay.py:2546-2592 | a cancellation or posting waits for nothing but an admission under way and frees the lock after at most nineteen steps |
| RelayOutcomes.QueueMoves | relay.py:3193-3208 | a server's queue grows at its end by the admitted request and shrinks at its head by the one polled; otherwise only by pairs taken over or with the server |
| RelayOutcomes.AnswerWaits | relay.py:3409-3412 | a queued response waits until it is retrieved, and is then neither queued nor pending |
| ChatFailover.FailoverLimit | static/chat.js:1061-1067 | one replacement without a node count; with one, as many as there are other nodes, three at most and none below zero |
| ChatFailover.Totals | static/chat.js:1436-1523 | the first request, one context retry and three failovers make at most five; the node count is asked for again at most once |
| ChatFailover.FailoversAvoid | static/chat.js:1450-1517 | a server recorded as failed is contacted again only by the one context retry |
| ChatFailover.FailureIsReplaced | static/chat.js:1471-1500 | after a terminal failure another server is asked for unless the limit is reached |
| ChatFailover.FreshOfferIsSent | static/chat.js:1499-1518 | a replacement that is suitable and has not failed is sent the request, unless the model has gone |
| ChatFailover.FirstFailureFailsOver | static/chat.js:1425-1518 | with more than one node known, a first request that fails terminally is followed by an offer and, if that is a suitable other server, by the request to it |
| ChatFailover.ExhaustedOnlyIf | static/chat.js:1472-1497 | the client gives up only after as many failovers as the refreshed node count allows, or one without it, or after as many offers of failed servers in a row as limit and failed servers together |
| ChatFailover.RetryIsSent | static/chat.js:1457-1462 | a request that was too large for its server, in automatic mode, is followed by asking for the larger context once and sent again to the server found |
| ChatFailover.RetryOnlyIf | static/chat.js:483-494 | and nothing else is retried |
| ChatFailover.OffersSuffice | static/chat.js:527-541 | a server that was asked for serves the context that the request asks for |
| ChatFailover.Client.EnsureSelectedServer | static/chat.js:496-568 | keeps a selected server unless forced; asks the relay otherwise, once, and accepts exactly a server with enough context |
| ChatFailover.Client.SendOnce | static/chat.js:1248-1345 | one attempt: asks for a server exactly when forced, unfit in automatic mode or without one, sends to that server or the kept one, and reports its reply |
| ChatFailover.Client.SendMessage | static/chat.js:1425-1523 | ends for every behaviour of the relay after at most five requests; each act and the end are those that the trace so far calls for; no failover goes back to a failed server |
| Pkcs7.PaddedLength | encrypt.py:481-503 | padding always succeeds for block sizes 1 to 255, adds 1 to a block of bytes and fills the last block |
| Pkcs7.UnpadAfterPad | encrypt.py:505-534 | unpadding a padded string gives it back |
| Pkcs7.UnpadsIff | encrypt.py:505-534 | unpadding succeeds on exactly the paddings, so each string has one |
| StreamSession.ChainedInverts | encrypt.py:481-534 | padding turns an invertible cipher on whole blocks into one on any bytes |
| StreamSession.Sender.EncryptStreamChunk | encrypt.py:303-365 | a chunk is sent under the first of five drawn vectors the session has not used, so all vectors of a session differ; without one nothing changes |
| StreamSession.Receiver.DecryptStreamChunk | encrypt.py:367-417 | a chunk is answered with its plaintext exactly if it decrypts and its vector has not been accepted; otherwise nothing changes; the history of chunks and answers grows by this one |
| StreamSession.Receiver.OncePerVector | encrypt.py:407-415 | whatever arrives, forged chunks included, a receiver never accepts one vector twice |
| StreamSession.Receiver.EachPlaintextOnce | encrypt.py:407-417 | however a sender's chunks are reordered, repeated or dropped, a receiver has returned each plaintext exactly at its chunk's first arrival |

## Left out

Of the relay state store:

- RelayStateStore.InMemoryRelayStateStore.CursorEvictionCandidate: ties in activity (there are none, activity only grows) are not broken by name.
- Field validation (types, lengths, byte sizes, finite numbers, the pair of status and reason) that rejects a call before it takes the lock: single-branch facts.
- The read-only observers (`get`, `list`, `list_reservations`, `queued_requests`, `active_claims`, `response_records`, the tombstone and terminal listings): housekeeping followed by a copy.
- `unregister` and `renew_claim`: they pass their arguments on to modelled calls.
- `_remove_node_reservations_locked` and `_remove_node_queue_locked`: nothing calls them.
- Nested fences per node are one map keyed by node and owner; the code's removal of emptied inner maps has no counterpart.
- Hashing, token generation and constant-time comparison: digests are injective and compared for equality. The acknowledgement token is the triple it is derived from.
- Floating point: times are exact reals.

Of the wired relay:

- RelayRoundRobin.Scheduler.SelectBestFit: what a server has reported, whether it is stale and how much it has in flight are read once per call, as parameters; the rounding of load scores is any function.
- RelayRaces.Do: the lifecycle dictionaries are values of a state machine, because the interleaving of threads is the point; that they are updated in place is not captured.
- RelayRaces.StepKeepsInv: responses posted with a request identifier that is not a string skip the lifecycle in the original and are not modelled; neither are progress updates, which touch none of this state.
- Requests of deprecated message formats in the poll loop, the deprecated routes, streaming sessions, control tombstones of the wired relay and its HTTP layer, logging, metrics, health and rate limits.
- The server whose in-flight entry a posting takes over is any that has one; the original takes the first in registration order.

Of the client and the encryption module:

- ChatFailover.Client.SendMessage: other user interface actions during a request appear only as the selection being lost while waiting; message texts and encryption are not modelled.
- Estimating the context tier of a message: the wanted tier is a parameter.
- AES, RSA and key exchange: a session's cipher is any pair of functions of which one undoes the other; establishing the session key and the mode and associated-data mismatches of a reused session are not modelled.
