# Egress approval, live queue, bottle networks: a verified model

A Dafny 4.11 project that models the parts of the repository where several actors, retries or limits meet, and
proves what those parts promise. `dafny verify dfyconfig.toml` checks everything.

## What is modelled

**The egress approval protocol** (`Protocol`, `ProtocolInvariant`, `ProtocolSafety`, `PersistBarrier`, `Races`,
`Overtaking`, `Subprocess`, `Reach`, `DenyWindow`, `DenyRows`, `PollingClient`). Bottles file requests and poll;
operators allow, deny or persist a deny; a sweeper ages rows out. The state machine cuts every broker lock section at
each store transaction and denylist read, drops the lock while an allow subprocess runs, and lets any thread take any
enabled step, so a statement about all schedules is one about all interleavings. An allow is two-phase; a sweep picks
rows under the lock and closes them after releasing it; a persisted deny writes, reloads, lists and closes in separate
steps. The environment chooses clocks, minted ids, the subprocess outcome, disk failures and which file version a
denylist check reads.

**The request store** (`RequestStore`, `StoreObject`) is a map of rows and an event log with atomic transactions; every
row is the replay of its events. **The denylist** (`DenyZones`, `DenyFile`, `DenyListObject`) has the zone match, the
JSON round trip, and several instances (the daemon, the command line) editing one file under its file lock with cached
reads. **The coalesce window** (`HitWindow`) decides which denylisted filings write a row.

`StoreObject.EgressStore`, `DenyListObject.DenyList` and `Broker.EgressBroker` are the source's objects, each method
proved against the functions the theorems are about. `LoneThread` proves that a filing, each half of an allow and a
deny, run without interruption, are the protocol machine's steps of one thread alone, and `LonePersist` that a persisted
deny leaves the rows its method does. `Rulings` says in columns, events and answers what each of these calls does, case
by case; its statements use neither the machine's transitions nor the store's transactions, and the methods of
`Broker.EgressBroker` promise them.

**The live queue fan-out hub** (`StreamHub`, `StreamHubSafety`, `HubFollows`, `StreamHubObject`) is a second machine:
connects, polls, closes, ends and one fan-out that pushes outside the state lock, a push a step. `HubFollows` reads off
the schedule which snapshot each stream must have.

**The bottle network allocator** (`BottleNet`, `BottleNetAddresses`, `BottleNetLaws`, `BottleNetBatches`,
`BottleNetObject`), **keyset paging** (`Paging`), **TLS server name extraction** (`Sni`), **mount admission** (`Mounts`)
and **the hosts file rewrite** (`HostsFile`) are sequential; their loops are methods, and their claims are about every
input or every run. A batch of bottles is not always its bottles one at a time, because it puts all ssh ports in place
before it picks the first browser port (src/bottle_net.py:420-449); `BottleNetBatches.ABatchIsOneAtATime` says exactly
when it is.

## Assumptions

- A store transaction is atomic, and a minted id is one no row has.
- The allow subprocess returns any boolean; each replacement of the denylist file changes its modification time.
- The broker starts from a database whose open rows have distinct asks and whose rows replay from their events
  (`ProtocolInvariant.StoreOk`); the empty database is one (`ProtocolInvariant.EmptyStoreOk`).
- Window claims at 60 seconds need a clock that never runs back from one filing's reading to the next's: the source reads it
  before it takes the lock. `HitWindow.PruningNeedsTheClock` shows the need.
- `poll_decision` is bounded for a clock that a sleep advances by at least its length.

## Where the code and its documentation disagree

The model follows the code.

- `sweep_stale` says a request whose allow is in flight is left alone (src/egress_broker_host.py:1583-1584). It tests this when
  it picks, and closes later without the lock, so an allow that begins in between can be overtaken
  (`Races.AnAllowCanBeOvertakenByASweep`). That is so exactly when a sweep holds the row as the allow begins
  (`Overtaking.AllowIsOvertakenIffHeldWhenItBegins`); otherwise the row is left alone until the allow returns
  (`Overtaking.TheAllowIsLeftAlone`).
- `persist_deny` says its argument errors are the only exception it raises (src/egress_broker_host.py:1383-1388). A sweep that
  closes a row between its look and its close makes the store's error pass through it, after the entry was written and with
  other covered rows still open (`Races.APersistedDenyCanBreakOff`). No other step of the call does
  (`Overtaking.OnlyAStaleRowBreaksOff`), and it can happen at a row exactly when a sweep holds that row as the call takes the
  lock for it (`Overtaking.PersistBreaksOffIffHeldWhenItLocks`).

## Model

| member | source | states |
|---|---|---|
| `ProtocolSafety.DecisionsAreFinal` | `src/egress_store.py:1061-1123` | over every interleaving a decided row keeps its status, decision time, decider and body, no row goes away, and the log only grows |
| `ProtocolSafety.OneOpenRowPerAsk` | `src/egress_store.py:852-923` | in every reachable store each (container, host, port) has at most one open row, and a row has a decision body exactly when it is not open |
| `ProtocolSafety.OneApplyPerRequest` | `src/egress_broker_host.py:1133-1193` | no two threads ever wait for the allow subprocess of one request |
| `ProtocolSafety.OnlyASweepClosesAnInFlightRow` | `src/egress_broker_host.py:1146-1151` | a step decides a row whose allow is in flight if and only if it is a stale sweep's, that sweep has the row in hand, and comes to it; the row is then stale. No deny, second allow or persist-deny step does |
| `ProtocolSafety.SweepPicksSpareInFlight` | `src/egress_broker_host.py:1591-1595` | what a sweep picks is disjoint from the requests whose allow is in flight at that moment |
| `ProtocolSafety.SweptRowsWerePickedIdle` | `src/egress_broker_host.py:1589-1605` | every row a sweep is about to close was picked in one earlier step of that sweep, at which no allow of it was in flight, and has been in hand since that step |
| `ProtocolSafety.ClosedInFlightMeansPickedBefore` | `src/egress_broker_host.py:1589-1605` | a row decided under a running allow was picked by that sweep, idle, in such a step before |
| `ProtocolSafety.AllowedMeansApplied` | `src/egress_broker_host.py:1244-1255` | every allowed row of every reachable store has apply status applied, and its log has the applied event before the allowed one; what stands behind the event is `Subprocess.ReportsAreBacked` |
| `Subprocess.ReportsAreBacked` | `src/egress_broker_host.py:1219-1258` | in every run from a restart, every applied event, and every apply_failed one, was appended by a call whose own subprocess had returned just that outcome (success, failure) in an earlier step of the run |
| `Subprocess.AllowedMeansReturned` | `src/egress_broker_host.py:1228-1255` | in every run from a restart, a row that gets allowed is allowed in a step of a call whose subprocess returned success in an earlier step; its log has the applied event before the allowed one |
| `ProtocolInvariant.MoveKeepsInv` | `src/egress_broker_host.py:768-1258` | one step of one thread keeps the whole invariant: rows replay from the log, one lock holder, one apply per request, windows name denylist denials |
| `ProtocolInvariant.ActKeepsInv` | `src/egress_broker_host.py:656-1616` | so does every action of any schedule: a call, a step, or a replaced denylist file |
| `ProtocolInvariant.EmptyStoreOk` | `src/egress_store.py:624-640` | an empty database meets what the broker needs of the database it opens |
| `Races.AnAllowCanBeOvertakenByASweep` | `src/egress_broker_host.py:1576-1605` | a reachable state in which the next step makes a row stale under its running allow, although the docstring says such a row is left alone |
| `Races.APersistedDenyCanBreakOff` | `src/egress_broker_host.py:1383-1388` | a reachable end of a persist-deny that raises the store's error through the call and leaves a covered row open after the entry was written, although the docstring says nothing else is raised |
| `Overtaking.AllowIsOvertakenIffHeldWhenItBegins` | `src/egress_broker_host.py:1146-1172` | the exact condition, known when the allow begins: some continuation decides the row under it if and only if a sweep holds the row as it is marked in flight |
| `Overtaking.TheAllowIsLeftAlone` | `src/egress_broker_host.py:1576-1605` | over every run throughout which the allow is in flight, a row no sweep held at its start stays open and no sweep takes it up |
| `Overtaking.OnlyAStaleRowBreaksOff` | `src/egress_broker_host.py:1448-1533` | over all phases of a persist-deny, a step ends the call with an error if and only if it closes a row that has gone stale, and the error is the store's |
| `Overtaking.PersistBreaksOffIffHeldWhenItLocks` | `src/egress_broker_host.py:1485-1533` | the exact condition, known when the call takes the lock for a row: some continuation breaks it off there if and only if a sweep holds that row |
| `Overtaking.BrokenOffCallsTookAHeldRow` | `src/egress_broker_host.py:1485-1533` | in every run in which a persist-deny breaks off at a row, there is the step in which it took the lock for that row while a sweep held it |
| `PersistBarrier.LookupFindsIt` | `src/egress_denylist.py:287-301` | an entry in the list makes every covered (container, host) match some entry |
| `PersistBarrier.LoadBlocks` | `src/egress_broker_host.py:1479-1483` | the forced reload under the broker lock starts the barrier: every later denylist check reads a version with the entry |
| `PersistBarrier.NoNewRowUnderTheZone` | `src/egress_broker_host.py:1479-1483` | from that reload, while the entry stays, any covered row open with the lock free was already open then, whatever anyone files, decides, sweeps or edits |
| `PersistBarrier.PersistedDenyClosesAllButSkipped` | `src/egress_broker_host.py:1485-1533` | when the call returns success and while the entry stays, every covered row still open with the lock free is one the call skipped |
| `PersistBarrier.SkippedRowsWereInFlight` | `src/egress_broker_host.py:1509-1515` | for every skipped row there is the one step of the call that came to it, open, found its allow in flight, and skipped it, and it has been skipped since |
| `PersistBarrier.PersistedDenyLeavesOnlyInFlight` | `src/egress_broker_host.py:1383-1388` | the whole promise, from a restart on any database: after success and while the entry stays, every covered row open with the lock free is one the call skipped, in one step, because its allow was in flight at that step |
| `Reach.ListsExactly` | `src/egress_broker_host.py:1485-1486` | the listing of a persist-deny takes exactly the open rows whose container the scope names (or any, when global) and whose host ends in the labels of the zone |
| `Reach.PersistClosesOnlyWhatItIsOver` | `src/egress_broker_host.py:1268-1279` | in every run a row closed in a step of a persist-deny has such a container and host, had no allow in flight, and is denied with that zone, scope, reason and body |
| `Reach.PicksExactly` | `src/egress_broker_host.py:1591-1595` | a stale sweep picks exactly the open rows opened 24 hours or more before its time, with no allow in flight |
| `Reach.StaleRowsAreADayOld` | `src/egress_broker_host.py:1576-1615` | in every run a row goes stale only in a step of a sweep and only when it was opened 24 hours or more before the sweep's time |
| `PollingClient.PollDecision` | `src/egress_broker.py:522-594` | polling stops at the first reply that is neither lost nor an open row without an error newer than the filing, with the result stated for each kind of reply (HTTP error, bad JSON, decided with and without a body, a newer apply error); it asks no more often than the poll intervals before the deadline allow, and gives up only past the deadline |
| `PollingClient.ConclusionIsSome` | `src/egress_broker.py:545-590` | a conclusion is that of one of the replies |
| `PollingClient.FirstConclusionAt` | `src/egress_broker.py:545-590` | replies after the first concluding one do not matter |
| `PollingClient.FilingReturnsTheBaseline` | `src/egress_broker_host.py:729-745` | the attempt a filing returns is the row's attempt count at that moment |
| `PollingClient.NewErrorIsLoggedLater` | `src/egress_store.py:1125-1179` | a last error numbered above the baseline was logged as an apply error after the filing |
| `PollingClient.ViewIsHonest` | `src/egress_broker_host.py:1700-1718` | whatever a poll concludes is true of the row then: an allow was applied, an error is newer than the filing |
| `PollingClient.RequestHostIsJustified` | `src/egress_request.py:219-279` | end to end, from a restart, over every interleaving and every lost poll: a request reported allowed was allowed in a step of a call whose subprocess had returned success; an apply failure it reports was logged after the filing was recorded, by a call whose subprocess had returned failure |
| `PollingClient.ImmediateAnswerIsJustified` | `src/egress_request.py:252-255` | a filing answered at once is reported allowed only if its row was applied and then allowed, in the run since the restart by a call whose subprocess had returned success |
| `PollingClient.CoalescedFilerLearns` | `src/egress_request.py:252-279` | a filer, coalesced or not, whose poll reaches the decided row with nothing reported before is told the decision that row keeps: the scope allowed, or the deny with the denylist's zone and scope |
| `PollingClient.NewFailureIsReported` | `src/egress_broker.py:580-591` | a filer whose poll reaches its row while it is open, after an attempt failed since the filing, is told that failure at once |
| `PollingClient.NoNewsIsPending` | `src/egress_request.py:263-279` | a filer whose polls are all lost or see an open row with no newer error is told it is pending |
| `PollingClient.ReplayedFilingIsAnswered` | `src/egress_broker_host.py:799-806` | a filing that names a decided row of its own ask writes nothing and is answered with the body stored in the row, which the client reports |
| `RequestStore.FindOpen` | `src/egress_store.py:1232-1239` | the open row of an ask, or none exactly when there is none |
| `RequestStore.PerformWrites` | `src/egress_store.py:827-1208` | every store call that changes anything writes one row and appends at most one event of that row |
| `RequestStore.PerformKeeps` | `src/egress_store.py:852-905` | every store call keeps asks unique among open rows and only extends rows: a decision never changes, counters only grow |
| `RequestStore.RunExtends` | `src/egress_store.py:827-1208` | the same over whole runs of calls |
| `RequestStore.PerformRecovers` | `src/egress_store.py:804-1208` | after a call the row it wrote is still recovered by replaying its events |
| `RequestStore.RunIsReplayed` | `src/egress_store.py:804-1208` | in every run from the empty database each row is the replay of its events in order, and hit_count is 1 + the logged hits + the suppressed hits |
| `RequestStore.RunKeepsRowsOk` | `src/egress_store.py:1086-1179` | over any run a row has decided_at, decided_by and a decision body exactly when it is not open, and its last error carries its latest attempt number |
| `StoreObject.EgressStore.OpenOrHit` | `src/egress_store.py:827-905` | the method's whole new state, error and result are those of the transaction the proofs are about |
| `StoreObject.EgressStore.ApplyHit` | `src/egress_store.py:907-916` | as above, for a hit |
| `StoreObject.EgressStore.InsertOpen` | `src/egress_store.py:918-1008` | as above, for a new row |
| `StoreObject.EgressStore.SuppressedHit` | `src/egress_store.py:1010-1048` | as above, refusing any row the denylist did not deny |
| `StoreObject.EgressStore.MarkNotified` | `src/egress_store.py:1050-1059` | as above, for the notified event |
| `StoreObject.EgressStore.Close` | `src/egress_store.py:1061-1123` | as above, for a decision; only an open row can be closed |
| `StoreObject.EgressStore.MarkApply` | `src/egress_store.py:1125-1179` | as above, for an apply outcome with its attempt number |
| `StoreObject.EgressStore.MarkPersist` | `src/egress_store.py:1181-1208` | as above, for a persist outcome |
| `StoreObject.EgressStore.FindOpen` | `src/egress_store.py:1232-1239` | going through the rows finds the open row of an ask, and answers None only when every row is decided or asks for something else |
| `LoneThread.FilingIsTheMachine` | `src/egress_broker_host.py:768-866` | an uninterrupted filing leaves the state and gives the answer that four steps of the protocol's machine do, in every case: refused, decided, hit, new, denied, suppressed |
| `LoneThread.DecisionsAreTheMachine` | `src/egress_broker_host.py:1133-1258` | so do each half of an allow and a deny, over every branch |
| `Rulings.AfterFilingFiles` | `src/egress_broker_host.py:747-866` | case by case, in the columns of the row, its events, the window and the answer, what an uninterrupted filing does: refused; a hit on the open row of its ask; the stored body of a decided row; a new open row; a row denied at once by the best covering entry; a hit suppressed onto a row less than 60 seconds old |
| `Rulings.AllowBegunBegins` | `src/egress_broker_host.py:1133-1175` | case by case what the first half of an allow does: refused, in progress, an IP without CIDR recorded as a failed attempt, or marked in flight with scope live by default |
| `Rulings.AllowFinishedEnds` | `src/egress_broker_host.py:1228-1258` | case by case what the second half does: on success the row is allowed and applied with the scope and decider, on failure it stays open with one more attempt and an apply_failed error of that number, and a row decided meanwhile is left alone |
| `Rulings.DenyDecidedDenies` | `src/egress_broker_host.py:1176-1218` | case by case what a deny does: this row alone is denied, with its columns and event, or nothing changes |
| `LonePersist.AloneItIsTheObjects` | `src/egress_broker_host.py:1366-1533` | a machine run of one persist-deny that nothing interrupts leaves the rows as the method does: exactly the covered open rows with no allow in flight denied and marked, or, after a failed write, the trigger alone |
| `Broker.EgressBroker.CoalesceRow` | `src/egress_broker_host.py:747-766` | the row a filing lands on; a replayed id that names another ask is refused |
| `Broker.EgressBroker.FileRequest` | `src/egress_broker_host.py:768-866` | the filing's new store, window and answer, row by row and case by case (as `Rulings.AfterFilingFiles`); a filing that lands on a decided row is answered with the body stored in it |
| `Broker.EgressBroker.ShortCircuit` | `src/egress_broker_host.py:952-1053` | the denylist branch: a hit counted onto the row of a window less than 60 seconds old, or a new row denied at once and the expired windows gone |
| `Broker.EgressBroker.BeginAllow` | `src/egress_broker_host.py:1133-1175` | first half of an allow: refused with nothing changed, a failed attempt for an IP, or the request marked in flight and the lock dropped |
| `Broker.EgressBroker.FinishAllow` | `src/egress_broker_host.py:1228-1258` | second half: when the subprocess succeeded the open row is allowed, applied, with this scope and body; when it failed the row is still open with one more attempt and an apply_failed error; a decision taken meanwhile is left alone |
| `Broker.EgressBroker.Deny` | `src/egress_broker_host.py:1176-1218` | denies this request alone, with its columns and event, or changes nothing |
| `Broker.EgressBroker.SweepStale` | `src/egress_broker_host.py:1576-1615` | uninterrupted, a row differs afterwards exactly when it was open, opened 24 hours before or earlier, and no allow of it in flight; it is then stale, with one event each in order, counted |
| `Broker.EgressBroker.SweepCovered` | `src/egress_broker_host.py:1485-1526` | a row differs afterwards exactly when it was open, no allow of it in flight, its host ends in the labels of the zone, and the scope is global or its container; it is then denied for that entry and marked persisted |
| `Broker.EgressBroker.DenyTrigger` | `src/egress_broker_host.py:1448-1477` | after a failed write only the row that asked is denied once and marked, or marked alone while its allow is in flight |
| `Broker.EgressBroker.PersistDeny` | `src/egress_broker_host.py:1366-1533` | on success the file has the entry and exactly the rows it is over, by scope and labels, open with no allow in flight, are closed; on failure the file is as it was and only the row that asked is denied |
| `HitWindow.PruningChangesNoAnswer` | `src/egress_broker_host.py:920-950` | with a clock that never runs back, pruning gives every answer a window that forgets nothing would give |
| `HitWindow.PruningNeedsTheClock` | `src/egress_broker_host.py:793-797` | without that clock condition it does not: a concrete run |
| `HitWindow.LogsAreAWindowApart` | `src/egress_broker_host.py:989-998` | two logged hits of one (container, zone) are at least 60 seconds apart |
| `HitWindow.SuppressedIffLoggedAMinuteAgo` | `src/egress_broker_host.py:989-1053` | with such a clock a hit is suppressed if and only if one of its container and zone was logged less than 60 seconds before it, and its caller is pointed at the row that one wrote |
| `HitWindow.PruneAndLog` | `src/egress_broker_host.py:938-950` | eviction keeps what has not expired and logs each evicted suppressed count once |
| `HitWindow.Consult` | `src/egress_broker_host.py:989-1053` | the lines one denied filing logs surface, per key, exactly the suppressed hits it retires |
| `HitWindow.SuppressedHitsAreSurfacedOnce` | `src/egress_broker_host.py:920-1053` | over any run suppressed hits = surfaced hits + those still pending, per key, whatever the clock does |
| `DenyWindow.ConsultationIsACall` | `src/egress_broker_host.py:989-1053` | a denylist check in the machine is one call of the window, with the same answer |
| `DenyWindow.TheWindowIsItsCalls` | `src/egress_broker_host.py:952-1053` | in every interleaving the broker's window is that of its denied filings in lock order |
| `DenyWindow.SuppressedHitsAreAccountedFor` | `src/egress_broker_host.py:952-1053` | in every interleaving each suppressed hit was surfaced once or is pending |
| `DenyRows.DeniedRowsAreAWindowApart` | `src/egress_broker_host.py:952-1053` | in every interleaving whose filings read a clock that never runs back, any two rows written in the run that the denylist denied for one (container, zone) have opening times at least 60 seconds apart |
| `DenyRows.RunKeepsLogged` | `src/egress_broker_host.py:989-1053` | every row the denylist denied in a run, and every denial under way, has its logged call of the window, with its zone, opening time and id |
| `DenyWindow.SuppressedHitsLandOnDenials` | `src/egress_store.py:1010-1048` | in every interleaving a suppressed hit finds a row the denylist denied, so the store never refuses it |
| `DenyZones.BestMatchIsBest` | `src/egress_denylist.py:287-301` | the match covers the host and no covering entry is longer, or as long with a bottle scope where it has the global one |
| `DenyZones.Matches` | `src/egress_denylist.py:287-301` | the scan computes that match |
| `DenyZones.CoveredByLabels` | `src/egress_denylist.py:115-117` | a zone covers a host if and only if the zone's labels, split at the dots, are the last labels of the host |
| `DenyZones.MatchByLabels` | `src/egress_denylist.py:287-301` | in scopes, labels and lengths: no match exactly when no entry is over the host; otherwise an entry that is, with no longer zone over the host, and bottle-scoped where one of that length is |
| `DenyZones.SameLengthSameZone` | `src/egress_denylist.py:115-117` | two zones of one length that cover a host are the same string |
| `DenyZones.MatchIgnoresOrder` | `src/egress_denylist.py:287-301` | with unique (zone, scope) pairs the match depends on the set of entries, not on their order |
| `DenyZones.WithoutMembers` | `src/egress_denylist.py:384-387` | removal takes the named entry and nothing else |
| `DenyZones.WithoutShrinks` | `src/egress_denylist.py:384-392` | removal reports success exactly when the entry was there |
| `DenyZones.AddKeepsTheRest` | `src/egress_denylist.py:364-367` | adding touches the named entry alone and keeps (zone, scope) pairs unique |
| `DenyFile.EntryRoundTrip` | `src/egress_denylist.py:82-112` | write then read gives an entry back if and only if its zone, scope and author are not empty |
| `DenyFile.ListRoundTrip` | `src/egress_denylist.py:310-336` | a whole list reads back as written if and only if all its entries are such |
| `DenyFile.Read` | `src/egress_denylist.py:187-253` | whatever objects the file holds, the entries a reader keeps have a zone, a scope and an author |
| `DenyFile.EditsAreSequential` | `src/egress_denylist.py:338-396` | whatever the file held when it was found and however several instances interleave, it is the adds and removes that took the lock, applied in lock order, and every edit reported done is among them |
| `DenyFile.NoEntryIsLost` | `src/egress_denylist.py:338-396` | an added entry is in the file until a later edit names it |
| `DenyFile.AnswersAreFresh` | `src/egress_denylist.py:187-253` | every match answers from a version of the file no older than the one current when it began |
| `DenyListObject.DenyList.Matches` | `src/egress_denylist.py:261-308` | answers from the file as it is, whatever was cached |
| `DenyListObject.DenyList.Add` | `src/egress_denylist.py:338-374` | the file becomes what the edited list reads as, or is untouched when it is corrupt or the disk fails; the cache is then what the file reads as exactly unless an entry without zone, scope or author was written |
| `DenyListObject.DenyList.Remove` | `src/egress_denylist.py:376-396` | likewise, and tells whether the entry was there |
| `DenyListObject.DenyList.Reload` | `src/egress_denylist.py:187-253` | after it the cache carries the file's modification time and, being valid, the file's entries |
| `StreamHubSafety.ReadyStreamsAreCurrent` | `src/admin_daemon.py:566-598` | under every interleaving the last frame of each registered ready stream is the current one, or the one before while the one running fan-out still owes it the current; never anything else |
| `HubFollows.TheHubHoldsTheLatestAnswer` | `src/admin_daemon.py:585-590` | in every run the hub's key and its time are those of the latest poll of the schedule that brought a snapshot |
| `HubFollows.ReadyStreamsFollowTheQueue` | `src/admin_daemon.py:585-592` | in every run a registered ready stream was last sent the snapshot of that poll, or the running fan-out owes it that one; with no fan-out running it was sent it |
| `HubFollows.FailuresAreCounted` | `src/admin_daemon.py:576-587` | the failure counter is the number of polls of the schedule that failed since the last that did not |
| `HubFollows.ConnectPollsUnlessRecent` | `src/admin_daemon.py:558-564` | a connect does without a poll of its own if and only if the latest snapshot is younger than the poll interval |
| `HubFollows.StreamsEndWhenUnreachable` | `src/admin_daemon.py:614-617` | after a failed poll the poller closes every stream if and only if that many polls failed in a row, and otherwise leaves the hub as it is |
| `HubFollows.WhatTakesAStreamOff` | `src/admin_daemon.py:532-556` | a stream leaves the list when it is closed, all are ended, its own connect fails, or too many polls failed in a row; no other action takes it off |
| `StreamHubSafety.FramesComeOnceInOrder` | `src/admin_daemon.py:586-590` | every stream, ended or not, was pushed consecutive versions, each with its key: none skipped, repeated or out of order |
| `StreamHubSafety.NeverTooManyStreams` | `src/admin_daemon.py:508-513` | registered streams never exceed the maximum, and a closed hub has none |
| `StreamHubSafety.ExactlyOnePollerIsLive` | `src/admin_daemon.py:521-525` | never two pollers, and one for as long as a ready stream is registered |
| `StreamHubSafety.FirstFrameIsRecent` | `src/admin_daemon.py:515-520` | a connect finds a frame to send (the source's assert), fetched less than a poll interval before it asked or later |
| `StreamHubSafety.FirstFrameIsCurrent` | `src/admin_daemon.py:515-520` | the first frame of a stream is the hub's current one |
| `StreamHubSafety.ActKeepsInv` | `src/admin_daemon.py:503-617` | every action keeps the hub's invariant |
| `StreamHubSafety.Drain` | `src/admin_daemon.py:968-982` | one wake-up yields the last frame queued before a close, or the close |
| `StreamHubSafety.ClientHasTheLatest` | `src/admin_daemon.py:960-987` | however wake-ups fall, a client that is not closed was last written the last frame pushed before its last wake-up |
| `StreamHubObject.QueueStreamHub.TakeSlot` | `src/admin_daemon.py:505-513` | reserves a slot exactly when the hub is open and has fewer streams than its maximum, and changes nothing otherwise |
| `StreamHubObject.QueueStreamHub.FanOut` | `src/admin_daemon.py:591-592` | pushes the frame once to every target and to nobody else |
| `StreamHubObject.QueueStreamHub.Refresh` | `src/admin_daemon.py:566-598` | after a good poll the last key is the reply and failures are 0; nobody is sent anything when the key was already held; otherwise each ready registered stream gets exactly that frame, once; with nothing owed before, every ready registered stream ends in it. A failed poll counts a failure and changes nothing else |
| `StreamHubObject.QueueStreamHub.FirstFrame` | `src/admin_daemon.py:515-525` | the delivery section of the machine, and whether it starts the poller |
| `StreamHubObject.QueueStreamHub.CloseStream` | `src/admin_daemon.py:532-536` | removes that stream from the list and no other |
| `StreamHubObject.QueueStreamHub.EndStreams` | `src/admin_daemon.py:538-556` | every registered stream is sent one close, nobody else anything, and none stays registered |
| `StreamHubObject.RefreshLevels` | `src/admin_daemon.py:566-598` | an uninterrupted refresh leaves every registered ready stream at the hub's version |
| `BottleNet.OverlapIsASharedAddress` | `src/bottle_net.py:336-345` | Python's overlap test on blocks is sharing an address |
| `BottleNet.BlocksAreDisjoint` | `src/bottle_net.py:360-369` | different /28s of a pool share nothing |
| `BottleNet.FirstFree` | `src/bottle_net.py:360-369` | the chosen /28 is the lowest free one, and there is none exactly when none is free; `BottleNetAddresses.FreeIsUnoccupied` says what free means in addresses |
| `BottleNetObject.FirstFreeSubnet` | `src/bottle_net.py:360-369` | the search loop finds the lowest block of the pool none of whose addresses is in a Docker network, a grant or an entry, or reports that every block has such an address |
| `BottleNet.FirstPort` | `src/bottle_net.py:441-445` | the chosen browser port is the lowest of the range that nobody blocks, claims or asks for |
| `BottleNetObject.LowestPort` | `src/bottle_net.py:441-445` | the loop finds the lowest port of the range that no plugin, service, listener or entry has and no manifest asks for, or reports that there is none |
| `BottleNetAddresses.ClashIsSharing` | `src/bottle_net.py:336-345` | the clash test is having an address in a grant or in a Docker network other than the bottle's own |
| `BottleNetAddresses.FreeIsUnoccupied` | `src/bottle_net.py:360-369` | a block is free if and only if none of its addresses is in a Docker network, a grant or an entry |
| `BottleNetAddresses.AllocatedIsWellPlaced` | `src/bottle_net.py:401-449` | after a successful allocation every requested bottle, old or new, has a /28 inside the pool with no address in a grant or in a Docker network but its own, a browser port of the range and an ssh port that the host does not use |
| `BottleNetAddresses.NewBottlesGetTheLowest` | `src/bottle_net.py:434-449` | and every new one the lowest block and the lowest port: each lower block has an address of a network, a grant, or an entry of the file or an earlier bottle, and each lower port is the host's, such an entry's, or asked for |
| `BottleNetAddresses.RefusalsInOrder` | `src/bottle_net.py:388-432` | what is refused before anything new is given, and for what, in the order it is looked for: a bad port of the host's, a pool some foreign network has an address of, an entry no longer well placed, the first bad ssh port |
| `BottleNetAddresses.AdmissibleFleetsGrow` | `src/bottle_net.py:434-458` | otherwise it is refused exactly when some new bottle finds every block of the pool, or every port of the range, taken, or a port would be claimed twice; and given when none of these |
| `BottleNetAddresses.PoolIsRefusedIffShared` | `src/bottle_net.py:348-354` | the pool conflict is raised if and only if the host's ports are ports and some network without the bottle prefix has an address of the pool |
| `BottleNet.AddOneIsLowest` | `src/bottle_net.py:434-449` | one new entry: the lowest free block and port; refused a subnet exactly when no block is free |
| `BottleNet.AllocationIsSound` | `src/bottle_net.py:372-458` | a successful allocation serves every requested bottle (in addresses: `BottleNetAddresses.AllocatedIsWellPlaced`), adds nothing else, moves nothing, keeps subnets disjoint and claims each port once |
| `BottleNet.RunsStayDisjoint` | `src/bottle_net.py:372-496` | over any run of allocations and purges from an empty file subnets are pairwise disjoint and ports pairwise distinct |
| `BottleNet.NothingMoves` | `src/bottle_net.py:372-496` | an entry keeps its subnet and browser port for as long as nobody purges it |
| `BottleNetLaws.FreeWhileEntriesAreFewer` | `src/bottle_net.py:360-369` | with nothing in the way a block is free exactly while entries are fewer than blocks |
| `BottleNetLaws.SubnetsFitExactly` | `src/bottle_net.py:372-458` | with nothing of the host in the way and as many free ports as new bottles, an allocation runs out of subnets exactly when all entries together would be more than 2^(28 - prefix length), never runs out of ports, and succeeds exactly when they fit, if the asked ssh ports are free |
| `BottleNetLaws.AllocatingAgainChangesNothing` | `src/bottle_net.py:391-458` | repeating a successful allocation, with the bottles' own networks now present, succeeds with the same result |
| `BottleNetBatches.ABatchIsOneAtATime` | `src/bottle_net.py:372-458` | on a file with distinct ports a successful batch is its bottles allocated one at a time if and only if for every bottle neither the ssh port it asks for nor its new browser port is an old ssh port of a later bottle, and every lower port of the range that a later bottle asks for is |
| `BottleNetBatches.WithoutSshNothingSplits` | `src/bottle_net.py:420-449` | so it is whenever nobody asks for an ssh port and no old one lies in the browser range |
| `BottleNetBatches.AStaleSshPortSplitsABatch` | `src/bottle_net.py:420-449` | with an old ssh port on file inside the browser range the two can differ |
| `BottleNetObject.PutSshPorts` | `src/bottle_net.py:420-432` | phase 2: the first bad ssh port decides, else each is recorded |
| `BottleNetObject.AddNew` | `src/bottle_net.py:434-449` | phase 3 computes the first-fit growth |
| `BottleNetObject.CheckInternalPorts` | `src/bottle_net.py:470-482` | accepts exactly the allocations in which no port is two entries', or both ports of one |
| `BottleNetObject.BottleNets.AllocateFleet` | `src/bottle_net.py:372-458` | the answer, in addresses and ports: every requested bottle well placed, new ones lowest, nothing moved, or the refusal due first; the file is written once when the result differs and never when anything is refused |
| `BottleNetObject.BottleNets.Purge` | `src/bottle_net.py:485-496` | frees that entry alone and reports whether it was there |
| `Paging.CursorsCoverTheStart` | `src/egress_broker_host.py:1667-1698` | following cursors to a null one lists every place there was at the start, once each and newest first, whatever is decided between pages |
| `Paging.PagesListEveryDecidedRow` | `src/egress_store.py:1241-1282` | the same for a store while any store calls run between the pages: every row that, at the start, was decided within since and until by an ask of the container is listed |
| `Paging.CursorsListAll` | `src/egress_broker_host.py:1667-1698` | with nothing decided meanwhile the pages together are the whole listing |
| `Paging.CursorsEnd` | `src/egress_broker_host.py:1676-1681` | and then they end: full pages never outnumber what the rows fill |
| `Paging.ListingLists` | `src/egress_store.py:1268-1270` | the listing is strictly descending and has every place once |
| `Paging.TextLessIsTheOrderOfTexts` | `src/egress_store.py:1265-1270` | ids order as texts do: by the first character that differs, a beginning first |
| `Paging.RecentPage` | `src/egress_broker_host.py:1667-1698` | every place of the page is a row decided no earlier than since and no later than until, of the container asked for, decided before the cursor or at its time with an id that comes first; newest first; every other such row is listed after the cursor handed on, which is the last place of a full page and absent exactly when the page is short |
| `Sni.ExtractionFindsTheName` | `src/egress_broker.py:248-277` | for every well-formed ClientHello within the cap (section 3 of RFC 6066, sections 4.1.2 and 5.1 of RFC 8446), whatever follows it, extraction gives the name its server name extension carries |
| `Sni.TheHostNameComesBack` | `src/egress_broker.py:248-277` | the one ASCII host name a client sends comes back byte for byte |
| `Sni.NoServerNameNoName` | `src/egress_broker.py:274-277` | without the extension there is no name |
| `Sni.LaterBytesChangeNothing` | `src/egress_broker.py:248-256` | once the first record is whole, or refused, bytes after it change nothing |
| `Sni.ExtractSni` | `src/egress_broker.py:248-277` | total on every byte string, with every read in range; in bytes, what a short, foreign, oversized, incomplete or non-ClientHello record is refused for |
| `Sni.ParseExtensions` | `src/egress_broker.py:208-224` | the extension loop, on any bytes |
| `Sni.SniFromExtension` | `src/egress_broker.py:227-245` | the server name loop, on any bytes |
| `Sni.TlsRecordLength` | `src/egress_broker.py:193-205` | a record length is never longer than the bytes at hand |
| `Splitting.SplitRoundTrip` | `src/manifest.py:351-359` | a path is its components, joined |
| `Splitting.SplitOfJoin` | `src/manifest.py:519` | two texts joined with the separator have the parts of the first and then those of the second |
| `Splitting.PartsRoundTrip` | `src/manifest.py:351-359` | parts without the separator, joined, split into themselves again |
| `Mounts.StaticMountsAreTheTexts` | `src/manifest.py:134-142` | the mounts volumes are kept apart from, joined, are the texts the source lists |
| `Mounts.MountsReadBack` | `src/manifest.py:351-359` | and each text splits into that mount |
| `Mounts.TextOverlapIsNesting` | `src/manifest.py:351-359` | the overlap test holds exactly when the paths are the same or one lies inside the other |
| `Mounts.TextOverlapIsAPrefix` | `src/manifest.py:351-359` | letter by letter: the paths are the same, or one starts with the other followed by a slash |
| `Mounts.AdmitVolumes` | `src/manifest.py:1697-1728` | admits all volumes or stops with the first refusal in order |
| `Mounts.AdmittedIsWellPlaced` | `src/manifest.py:1697-1728` | volumes are admitted if and only if all are named well, strictly below the root, and apart from every mount and from each other |
| `Mounts.OneAdmitted` | `src/manifest.py:1711-1725` | one volume passes the root and clash tests exactly when it fits with what is there |
| `Mounts.TheRootTestAloneAdmitsHome` | `src/manifest.py:1711` | the root test alone lets a path above the root through |
| `Mounts.AStaticMountIsBelowTheRoot` | `src/manifest.py:134-142` | which is why a mount below the root is needed, and there is one |
| `Mounts.AdmitStateDirs` | `src/manifest.py:488-524` | admits the agents' state directories exactly when each fits with those before |
| `Mounts.StateMountsAreApart` | `src/manifest.py:514-524` | admitted state mounts are below the root and pairwise apart |
| `Mounts.AcceptedVolumesAreApart` | `src/manifest.py:1167-1171` | end to end: accepted plugin volumes are strictly below the root and apart from every compose mount, state mount and other volume |
| `HostsFile.StripIpv6Lines` | `src/hosts_ipv4.py:65-128` | the two loops compute the rewrite and the list of changed lines |
| `HostsFile.DropsExactly` | `src/hosts_ipv4.py:65-128` | a mapping is gone if and only if it is IPv6 and its name is a target with an IPv4 line; every other mapping stays |
| `HostsFile.RewriteDropsExactly` | `src/hosts_ipv4.py:65-128` | said of the file alone: a mapping goes if and only if its address has a colon, its name is listed, and some address without a colon is mapped to that name, whatever its case |
| `HostsFile.V4NamesAreMapped` | `src/hosts_ipv4.py:89-99` | the removable names are exactly the targets some IPv4 line maps |
| `HostsFile.NamesStayResolvable` | `src/hosts_ipv4.py:77-84` | every name that had an address still has one |
| `HostsFile.RebuiltReadsBack` | `src/hosts_ipv4.py:114-126` | a rewritten line reads back as its address, the surviving names and the comment it had |
| `HostsFile.EditsStayInPlace` | `src/hosts_ipv4.py:101-128` | lines keep their order |
| `HostsFile.RewriteIsIdempotent` | `src/hosts_ipv4.py:65-128` | a second rewrite changes nothing and reports nothing |
| `HostsFile.TextIsIdempotent` | `src/hosts_ipv4.py:131-144` | nor does rewriting the written text of the file |

## Left out

- The legacy JSONL import, SQLite, its schema migration and its JSON columns: the store starts as a map of rows and a log.
- HTTP handlers, tokens, cookies, argument parsing, logging, notifications and process supervision.
- decide_allow_for_zone and decide_deny_for_zone: sequences of decisions the machine already has as separate calls.
- The transparent broker polls the id it generated itself rather than the id in the pending body
  (src/egress_broker.py:886-889), so what a coalesced filer learns is stated for `request_host` only.
- is_ip_literal, zone normalisation and the bottle-exists check: choices of the environment or the caller's; a persist order
  names the global scope or one bottle.
- The order in which a sweep goes through its rows: the machine allows every order, the methods use some order.
- Replacements of the denylist file by programs that ignore the file lock: in `Protocol` anybody may replace the file at any
  time, and a check reads some version no older than the one current when it began; that a reader does so is proved in
  `DenyFile`, for writers that take the file lock.
- An entry on file without a creation time reads with one fixed time; the source takes the time of each read.
- Methods of the broker, store, denylist and hub classes run uninterrupted; interleavings are proved about the machines.
- In `DenyFile` and `Broker.EgressBroker.PersistDeny` added entries have a zone, a scope and an author, which the callers
  supply; `DenyListObject.DenyList.Add` says what happens to others.
- The hub's change key and frame text: a key is opaque, and a frame is its version and key.
- Condition variable timing: a poller's wait may end at any time.
- Sleeping heartbeats, socket errors and write timeouts of the stream handler.
- The order of bottle names is a parameter of the allocator; the source sorts them, and no result depends on which order it is.
- CIDR and port text parsing, the allocation file's JSON and its lock file: the lock is a flag the caller holds.
- Mounts: a `.` segment is a component like any other, as in the source; paths are not resolved. State mounts are not compared
  with compose's own mounts, because the source does not.
- Lower case is that of ASCII letters, whitespace is space, tab and line ends, and lines end at newlines only.
- TLS records longer than one, or a ClientHello split over records, as in the source.
- The rest of `src/manifest.py`, the backup, tunnel, jump, tmux and freshness tools, plugins and the user interface.
