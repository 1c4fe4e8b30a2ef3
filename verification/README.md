# Verified model of the residents' backend: live events, caching, work claims and tooling

A Dafny project that models the parts of the backend whose behaviour is easiest to get wrong and
hardest to see: the event hub between the outbox table and the browsers, the single-flight cache,
two protocols by which processes claim work from a table, and the scripts that rewrite documents.
`dafny verify dfyconfig.toml` checks everything.

## What is modelled

**The event hub** (`Audience`, `Outbox`, `Events`, `Hub`, `HubInvariant`, `HubTheorems`,
`HubReconnect`, `HubLosses`, `HubFrames`, `Realtime`, `EventStream`, `HubStream`). Writers commit rows to an outbox whose ids
rise; a prune job deletes the oldest; one poller with one cursor fans batches out to bounded queues;
each connection attaches, probes the low-water mark, reads a backfill, and then yields frames. `Hub`
is the step system over all of these, one step per await point, in any interleaving. `Realtime` holds
the hub's two objects in the code's own form, proved against the functions the step system is built
from. `EventStream` renders frames as text and reads them back by sections 9.2.5 and 9.2.6 of the WHATWG
HTML Standard.

**The cache** (`Dict`, `TtlCache`, `CacheThreads`, `CacheInvariant`, `CacheValues`, `CacheFlight`,
`CacheTheorems`, `CacheOverlap`, `CacheAnswers`, `CacheCoherence`). `TtlCache` is the class with its two dictionaries and its eviction loop;
`CacheThreads` is the same code taken apart at the store lock, with any number of threads, per-key
locks, a clock, and a history that says which lock span a thread belongs to.

**Work claims** (`Dispatch`, `DispatchTheorems`, `DispatchLeases`, `Dispatcher`, `Push`, `PushTheorems`,
`PushRecipients`, `PushSender`).
The dispatcher leases rows and fires them; the push sender marks notifications sent before it sends
them. Each database function is one atomic transition, written from its SQL under
`backend/supabase/migrations`; processes may die between any two transitions.

**Tooling** (`Text`, `ApiMap`, `ApiMapTheorems`, `ApiMapMeaning`, `Mapper`, `MapperRows`, `MapperTables`,
`MapperTheorems`, `MapperKeeps`, `MapperText`, `MapperBuild`, `MapperRun`, `MapperCells`, `Scanner`, `SchemaGc`).
The regenerator of the mapper's tables, down to the characters of a row; the scanner of JavaScript
calls; the collector of unused schemas in the OpenAPI document.

**Smaller loops** (`Base64`, `WebSession`, `Retry`, `Grouping`).

## Where the code differs from what is said of it

The model follows the code.

- `backend/app/repositories/dashboard_repository.py:391-392` says a value that fails the whitelist
  *widens* the query. It drops a clause of an `or`, which narrows it: `Audience.NarrowingNeverWidens`.
- The same filter is not equal to `accepts` on every row the table allows: a row addressed to `Admin`
  is delivered live and never replayed. `Audience.NarrowingExact` gives the exact condition on a row.
- `backend/app/core/dispatcher.py:8-37` promises that no work is dropped, and retirement after five
  failures. Attempts are counted when a row is claimed, so five leases cut short by crashes leave a
  row open and never claimable again (`FiveCrashesLoseATask`), and one recorded failure after four
  such leases retires it (`OneFailureRetires`). `LostExactly` and `RetiresExactly` are the exact conditions.
- `backend/app/core/ttl_cache.py:106-140`: two loader runs for one key can overlap (`OverlapHappens` is a
  run from the empty cache). Without a further removal of the key, another run can come to overlap one that is
  alone exactly when the key is not stored and that run, or a get still to look a second time, goes by a lock from
  before the key's last removal (`JoinsExactly`); one removal is always enough (`RemovalAdmitsOverlap`).
- `backend/app/core/ttl_cache.py:137-160`: a get that begins after a removal can still be answered with a value
  read before it, exactly when some load of the key lies between its read and its store at that
  moment (`RemovalIsCoherentExactly`, for all three ways of removing; `LoadHappens` reaches such a moment).
- `backend/app/core/push.py:8-33` counts on losing a buzz when a sender crashes. It also loses the rest of a
  claimed batch when one recipient's browsers cannot be read: `LetGoIsLost`.
- A reconnect can lose rows in silence. `ReachesExactly` says of every due row, in every run, that it
  reaches the client exactly when the live feed passed it on or an answered read found it, still
  retained, behind fewer than a hundred of the client's rows; `SilentLossExactly` says exactly when a loss goes
  unannounced, and `ReconnectIsWhole` what that leaves where only the cap can hurt. `HubLosses` has a run for each
  of the other ways: a prune between probe and read, a prune that empties the table, a failed read, a
  failed probe over a gap, a cursor seeded after the read, and a prune that overtakes the poller.
- `backend/scripts/regen_mapper.py` is meant to reach a fixed point. `CellSettlesExactly` and
  `RegenerationSettles` say exactly when it does: a second reference at the end of a cell whose caption no
  longer resolves, two headings that read alike, or a column bar in a heading, undo it.
- `backend/scripts/export_openapi.py:440-458` searches neither shared parameters nor request bodies,
  so a reference there can be left dangling (`ClosedExactly`, `ParameterLeftDangling`); it finds names
  by prefix (`LongerNameKeepsShorter`); and it keeps cycles nothing reaches (`CycleIsKept`, `KeptExactly`).
- `backend/app/core/supabase_client.py:92` is reached when the bound on retries is negative.

## Model

| member | source | states |
|---|---|---|
| Audience.NarrowMeaning | backend/app/repositories/dashboard_repository.py:398-407 | A row passes the narrowing exactly when it is community-wide, or lists the role and the role is whitelisted, or names the membership and its id is whitelisted |
| Audience.NarrowExactly | backend/app/repositories/dashboard_repository.py:394-432 | The narrowing in terms of the columns and of the two whitelists themselves |
| Audience.NarrowingNeverWidens | backend/app/core/realtime.py:132-155 | Whatever the role and however malformed the identity, Postgres hands over only rows that `accepts` admits |
| Audience.NarrowingExact | backend/app/repositories/dashboard_repository.py:394-432 | Narrowing before the cap agrees with `accepts` for every canonical membership if and only if the row lists its role words folded |
| Audience.CapitalisedRoleIsNotReplayed | backend/app/core/realtime.py:143-155 | A shape-valid row that is accepted live and not replayed |
| Outbox.ReadEventsSinceIsASlice | backend/app/repositories/dashboard_repository.py:435-450 | A poll returns one contiguous run of the retained log past its cursor, empty only at the end of the log |
| Outbox.OldestTellsTheGap | backend/app/repositories/dashboard_repository.py:463-477 | When some row past `last` was pruned, the oldest retained id exceeds `last + 1` exactly if anything is retained |
| Events.PutAllMeaning | backend/app/core/realtime.py:157-167 | Pushing a batch keeps its longest prefix that fits, in order, and raises the debt exactly when something did not fit |
| HubInvariant.StepKeepsInv | backend/app/core/realtime.py:205-379 | The hub's invariant survives every step of every actor |
| HubInvariant.ReachableInv | backend/app/core/realtime.py:205-379 | It holds after every run, from any table and any batch size |
| HubTheorems.DropDebt | backend/app/core/realtime.py:289-304 | Over all interleavings a dispatched, accepted row is in hand, framed or queued, or else lost with a resync owed or yielded after the loss, never both; nothing else arrives, and a blocked connection with a debt has a non-empty queue of at most 64 |
| HubTheorems.DebtIsRepaid | backend/app/core/realtime.py:289-304 | A lagging connection left to itself yields its whole queue in order and then exactly one resync carrying the last id |
| HubTheorems.PollerIsExact | backend/app/core/realtime.py:205-254 | What was dispatched and what the prune job overtook are together the log rows from the seed to the cursor, each once and in order; the dispatch misses nothing if and only if nothing was overtaken |
| HubTheorems.CursorNeverMovesBack | backend/app/core/realtime.py:205-254 | Over any run the cursor never decreases and no dispatch is taken back |
| HubReconnect.OnlyEntitledFrames | backend/app/core/realtime.py:241-254 | Every event frame on a stream, live or replayed, is a row of the connection's community that `accepts` admits; replayed ones lie past the client's last id |
| HubFrames.FramesAreRows | backend/app/core/realtime.py:382-388 | In every run each event frame, live or replayed, carries a row of the table addressed to its connection by community and audience: the row's own id, its topic or the default, its object or the wrapped value |
| HubFrames.AddressedRowsReach | backend/app/core/realtime.py:258-379 | And a row so addressed, past the client's last id and behind the cursor, is delivered under its own topic and payload exactly when the live feed or the backfill brought it |
| HubFrames.ResyncsAreNotices | backend/app/core/realtime.py:96-112 | In every run each resync frame tells its client to read again, under the topic its role listens to, and stands first under the client's own last id or behind a live event under that event's id |
| HubFrames.IdleMeansIdle | backend/app/core/realtime.py:205-239 | The poller reads only while somebody is connected, a keepalive goes out only with nothing queued, and a connection that has gone is out of the fan-out |
| HubReconnect.PrunedGapIsAnnounced | backend/app/core/realtime.py:313-357 | If the probe answered and rows were left, a pruned row past the last id makes the first frame a resync with that id |
| HubReconnect.AnnouncedIsFirst | backend/app/core/realtime.py:341-357 | An announced gap is the first frame of the stream, under the client's own last id |
| HubReconnect.DeliveredExactly | backend/app/core/realtime.py:278-304 | A due row reached the client if and only if it was dispatched after the attach or returned by the backfill read |
| HubReconnect.ReachesExactly | backend/app/core/realtime.py:258-379 | For every reconnect in every run, whatever failed or was pruned: a due row the cursor has passed reaches the client if and only if it lies past the live floor and no prune overtook it since the attach, or an answered read found it committed, unpruned and behind fewer than a hundred of the client's rows |
| HubReconnect.CompleteExactly | backend/app/core/realtime.py:258-379 | The client has everything due to it if and only if no due row was missed by both |
| HubReconnect.SilentLossExactly | backend/app/core/realtime.py:313-379 | Something is lost unannounced if and only if some due row was missed by both and the probe saw no gap: it failed, or met an empty table, or found the next id still there |
| HubReconnect.ReconnectIsWhole | backend/app/core/realtime.py:258-379 | An undisturbed reconnect gives the client every row owed to it if and only if at most a hundred were owed below the live feed, or its gap was announced |
| HubLosses.PruneBetweenProbeAndRead | backend/app/core/realtime.py:341-379 | A reachable state in which a prune between probe and read loses a row without a resync |
| HubLosses.SeedAfterRead | backend/app/core/realtime.py:205-239 | A reachable state in which a cursor seeded after the backfill read skips a committed row |
| HubLosses.EmptiedOutbox | backend/app/core/realtime.py:341-357 | A reachable state in which a prune of the whole table, before an answered probe, loses a row in silence |
| HubLosses.FailedRead | backend/app/core/realtime.py:358-379 | A reachable state in which a failed backfill read loses a row in silence though nothing was pruned |
| HubLosses.FailedProbe | backend/app/core/realtime.py:341-357 | A reachable state in which a failed probe keeps a pruned gap to itself |
| HubLosses.PruneOvertakesThePoller | backend/app/core/realtime.py:205-254 | A reachable state in which a prune takes a row from the live feed of a connected client in silence |
| Realtime.Subscriber.Push | backend/app/core/realtime.py:157-167 | Enqueues when there is room and raises the debt otherwise, never blocking |
| Realtime.Subscriber.Settle | backend/app/core/realtime.py:300-304 | Pays the debt exactly when it is owed and the queue is empty |
| Realtime.RealtimeHub.Attach | backend/app/core/realtime.py:278-284 | The subscriber joins its community's group and nobody else moves |
| Realtime.RealtimeHub.Detach | backend/app/core/realtime.py:305-311 | The subscriber leaves, and an emptied group with it |
| Realtime.RealtimeHub.Fetch | backend/app/core/realtime.py:223-239 | Seeds an unseeded cursor at the high-water mark without a batch, otherwise reads the next batch |
| Realtime.RealtimeHub.Dispatch | backend/app/core/realtime.py:241-254 | Every connected subscriber is given, in order, the batch's rows it is to hear, and only events carrying rows addressed to it; each addressed row is enqueued unless something was dropped; the cursor becomes the larger of itself and the batch's last id |
| EventStream.StreamRoundTrip | backend/app/core/realtime.py:82-93 | A browser's parser recovers exactly the topics, bodies and ids of any list of frames, and nothing from keepalives |
| EventStream.EventsSurvive | backend/app/core/realtime.py:295-304 | With a printer that has an inverse, the client has the very events that were framed |
| HubStream.BrowserReadsRows | backend/app/core/realtime.py:82-93 | In every run the browser reads off the stream, at the place of each event frame, a message with the id, the topic and, once parsed, the payload of a row of the table addressed to it |
| EventStream.HubFramesAreTopical | backend/app/core/realtime.py:382-388 | Every event the hub makes of a row with a one-line topic carries that row and satisfies the hypothesis of the round trip, as does every resync |
| EventStream.BrokenTopicIsCut | backend/app/core/realtime.py:82-93 | A topic over two lines is cut, so one-line topics are needed |
| TtlCache.TTLCache.Read | backend/app/core/ttl_cache.py:85-99 | Answers a live entry unchanged, and drops an aged one from both maps |
| TtlCache.TTLCache.GetOrLoad | backend/app/core/ttl_cache.py:106-135 | A live entry is answered without running the loader; a miss runs it once, and of what is then stored the newest `maxEntries` stay; a raise stores nothing |
| TtlCache.TTLCache.StoreLoaded | backend/app/core/ttl_cache.py:127-134 | The eviction loop leaves exactly the newest insertions that fit |
| TtlCache.TTLCache.InvalidateWhere | backend/app/core/ttl_cache.py:142-154 | Removes exactly the accepted keys and keeps the order of the rest |
| TtlCache.EvictionTakesTheOldest | backend/app/core/ttl_cache.py:127-134 | In sequential use nothing evicted for capacity is younger than anything kept |
| TtlCache.LoadAnswers | backend/app/core/ttl_cache.py:106-135 | As a timestamped map: the loaded key answers while it lives, other keys as before unless capacity took them |
| CacheTheorems.StepKeepsInv | backend/app/core/ttl_cache.py:77-160 | Lock table, per-thread locks, stored values and lock spans stay consistent over every atomic section |
| CacheTheorems.OverlapNeedsARemoval | backend/app/core/ttl_cache.py:77-135 | Two loader runs for one key overlap only across a removal of that key after one of them fetched its lock |
| CacheOverlap.JoinsExactly | backend/app/core/ttl_cache.py:77-160 | With no further removal of the key, another loader run can come to overlap a given one if and only if one does already, or the key is not stored and the given run, or a get between its lock fetch and its second look, goes by a lock from before the last removal |
| CacheOverlap.RemovalAdmitsOverlap | backend/app/core/ttl_cache.py:106-140 | In every reachable state one removal lets another run overlap a run in progress |
| CacheOverlap.OverlapHappens | backend/app/core/ttl_cache.py:106-140 | A state reachable from the empty cache in which two loader runs for one key overlap |
| CacheTheorems.OneRunPerSpan | backend/app/core/ttl_cache.py:106-135 | Between two removals at most one non-raising loader run begins, and once it stored its value the key stays stored |
| CacheTheorems.WaiterIsAnsweredByTheWinner | backend/app/core/ttl_cache.py:118-124 | A waiter gets the winner's value without a loader run, unless the entry is older than the time to live or was overwritten from an earlier span |
| CacheTheorems.BoundedAndTidy | backend/app/core/ttl_cache.py:63-104 | After every step the store is within its bound, and a lock outlives its key only in flight or after a raise |
| CacheTheorems.BoundedStaleness | backend/app/core/ttl_cache.py:85-99 | Every answer was read no earlier than now less the time to live less the delay from read to store |
| CacheAnswers.LookExactly | backend/app/core/ttl_cache.py:85-116 | The first look answers with a stored item no older than the time to live and changes nothing; without one it misses, and the key is gone |
| CacheAnswers.RecheckExactly | backend/app/core/ttl_cache.py:119-124 | The second look does the same, and a miss starts the loader |
| CacheAnswers.StoredAnswersWhileLive | backend/app/core/ttl_cache.py:106-135 | From a store on, until a removal, a later store, an eviction for room or more than the time to live, every get of the key is answered with that value at its next look |
| CacheAnswers.AgedIsMissed | backend/app/core/ttl_cache.py:94-98 | Once more than the time to live has gone by the next first look misses and the key is gone |
| CacheAnswers.LoadedIsAnswered | backend/app/core/ttl_cache.py:126-135 | Over every run a get whose loader has read a value is answered with that value |
| CacheCoherence.QuietRemovalIsCoherent | backend/app/core/ttl_cache.py:137-160 | If no load of the key lies between read and store when it is removed, in any of the three ways, every later get returns a value read after the removal |
| CacheCoherence.RemovalIsCoherentExactly | backend/app/core/ttl_cache.py:137-160 | And only then: otherwise some later get is answered with an older value |
| CacheOverlap.LoadHappens | backend/app/core/ttl_cache.py:106-126 | A reachable state with a load between its read and its store; the failing side of the row above is met |
| DispatchTheorems.AppliedAtMostOnce | backend/app/core/dispatcher.py:8-37 | Over all runs of any number of processes an action is committed at most once, and exactly when its row is complete by it |
| DispatchTheorems.SecondFiringIsIdle | backend/app/repositories/dispatch_repository.py:40-49 | Firing an applied row again changes nothing, even if that firing reports an error |
| DispatchTheorems.LostExactly | backend/app/core/dispatcher.py:99-155 | A row becomes unclaimable and unheld by exactly one kind of step: the last holder of its fifth lease lets go without recording a failure |
| DispatchTheorems.LostForGood | backend/supabase/migrations/0045_departure_scheduling.sql:541-574 | Such a row stays so until somebody re-arms, closes or deletes it |
| DispatchTheorems.NothingElseIsLost | backend/app/core/dispatcher.py:8-37 | Every other row is complete, held, or claimable from a known moment on; what claimable means is `DispatchLeases.NoneLeftBehind` |
| DispatchTheorems.RetiresExactly | backend/supabase/migrations/0037_dispatch_engine.sql:367-400 | A row retires exactly when a failure is recorded on its fifth lease or later |
| DispatchTheorems.FiveCrashesLoseATask | backend/supabase/migrations/0045_departure_scheduling.sql:541-574 | A reachable queue with a row lost without any recorded failure |
| DispatchTheorems.OneFailureRetires | backend/supabase/migrations/0037_dispatch_engine.sql:367-400 | A reachable queue with a row retired by its first recorded failure |
| DispatchLeases.ClaimedAreDue | backend/supabase/migrations/0045_departure_scheduling.sql:554-574 | A claim hands out only rows that are open, due, not leased within 300 seconds and tried fewer than five times, and leases each now |
| DispatchLeases.NoneLeftBehind | backend/supabase/migrations/0045_departure_scheduling.sql:554-574 | And every such row nobody has locked, unless the batch is full of rows of a higher priority, or of the same and due no later |
| DispatchLeases.ClaimsLieApart | backend/supabase/migrations/0045_departure_scheduling.sql:541-574 | Over every run two claims of a row with no recorded failure and no re-arm between them lie more than 300 seconds apart |
| DispatchLeases.OneLeaseAtATime | backend/supabase/migrations/0045_departure_scheduling.sql:541-574 | At every moment of every run at most one process was handed a row in the last 300 seconds, unless its lease was given back |
| DispatchLeases.EnqueuedIsClaimedWhenDue | backend/supabase/migrations/0045_departure_scheduling.sql:473-504 | A new row is taken by an unfilled claim exactly from its due time on |
| DispatchLeases.RearmedIsClaimedWhenDue | backend/supabase/migrations/0045_departure_scheduling.sql:487-500 | A re-armed row starts over with its new time and priority and no attempts, lost or not |
| DispatchLeases.FailedIsClaimedAtOnce | backend/supabase/migrations/0037_dispatch_engine.sql:376-400 | A recorded failure keeps 500 characters of its error and frees the row for the very next claim |
| DispatchLeases.ClosedForGood | backend/supabase/migrations/0037_dispatch_engine.sql:359-371 | Over every run a closed row is never claimed or fired again |
| Dispatcher.Dispatcher.RunBatch | backend/app/core/dispatcher.py:99-155 | Every row of a claimed batch is fired, whatever its neighbours did, and each is settled by its own outcome |
| Dispatcher.RowsAreIndependent | backend/app/core/dispatcher.py:126-155 | A batch of distinct rows ends as each row's own outcome alone decides, and no other row moves |
| Dispatcher.BatchRun | backend/app/core/dispatcher.py:99-155 | In the step system the loop over a batch is always enabled to its end and leaves the table as `RunBatch` does |
| PushTheorems.AtMostOnce | backend/app/core/push.py:8-33 | Over all runs a notification is claimed at most once, by one sender, and posted at most once to any one browser |
| PushTheorems.CarriedThrough | backend/app/core/push.py:141-181 | A sender that lives through a notification posted it exactly once to every browser it set out for, whatever each answered |
| PushRecipients.SetsOutExactly | backend/app/repositories/push_repository.py:95-104 | A sender sets out for an endpoint if and only if it is registered at that moment to the notification's recipient |
| PushRecipients.PostedToRecipientsOnly | backend/app/core/push.py:141-181 | Over every run whatever was posted was posted to a browser that belonged to the recipient when its sender set out |
| PushRecipients.EveryBrowserIsPosted | backend/app/core/push.py:141-181 | Every browser the recipient had then has been posted to exactly once when that sender is through |
| PushRecipients.RecordedAsAnswered | backend/app/core/push.py:184-207 | Over every run what is recorded of a browser is what its own post was answered |
| PushRecipients.LetGoIsLost | backend/app/core/push.py:114-131 | What a sender still had when it died, or when reading a recipient's browsers failed, is posted to nobody from then on in any run |
| PushRecipients.NotifiedIsPosted | backend/app/core/push.py:141-207 | A run from the empty tables in which a person told within the hour is posted to |
| PushRecipients.ClaimedExactly | backend/app/repositories/push_repository.py:107-115 | A claim takes unmarked notifications of the last 3600 seconds, oldest first when the batch is full, and no others |
| PushTheorems.PostedIsNeverClaimedAgain | backend/app/repositories/push_repository.py:107-115 | No later claim returns a posted notification |
| PushTheorems.RemovedExactly | backend/app/repositories/push_repository.py:118-134 | A browser leaves the table exactly when removed by its owner, answered 404 or 410, or given its fifth failure in a row |
| PushTheorems.SiblingsAreUntouched | backend/app/core/push.py:175-181 | Posting to or recording about one browser leaves every other's post possible and its record as it was |
| PushSender.PushSender.Deliver | backend/app/core/push.py:141-207 | In whatever order the threads run, one post for every browser the recipient has in the table and none for any other, each ending as its own answer says |
| ApiMapTheorems.CellSettlesExactly | backend/scripts/regen_mapper.py:131-149 | The reference cell a run writes is written again by the next run if and only if it was settled |
| ApiMapTheorems.DistinctHeadingsSettle | backend/scripts/regen_mapper.py:141-149 | With distinct headings free of column bars every new cell is settled at once |
| ApiMapMeaning.HeadingsExactly | backend/scripts/regen_mapper.py:98-105 | The headings are exactly the lines of two to four hashes, a space and a text, each under its line number counted from 1 |
| ApiMapMeaning.ReferenceExactly | backend/scripts/regen_mapper.py:136-137 | A reference is taken off a cell exactly when it ends in one, and what precedes it is left |
| ApiMapMeaning.ResolveExactly | backend/scripts/regen_mapper.py:108-128 | A label leads to the first heading that bears it, else to the first that begins alike, else to the first under its section number, else nowhere |
| ApiMapMeaning.OldCellExactly | backend/scripts/regen_mapper.py:131-139 | An existing cell keeps its words: unchanged where marked missing, otherwise its caption with the line looked up again or alone |
| ApiMapMeaning.NewCellExactly | backend/scripts/regen_mapper.py:141-149 | A new cell quotes the first third-level heading that ends with a spelling of the path, with its line, or says there is none |
| MapperRows.CellsOfRow | backend/scripts/regen_mapper.py:152-157 | A written row reads back cell by cell, a bar in the last cell cutting it there |
| MapperRows.OperationRead | backend/scripts/regen_mapper.py:238-241 | The first cell of a written row quotes its own operation |
| MapperRows.KeepBoldTwice | backend/scripts/regen_mapper.py:178-182 | Bold is kept once and for all |
| MapperRows.RowAgain | backend/scripts/regen_mapper.py:254-269 | A row is written again unchanged if and only if its reference cell is settled |
| MapperTables.TableAgain | backend/scripts/regen_mapper.py:249-273 | A second run over a written table drops and adds nothing, and rewrites it unchanged if and only if every row is settled |
| MapperTables.KeptOrDropped | backend/scripts/regen_mapper.py:160-175 | Every operation a table listed is taken over by a live row or reported as dropped, never neither |
| MapperTheorems.RunAgain | backend/scripts/regen_mapper.py:207-275 | A second run over written lines never fails and changes nothing if and only if all rows were settled |
| MapperKeeps.RunKeepsAndLists | backend/scripts/regen_mapper.py:207-275 | Lines outside the written tables are kept in order, and the tables list exactly what is due |
| MapperKeeps.OrdinaryRowSettles | backend/scripts/regen_mapper.py:131-149 | A row with at most one reference and a caption that is not blank settles at once |
| MapperKeeps.DoubledReferencePeels | backend/scripts/regen_mapper.py:131-139 | The failing family: against any headings that know neither the caption nor its once-referenced form, each run takes one reference off a doubled cell |
| MapperText.TextAgain | backend/scripts/regen_mapper.py:207-275 | The same for whole texts, with any line endings and any last line |
| MapperBuild.Build | backend/scripts/regen_mapper.py:185-204 | The loop files every specified route under its section with its facts and sorts each section; what the facts are is `MapperCells.RowsShowTheirRoutes` |
| MapperBuild.TablesAreComplete | backend/scripts/regen_mapper.py:185-204 | A section's keys are exactly its specified live operations, once each, ascending by path and then method |
| MapperRun.RewriteLines | backend/scripts/regen_mapper.py:207-275 | The loop over lines computes the rewriting the theorems are about, or fails with it |
| MapperRun.Regenerate | backend/scripts/regen_mapper.py:207-275 | The whole script over texts computes the rewriting the theorems are about, or fails with it |
| MapperRun.RegenerationSettles | backend/scripts/regen_mapper.py:207-275 | For any document, reference and application, running twice is running once if and only if every row was settled |
| MapperRun.TidyDocumentIsFixed | backend/scripts/regen_mapper.py:207-275 | With distinct headings free of column bars and at most one reference to a cell, the rewriting succeeds and rewriting again changes nothing |
| MapperRun.RegenerationIsExact | backend/scripts/regen_mapper.py:185-275 | Outside lines are unchanged and each table lists its section's live operations once, by path and method |
| MapperCells.RowsShowTheirRoutes | backend/scripts/regen_mapper.py:185-269 | For any document and application each written table has one row for every specified route of its section and no other; the row shows the operation, the route's own handler and line, its own operationId, its own answer or the bold form an old row had, and the old row's reference looked up again or a new one |
| MapperCells.PreviousExactly | backend/scripts/regen_mapper.py:160-175 | The row taken over is the last that quotes the operation, or else the last that quotes its path in camelCase |
| MapperCells.SectionExactly | backend/scripts/regen_mapper.py:217-219 | A section is opened exactly by three hashes and a quoted file name below `backend/` |
| MapperCells.KeyOrderExactly | backend/scripts/regen_mapper.py:65-66 | Rows go by path, character by character, and within a path from get to delete |
| Scanner.ReadLiteral | backend/scripts/frontend_api_sweep.py:61-87 | The loop computes the literal's value and end that the grammar theorems speak of |
| Scanner.FindCallEnd | backend/scripts/frontend_api_sweep.py:90-111 | The loop computes the call end, past the open parenthesis and within any text |
| Scanner.CallEndIsExact | backend/scripts/frontend_api_sweep.py:90-111 | For every call of the grammar, anywhere in any text, the end found is one past the matching parenthesis |
| Scanner.LiteralIsExact | backend/scripts/frontend_api_sweep.py:61-87 | Every literal of the grammar is read to its closing quote and yields its characters, nothing for an escape, and for an interpolation a parameter segment unless it builds a query string |
| Scanner.MethodIsItsOwn | backend/scripts/frontend_api_sweep.py:114-118 | A call's method depends on its own text alone |
| Scanner.MethodExactly | backend/scripts/frontend_api_sweep.py:114-118 | The method is the one the function names; of any other function the first its own call says, in lower case; and otherwise get |
| SchemaGc.Document.DropUnreferenced | backend/scripts/export_openapi.py:440-458 | The waves end in the greatest choice that keeps every non-candidate and only referenced candidates; no string of another part, a shared response or a schema left refers to a removed name, and some such string refers to every candidate kept |
| SchemaGc.OrderDoesNotMatter | backend/scripts/export_openapi.py:448-458 | That choice is unique, so removal order cannot matter |
| SchemaGc.KeptExactly | backend/scripts/export_openapi.py:440-458 | A candidate is kept if and only if it is reached from what is searched or led to from a cycle of schemas |
| SchemaGc.AcyclicKeepsExactlyReached | backend/scripts/export_openapi.py:440-458 | Without cycles among candidates, what is kept is exactly what is reached from outside them |
| SchemaGc.CycleIsKept | backend/scripts/export_openapi.py:448-458 | Two candidates that refer to each other are always kept |
| SchemaGc.LongerNameKeepsShorter | backend/scripts/export_openapi.py:454-456 | A reference to a longer name keeps a candidate whose name it begins with |
| SchemaGc.ClosedExactly | backend/scripts/export_openapi.py:451-456 | The document is left referring to a removed name if and only if a section left out of the search mentions a candidate that is neither reached from what is searched nor led to from a cycle of schemas |
| SchemaGc.ParameterLeftDangling | backend/scripts/export_openapi.py:451-456 | Such a document |
| Base64.RoundTrip | backend/app/core/web_session.py:57-73 | For every length, unpadded base64url with `==` appended decodes to the bytes it came from |
| Base64.StrangersAreSkipped | backend/app/core/web_session.py:70-73 | Characters outside the alphabet are skipped wherever they stand |
| WebSession.SignedVerifies | backend/app/core/web_session.py:54-78 | A signed payload verifies, field by field, to itself with its expiry up to that expiry, and is refused after it |
| WebSession.AcceptedExactly | backend/app/core/web_session.py:66-78 | A token of any body and signature verifies to a payload if and only if the signature is the digest of the encoded body, the body parses to that payload, and it has not expired |
| WebSession.OtherBodyExactly | backend/app/core/web_session.py:66-78 | Under a signature made for one body another is accepted if and only if the two digests are equal and the other parses and is live |
| WebSession.RefusedExactly | backend/app/core/web_session.py:66-78 | A value is missing exactly when it has no two parts, and invalid exactly when a part does not decode or the body does not parse |
| Retry.Transport.HandleRequest | backend/app/core/supabase_client.py:71-92 | At most `n + 1` attempts, each after the first following a transient failure that this method may repeat, the answer is the last attempt's, at most one attempt of a non-idempotent request may have arrived, and the assertion is reached exactly for a negative bound |
| Retry.ArrivedTwice | backend/app/core/supabase_client.py:74-77 | Only a request safe to replay can arrive twice |
| Grouping.CollapseSeries | backend/app/repositories/amenities_repository.py:303-311 | The loop keeps each request's first row |
| Grouping.FirstDaysAreFirst | backend/app/repositories/amenities_repository.py:303-311 | The kept rows are the first rows of their requests, one for each, in order |
| Grouping.CarriesTheEarliestDay | backend/app/repositories/amenities_repository.py:265-311 | In the query's order each kept row has its request's earliest day |
| Grouping.PagesAre | backend/app/repositories/amenities_repository.py:310-311 | Consecutive pages concatenate to a prefix of the list, and to all of it once they reach its end |
| Grouping.ListFinancialEvents | backend/app/repositories/amenities_repository.py:639-646 | The loop groups the events that have a charge by the charge's occurrence |
| Grouping.FinancialEventsArePartitioned | backend/app/repositories/amenities_repository.py:602-646 | The joined events are divided among their occurrences in order, none lost and none doubled |
| Grouping.GroupsAreOfTheirOccurrence | backend/app/repositories/amenities_repository.py:602-646 | An occurrence's group holds, in order, exactly the events whose charge is one of its own, each with the kind of its own charge |
| Grouping.ListEngagements | backend/app/repositories/hiring_repository.py:220-252 | The loop and the sort compute the sorted join |
| Grouping.JoinedIsLeftJoin | backend/app/repositories/hiring_repository.py:220-250 | One row for each roster entry naming both places, in order, beside the department, community and role that match it |
| Grouping.SortedJoin | backend/app/repositories/hiring_repository.py:251-252 | Sorted by community name, with equal names in roster order and no row lost or doubled |

## Left out

- HubInvariant.StepKeepsInv: it and every theorem on the hub assume that outbox rows become visible in id order (`Hub.Commit` takes only a larger id), which the database does not promise: ids are drawn before commit, and a row that commits late below the cursor would be skipped.
- Starting and stopping the poller, `wait_for` cancellation races and heartbeat timing: each await point is one atomic step, and a heartbeat may fall wherever the queue is empty.
- The poller's task itself dying: `_run` survives every exception, which the model has as a failed poll.
- Python's `$` before a trailing newline and case folding outside ASCII in the audience whitelist.
- A negative `max_entries`: the class is modelled for a natural bound.
- Starvation: a connection is shown to pay its debt when left to itself, not under endless dispatch.
- Building a service client outside the `try` of `_fire`, and the logging of failures.
- Row-level security, triggers and the bodies of the fired actions: a firing commits its action or does not.
- pywebpush, VAPID and payload encryption: a post has an answer, and that is all.
- HMAC and JSON: abstract functions, JSON with an inverse, the digest with nothing assumed.
- A payload whose expiry is not a number: `verify_payload` raises an error it does not handle, which the model names and says nothing more about.
- Word and digit classes of the scripts' regular expressions outside ASCII.
- `_success_cell` and the reading of the live application: their results are inputs of `MapperBuild.Build`, assumed free of column bars and line breaks, as paths are of white space.
- The printing of the regenerator's notes, and its `--check` mode.
- `_normalise` and `_matches` of the sweep: single expressions over finite splits.
- YAML's quoting of names that are not identifiers: a reference is found as a string in a part.
- `sum_outstanding_by_unit`, `list_series_dates` and `list_guests`: the first sums floats, the others are `Grouping.Group`.
- Cookies, CSRF and session establishment, which only set headers.
- PostgREST and HTTP: a query is its rows, and the scan limits of the amenity queries cut those rows before grouping.
- React, the service worker and the data tables of the annotation scripts.
