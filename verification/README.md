# Globalping, verified

A cluster of API workers serves measurements from a network of volunteer probes. The workers share
their state through Redis, SQL and sockets, and every `await` lets other tasks run. This project models
the parts of that code where this matters, or where a loop does more than it seems to, and proves what
they promise.

Each Redis command, SQL statement and Lua script is one atomic step, and so is the code between two
awaits. A protocol is a state, a datatype of steps with `Enabled` and `Do`, and runs of such steps; its
theorems speak of every run. Where the program changes an object in place, a class has the same fields
and its methods are proved against the functions that the steps use.

| files | what they model |
|---|---|
| `ProbeSync*.dfy`, `SyncedProbeList.dfy` | the probe list that every node replicates through documents and a trimmed event stream |
| `Measurement*.dfy`, `StoreOffloader.dfy` | Lua scripts, creation, timeout cleaners, the offload queue, ids and row keys |
| `RateLimiter.dfy`, `Credits*.dfy` | free points and credits of concurrent requests, and the write-behind credits buffer |
| `Weighted*.dfy`, `DiversifiedShuffle.dfy`, `ProbeSelection.dfy` | picking probes in weighted rounds, and the shuffle that spreads places |
| `Dashboard*.dfy` | matching dashboard rows with live probes, removing duplicates, merging and applying updates |
| `ProbeIpLimit.dfy`, `IpKeyIndexJobs.dfy` | limits on connected addresses: the disconnecting pass and the admission checks |
| `CloudIpRanges.dfy`, `LegalNames.dfy`, `Schedule.dfy` | the cloud range buckets, legal suffixes of company names, the schedule loader and its timers |
| `Common.dfy`, `Indexing.dfy`, `Sorting.dfy` | shared definitions: options and sums, maps by key, reordered and sorted lists |

## What the theorems rely on

* Replication. The clock of a node's pushes strictly increases, trimming keeps the newest event of each
  live node, and a successful document write is followed by its publication. Convergence also needs that
  no document is evicted between a running writer's look at its timestamp and its own write (`Calm`), and
  no other step breaks its invariant (`OnlyCalmStepsKeepSync`). `ProbeSyncRace.EvictionLosesAChange` is a
  run without that in which a reader stays wrong although it has read everything, and
  `DiffOverMissingDocument` says for which copies this happens. Equality of probes ignores `stats`.
* Measurements. That finished documents never change and are offloaded once holds in every run. The
  counter needs each test to report at most once (`ReportsOnce`), which nothing in the code enforces; a
  later report of a test makes it wrong (`OnlyFirstReportsCountRight`). That a reported result stays as it
  is also needs that its test sends no progress afterwards (`ReportedResultStays`). The commands of a creation run
  concurrently, and a cleaner may come between them once the creation is slower than its timeout of 30
  seconds. If it finishes a stored document whose counter is still to be set, the counter stays beside it
  (`OvertakesCounter`). If it calls its script before the document is stored and removes the id while the
  measurement is open, the measurement is forgotten (`Forgets`). Both conditions are exact, step by step;
  the runs in `MeasurementSlowCreation.dfy` show them.
* Credits. No fresh buffer entry is stored while a flush of the same user is under way, and entries do not
  expire with pending credits (`Careful`). Exactly the careful steps keep the balance together with all
  flushes on one entry (`OnlyCarefulStepsKeepInv`); what a replaced entry does to the balance alone depends
  on the flush (`DetachedFlight`), and `ReplacedEntryIsChargedTwice` is a run in which it is lost.
  Requests that the buffer does not serve are charged beside it. The 10 000 credits it keeps back cover
  them, and balances that are too high, up to that amount (`MinimumCoversTheSlack`), and what is beyond it
  can be forgiven (`SlackIsForgiven`). The buffer shows the exact balance if nothing is charged beside it
  and reads come when no flush is under way (`Honest`).
* Selection. With unequal weights a round can pass the limit, since only equality with it ends a round
  early. The excess is at most the number of locations minus two for positive weights (minus one if some
  are zero), and for every number of locations there are weights that attain it. If no location runs out of
  probes, `LimitIsPassedExactly` says for which weights the limit is passed.
* Dashboard matching. Without blocking pairs if no two live probes share a uuid or an alternative IP;
  that no row and no probe is used twice holds always. The same condition gives the priorities. No live probe has the status `offline`.
* Admission keeps the per-user limit if and only if it is positive or the probe has no owner
  (`AdmissionKeepsLimits`).
* Legal names. Stripping prefixes can take all words of a name, exactly if they are a sequence of forms
  that the descending index reaches (`PrefixStrippingKeepsSomething`).
* Timers. Intervals are positive: with an interval of zero, which the column type allows, the loop that
  looks for the first delay never ends (`ZeroIntervalNeverAdvances`). An interval that changes without a
  new update time is not noticed (`UnchangedTimeKeepsOldInterval`).

Where code and documentation differ, the code is modelled. The README of the repository says that the
limit is never passed (README.md:272), but the rounds can pass it. The comment over the matching lists six
priorities (adopted-probes.ts:412-422), but the code makes nine passes.

## Model

| member | source | states |
|---|---|---|
| `ProbeSyncBase.EmptyDiffAgrees` | src/lib/ws/synced-probe-list.ts:317-345 | a push that finds nothing removed and nothing updated is one whose probes equal the previous ones up to stats, in both directions |
| `ProbeSyncBase.PlanKeepsBase` | src/lib/ws/synced-probe-list.ts:305-389 | deciding between RELOAD, keep-alive and diff keeps the node's diff base equal to what its matching document holds |
| `ProbeSyncBase.StepKeepsBase` | src/lib/ws/synced-probe-list.ts:293-389 | every step of any node, evictions and failed writes included, keeps equal timestamps meaning equal probes |
| `ProbeSyncBase.RunKeepsBase` | src/lib/ws/synced-probe-list.ts:293-389 | the same over every run |
| `ProbeSyncConvergence.WriteStays` | src/lib/ws/synced-probe-list.ts:369-388 | a document write whose event names the difference leaves each copy correct or announced |
| `ProbeSyncConvergence.DiffOverMissingDocument` | src/lib/ws/synced-probe-list.ts:369-388 | a diff written although its document has gone leaves a copy right or announced exactly if the copy was right wherever the diff says nothing |
| `ProbeSyncConvergence.HeartbeatStays` | src/lib/ws/synced-probe-list.ts:344-367 | a keep-alive event announces no change and leaves copies as they were |
| `ProbeSyncConvergence.PublishStays` | src/lib/ws/synced-probe-list.ts:260-271 | moving the pending event into the stream loses no announcement |
| `ProbeSyncConvergence.EvictStays` | src/lib/ws/synced-probe-list.ts:305-315 | losing a document that no push relies on leaves copies correct or announced |
| `ProbeSyncReader.CollectedChanges` | src/lib/ws/synced-probe-list.ts:409-452 | without a RELOAD, the collected changes are the newest time and the exact unions of removed and updated probes |
| `ProbeSyncReader.ChangesSumUp` | src/lib/ws/synced-probe-list.ts:409-452 | the collected changes sum up one node's part of any stretch of the stream |
| `ProbeSyncReader.PatchIsSynced` | src/lib/ws/synced-probe-list.ts:467-497 | dropping, patching and re-fetching probes turns a copy that was right up to the batch into one that is right after it, whatever the document has become meanwhile |
| `ProbeSyncInvariant.WriterStep` | src/lib/ws/synced-probe-list.ts:293-389 | each step of anybody keeps what is known of a writer, its document and its announcements |
| `ProbeSyncInvariant.ProcessStep` | src/lib/ws/synced-probe-list.ts:400-465 | grouping the events and choosing between patch, fetch and reload keeps every copy and every waiting task right or announced, also after a gap in the stream |
| `ProbeSyncInvariant.FetchStep` | src/lib/ws/synced-probe-list.ts:456-488 | an answer from Redis is the document at that time, and the waiting task stays right |
| `ProbeSyncInvariant.ApplyStep` | src/lib/ws/synced-probe-list.ts:459-497 | storing the answer keeps the copy right or announced |
| `ProbeSyncInvariant.FailStep` | src/lib/ws/synced-probe-list.ts:504-510 | after a failed part the cursor stays, so the replay finds every announcement again |
| `ProbeSyncInvariant.ReaderStep` | src/lib/ws/synced-probe-list.ts:391-511 | each step of a reader keeps its copies of every writer right or announced |
| `ProbeSyncRuns.StepKeepsSync` | src/lib/ws/synced-probe-list.ts:293-511 | the whole invariant of writers, readers and stream is kept by every calm step |
| `ProbeSyncRuns.OnlyCalmStepsKeepSync` | src/lib/ws/synced-probe-list.ts:305-389 | a step keeps it if and only if it is calm: only the loss of a document that a running writer counts on breaks it |
| `ProbeSyncRuns.RunKeepsSync` | src/lib/ws/synced-probe-list.ts:293-511 | it holds in every state of every calm run |
| `ProbeSyncRuns.DifferencesAreOutstanding` | src/lib/ws/synced-probe-list.ts:293-511 | in every calm run, however pushes and pulls interleave, a probe on which a reader's copy differs from the document is named by, or covered by a RELOAD in, an event not yet published or not yet read |
| `ProbeSyncRuns.RevalidatedCopyIsFresh` | src/lib/ws/synced-probe-list.ts:120-133 | in every calm run, what a copy revalidated after `start` gets wrong was announced after `start` |
| `ProbeSyncRuns.CaughtUpCopyAgrees` | src/lib/ws/synced-probe-list.ts:391-511 | in every calm run, a reader with nothing left to read of a writer holds its probes, stats aside |
| `ProbeSyncRuns.EqualTimestampsAgree` | src/lib/ws/synced-probe-list.ts:305-315 | in all runs, equal local and remote change timestamps mean equal probe sets |
| `ProbeSyncRuns.DiffBaseIsStored` | src/lib/ws/synced-probe-list.ts:308-318 | a push that takes the diff path compares with what Redis holds |
| `ProbeSyncRuns.QuietPullConverges` | src/lib/ws/synced-probe-list.ts:391-511 | after any calm run, one pull over a quiet system, in any order of its parts, makes every announced copy equal to its document, on the trimmed-stream, many-updates and replay paths alike |
| `ProbeSyncTimes.QuietPullIsExact` | src/lib/ws/synced-probe-list.ts:391-511 | after any calm run, a quiet pull leaves a copy as it was if nothing of its node is unread; makes it the document if there was no copy, a RELOAD, a gap in the stream or more than five updated probes; and otherwise gives it the time of the newest event and, probe by probe, what the unread events and the document say |
| `ProbeSyncTimes.PullEndsTheWait` | src/lib/ws/synced-probe-list.ts:120-133 | after such a pull all revalidation times are later than `start` if and only if the newest unread event, the loaded document or the kept copy of every known node is |
| `ProbeSyncTimes.PlanIsPush` | src/lib/ws/synced-probe-list.ts:296-388 | by timestamps and probes alone: when a push resets, when it only keeps alive, what it stores, its time, and when the document is refreshed |
| `ProbeSyncTimes.PushIsReadBack` | src/lib/ws/synced-probe-list.ts:317-497 | a copy of what the writer had, patched by the event of a push, is what the writer has, stats included |
| `ProbeSyncTimes.PushReachesTheCopy` | src/lib/ws/synced-probe-list.ts:293-511 | so after any calm run a quiet pull that reads one push leaves exactly its probes and its time |
| `ProbeSyncTimes.OwnEntryIsPushed` | src/lib/ws/synced-probe-list.ts:344-389 | in every run, a node about to publish has the time of its push in its own entry and in the event |
| `ProbeSyncRace.EvictionLosesAChange` | src/lib/ws/synced-probe-list.ts:305-389 | a concrete run with an eviction between look and write after which a reader that has read everything still holds a replaced probe |
| `SyncedProbeList.SyncedProbeList.UpdateProbes` | src/lib/ws/synced-probe-list.ts:173-205 | the list, the socket and IP indexes and the oldest revalidation time are exactly those of the node data |
| `SyncedProbeList.SyncedProbeList.ListNodes` | src/lib/ws/synced-probe-list.ts:179-188 | every probe of every node is listed once, sockets are found at a node that has them, and the least time is the minimum |
| `SyncedProbeList.SyncedProbeList.IndexIps` | src/lib/ws/synced-probe-list.ts:195-198 | each IP leads to the last listed probe that has it, and nothing else is indexed |
| `Indexing.IndexByKeys` | src/lib/ws/synced-probe-list.ts:195-198 | the loop over items and their keys leaves each key with the last item that has it, and no other key |
| `SyncedProbeList.SyncedProbeList.RevalidatedAfter` | src/lib/ws/synced-probe-list.ts:120-133 | the test of a waiting fetch holds exactly when all known nodes were revalidated after its start |
| `SyncedProbeList.SyncedProbeList.Compare` | src/lib/ws/synced-probe-list.ts:317-342 | the loop over the sockets computes the removed, updated and stats sets of the two probe maps |
| `SyncedProbeList.SyncedProbeList.PushAfterLook` | src/lib/ws/synced-probe-list.ts:305-389 | the branches of a push are the plan of the protocol, and the views stay those of the node data |
| `SyncedProbeList.SyncedProbeList.CollectChanges` | src/lib/ws/synced-probe-list.ts:409-452 | the loop with its early return is the collection of the protocol |
| `SyncedProbeList.SyncedProbeList.GroupByNode` | src/lib/ws/synced-probe-list.ts:400-406 | one group for each other node with events, each in stream order |
| `SyncedProbeList.SyncedProbeList.ProcessEvents` | src/lib/ws/synced-probe-list.ts:400-497 | in any order of the groups, what applies at once is stored, with the time of its newest event, and the rest waits, as in the protocol |
| `SyncedProbeList.SyncedProbeList.StoreAnswer` | src/lib/ws/synced-probe-list.ts:456-497 | the continuation after an answer stores what the protocol stores: the document, or the patch with the reported time |
| `SyncedProbeList.SyncedProbeList.FinishPull` | src/lib/ws/synced-probe-list.ts:500-510 | the views are rebuilt and the cursor moves only if no part failed |
| `MeasurementScripts.DueIsClaimed` | src/lib/redis/scripts.ts:189-204 | a due id is claimed unless a full batch of ids was due no later |
| `MeasurementScripts.MeasurementRedis.RecordProgressScript` | src/lib/redis/scripts.ts:21-97 | both progress scripts, command by command, are the progress step, including the rejected write to a finished document |
| `MeasurementScripts.MeasurementRedis.RecordResultScript` | src/lib/redis/scripts.ts:99-126 | the result script is the result step: decrement first, then write, then finish and reply at zero |
| `MeasurementScripts.MeasurementRedis.MarkFinishedByTimeoutScript` | src/lib/redis/scripts.ts:141-175 | the timeout script with its loop over the results is the timeout step |
| `MeasurementScripts.MeasurementRedis.ClaimTimedOutScript` | src/lib/redis/scripts.ts:189-204 | the claim gives every id of its batch the new lease and touches nothing else |
| `MeasurementContents.ResultIsStored` | src/lib/redis/scripts.ts:99-126 | the reported result is stored whole in its place and nothing else changes but the date; the last one finishes and seals the document and is answered with it |
| `MeasurementContents.ProgressIsStored` | src/lib/redis/scripts.ts:21-97 | progress replaces the texts of its test, or is appended to those that are there, while results are awaited |
| `MeasurementContents.TimeoutIsStored` | src/lib/redis/scripts.ts:141-175 | a timeout fails the tests in progress with its message after what they sent, and leaves reported results as they are |
| `MeasurementLifecycle.ScriptEffects` | src/lib/redis/scripts.ts:21-187 | each script works on one document, never on a sealed one, and replies exactly when it seals it |
| `MeasurementLifecycle.StepKeepsIds` | src/measurement/store.ts:119-210 | every step keeps what is known of every measurement: sealed exactly if finished and handed over, and finished documents stay as they are |
| `MeasurementLifecycle.RepliesAreNew` | src/lib/redis/scripts.ts:99-187 | a script replies only with a record nobody was given before |
| `MeasurementLifecycle.HeldAfter` | src/measurement/store.ts:174-201 | a task holds a record because it did before, or because a script has just replied with it |
| `MeasurementLifecycle.PlaceAfter` | src/measurement/store.ts:174-201 | a handed-over record stays where it is until its holder queues or loses it |
| `MeasurementLifecycle.StepKeepsQueue` | src/measurement/store.ts:180-200 | queued records stay distinct by id and equal to the stored documents |
| `MeasurementLifecycle.RunKeepsOnce` | src/measurement/store.ts:119-210 | the lifecycle invariant holds in every state of every run |
| `MeasurementRuns.FinishedIsForever` | src/lib/redis/scripts.ts:21-187 | no later progress, result, timeout or creation step changes a finished document |
| `MeasurementRuns.ReturnedAtMostOnce` | src/measurement/store.ts:174-201 | over a whole run at most one script call or creation returns the record of a measurement |
| `MeasurementRuns.OffloadedAtMostOnce` | src/measurement/store.ts:178-200 | the offload queue holds each measurement at most once, as the record that was returned |
| `MeasurementRuns.SmoothRunLosesNothing` | src/measurement/store.ts:186-201 | records are lost only when a reply is lost, a call fails or a worker dies |
| `MeasurementRuns.EveryFinishedIsOffloaded` | src/measurement/store.ts:174-201 | after a run without failures, every finished measurement is in the queue with its stored record |
| `MeasurementContents.ReportedResultStays` | src/measurement/store.ts:166-201 | over runs in which each test reports once and sends nothing afterwards, a stored result is in every later document and in the queued record exactly as it was reported |
| `MeasurementRemoval.QueuedIsNotTimed` | src/measurement/store.ts:174-201 | in every run, a measurement in the offload queue is not in the timeout set |
| `MeasurementTimeouts.StepKeepsTimeouts` | src/measurement/store.ts:186-210 | a step that forgets nothing keeps each open measurement in the timeout set, once its creation has added it, and what cleaners have processed closed |
| `MeasurementTimeouts.OnlyEarlyCallsForget` | src/measurement/store.ts:186-210 | an open measurement leaves the set in a step if and only if a cleaner removes an id whose script it had called before the document was stored, and whose document is still to be stored or finished |
| `MeasurementTimeouts.UnfinishedStaysInTimeouts` | src/measurement/store.ts:145-148 | in every run without such a removal, a stored unfinished measurement is in the timeout set, whatever cleaners do or fail to do |
| `MeasurementTimeouts.PromptCreationsForgetNothing` | src/measurement/store.ts:145-148 | there is no such removal if no cleaner's script comes before the SET of its document |
| `MeasurementTimeouts.ForgottenForGood` | src/measurement/store.ts:145-210 | a measurement that has left the set never comes back to it |
| `MeasurementSlowCreation.SlowCreationIsForgotten` | src/measurement/store.ts:145-201 | a run with a creation slower than its timeout stores an unfinished measurement that no cleaner will find |
| `MeasurementSlowCreation.StoredBetweenIsForgotten` | src/measurement/store.ts:186-201 | the same run with the document stored between the cleaner's call and its removal |
| `MeasurementSlowCreation.OvertakenCounterStays` | src/lib/redis/scripts.ts:141-175 | a run in which nobody reports and a counter of one result stands beside a finished document |
| `MeasurementTimeouts.ClaimsAreALeaseApart` | src/measurement/store.ts:203-209 | by the claiming workers' clocks, two claims of one id are at least 30 seconds apart |
| `MeasurementTimeouts.AbandonedClaimIsDueAfterLease` | src/measurement/store.ts:203-209 | a claimed id still in the set is due again exactly 30 seconds after the claim |
| `MeasurementTimeouts.DueThirtySecondsAfterStart` | src/measurement/store.ts:145-146 | in every run, an id that was never claimed is due exactly from 30 seconds after its creation began on |
| `MeasurementCounter.CountAfterResult` | src/lib/redis/scripts.ts:99-126 | one result keeps counter, pending tests and results in progress equal, and the last one leaves none in progress |
| `MeasurementCounter.StepKeepsCount` | src/lib/redis/scripts.ts:99-187 | if no test reports twice, every step keeps the counter equal to the number of tests that have not reported |
| `MeasurementCounter.CounterIsExact` | src/lib/redis/scripts.ts:99-187 | if each test reports at most once and no cleaner overtakes the counter, a counter that exists is the number of results in progress, also beside a finished document, and a finished measurement has none |
| `MeasurementCounter.OnlyOvertakingLeavesACounter` | src/lib/redis/scripts.ts:141-175 | in every step, a counter comes to stand beside a finished document, or will be set there, if and only if a cleaner finishes a stored document whose counter is still to be set |
| `MeasurementCounter.OvertakenCounterIsWrong` | src/measurement/store.ts:145-148 | after that, setting the counter makes it differ from the number of results in progress |
| `MeasurementCounter.OnlyFirstReportsCountRight` | src/lib/redis/scripts.ts:99-126 | a result keeps counter and results in progress equal if and only if its test was still in progress, for any number of tests |
| `MeasurementCounter.DuplicateReportFinishesEarly` | src/measurement/handler/result.ts:7-27 | two reports of one of two tests finish the measurement with the other one in progress |
| `MeasurementCreation.OnlineProbesAreAwaited` | src/measurement/store.ts:119-164 | the initial counter is the number of initial results in progress, and creation finishes at once exactly without any |
| `MeasurementCreation.InitialResultsAre` | src/measurement/store.ts:267-288 | what each result starts with: the message of an offline probe, or empty texts, with headers and body only for HTTP |
| `MeasurementCreation.SelectedProbesAreOnline` | src/probe/router.ts:52-56 | selected probes are all online, under their indexes |
| `MeasurementCreation.IndexConnected` | src/probe/router.ts:98-101 | each IP leads to the last connected probe that has it, and nothing else is indexed |
| `MeasurementCreation.FindWithMeasurementId` | src/probe/router.ts:93-139 | reusing a measurement's probes gives one target per previous IP, online exactly if some connected probe has it, or nothing if a missing one cannot be rebuilt |
| `MeasurementId.DecodeEncode` | src/measurement/id.ts:48-84 | base 62 decoding inverts encoding, without leading zeros |
| `MeasurementId.EncodeDecode` | src/measurement/id.ts:48-84 | encoding inverts decoding of numbers without leading zeros |
| `MeasurementId.EncodedLength` | src/measurement/id.ts:61-64 | a number has more than k digits exactly from 62 to the power k on |
| `MeasurementId.DigitsInOrder` | src/measurement/id.ts:48 | the digits are numerals, capitals and small letters, in this order |
| `MeasurementId.GeneratedLayout` | src/measurement/id.ts:40-49 | version, random part, strategy, location, tier and minutes stand in this order, with the code of each tier |
| `MeasurementId.ParseGenerated` | src/measurement/id.ts:40-95 | a generated id is readable exactly from minute 62*62*62 on, and then gives back its parts |
| `MeasurementId.GenerateParsed` | src/measurement/id.ts:51-95 | a readable id of the generated strategy is the id generated from what it says |
| `MeasurementId.PartsOfTime` | src/measurement/id.ts:97-101 | the fields of a composed time value are those it was composed of (section 21.4.1 of ECMA-262) |
| `MeasurementId.RoundIdTime` | src/measurement/id.ts:97-101 | zeroing seconds and milliseconds in place rounds down to the minute of the id |
| `StoreOffloader.KeyIsRebuilt` | src/measurement/store-offloader.ts:137-153 | the key rebuilt from the id alone is the one the offloader inserted under |
| `StoreOffloader.InsertedRows` | src/measurement/store-offloader.ts:155-158 | an insert adds each record's row, changes no existing row and adds no other |
| `StoreOffloader.OffloadedStaysReadable` | src/measurement/store.ts:76-104 | with the hour that Redis keeps it, an offloaded measurement can be read at any later time, as it was offloaded |
| `StoreOffloader.RecordIsReadFrom` | src/measurement/store.ts:76-104 | a record is read from its row if it is more than half an hour old, the database answers and the row is there, and from Redis otherwise |
| `StoreOffloader.StoreOffloader.EnqueueForOffload` | src/measurement/store-offloader.ts:51-54 | a record joins the queue of the tier in its id, at the end |
| `StoreOffloader.StoreOffloader.InsertBatchToDb` | src/measurement/store-offloader.ts:137-161 | the loop inserts a batch, leaving existing rows alone |
| `StoreOffloader.StoreOffloader.RunBatch` | src/measurement/store-offloader.ts:109-123 | a batch is inserted or becomes a fallback job, and nothing that was kept is lost; if both fail, exactly the records of the batch that are not kept elsewhere are |
| `StoreOffloader.StoreOffloader.RunFallbackJob` | src/measurement/store-offloader.ts:163-170 | a fallback job inserts every record that Redis still has |
| `RateLimiter.ArrivalKeepsInv` | src/lib/rate-limiter/rate-limiter-post.ts:113-115 | counting a new request keeps the kept points of all requests within the limit |
| `RateLimiter.StepKeepsInv` | src/lib/rate-limiter/rate-limiter-post.ts:105-193 | every step keeps the counter the sum of what requests took from it, the charge the sum of what they paid, and what they keep within the limit |
| `RateLimiter.RequestsPayTheirProbes` | src/lib/rate-limiter/rate-limiter-post.ts:105-138 | in every run, what was taken from the counter and from the credits for an accepted request are its probes, and what was taken for a rejected one has been given back |
| `RateLimiter.CreditsCoverTheExcess` | src/lib/rate-limiter/rate-limiter-post.ts:168-170 | in every run, an accepted request paid by credits exactly what was over the limit when it was counted, whatever other requests did in between |
| `RateLimiter.FreePointsStayWithinLimit` | src/lib/rate-limiter/rate-limiter-post.ts:105-138 | finished requests never keep more free points than the limit, and with none in flight the counter is what they keep |
| `RateLimiter.FreePointsComeFirst` | src/lib/rate-limiter/rate-limiter-post.ts:168-170 | credits pay only for the part of a request that does not fit the limit when it is counted |
| `RateLimiter.UsersAreAsked` | src/lib/rate-limiter/rate-limiter-post.ts:168-182 | with a user, a request over the limit asks for what is over it, at most one credit for each probe, and is rejected without a charge exactly if an attempt for as few or fewer credits has failed |
| `RateLimiter.OthersAreRejected` | src/lib/rate-limiter/rate-limiter-post.ts:117-133 | without a user a request over the limit is rejected without a charge |
| `RateLimiter.PaidRequestIsAccepted` | src/lib/rate-limiter/rate-limiter-post.ts:118-126 | a successful charge of what was asked accepts the request |
| `RateLimiter.UnpaidRequestIsRejected` | src/lib/rate-limiter/rate-limiter-post.ts:128-133 | a failed one rejects it and is remembered with its amount |
| `RateLimiter.AcceptedExactlyIfPaid` | src/lib/rate-limiter/rate-limiter-post.ts:105-138 | in every run, a finished request is accepted if and only if it was within the limit when it was counted, or its charge was answered with success |
| `RateLimiter.AnonymousNeverPay` | src/lib/rate-limiter/rate-limiter-post.ts:117-133 | in every run without a user, nobody is asked to pay and nobody has paid |
| `RateLimiter.PostRateLimiter.Consume` | src/lib/rate-limiter/rate-limiter-post.ts:113-117 | the limiter's first segment is the arrival step |
| `RateLimiter.PostRateLimiter.DecideToPay` | src/lib/rate-limiter/rate-limiter-post.ts:168-182 | credits are asked for if and only if there is a user and no failed attempt for as few or fewer; the amount is what is over the limit, at most the probes |
| `RateLimiter.PostRateLimiter.RecordAnswer` | src/lib/rate-limiter/rate-limiter-post.ts:184-192 | a failed payment is remembered |
| `RateLimiter.PostRateLimiter.RewardPoints` | src/lib/rate-limiter/rate-limiter-post.ts:121-133 | the reward gives back the paid or the whole count |
| `CreditsLedger.StepKeepsOneEntry` | src/lib/credits-master.ts:38-137 | all flushes under way are of the buffer's entry, and a detached entry has nothing pending |
| `CreditsLedger.StepKeepsInv` | src/lib/credits-master.ts:38-137 | every careful step keeps the ledger balanced |
| `CreditsLedger.OnlyCarefulStepsKeepInv` | src/lib/credits-master.ts:38-137 | a step keeps the balance, and all flushes on the buffer's entry, if and only if it is careful |
| `CreditsLedger.DetachedFlight` | src/lib/credits-master.ts:58-78 | once a flush's entry is no longer the buffer's, taking its credits breaks conservation exactly if it has any, writing what was taken never does, and undoing it does exactly if the two entries differ in pending credits |
| `CreditsLedger.ReplacedEntryBreaksConservation` | src/lib/credits-master.ts:58-63 | if the entry that a flush has captured is replaced, the flush breaks conservation exactly if credits were pending |
| `CreditsLedger.ReplacedEntryLosesCharges` | src/lib/credits-master.ts:64-71 | if the entry is replaced after its credits were taken, only a failing write harms: it drops exactly what the new entry has served since |
| `CreditsLedger.CreditsAreConserved` | src/lib/credits-master.ts:38-137 | in every careful run, what left the database is what was accepted less what is buffered, in flight or forgiven by the clamp |
| `CreditsLedger.SettledAccount` | src/lib/credits-master.ts:38-137 | after a careful run, with nothing buffered or in flight, the amount is start plus top-ups minus accepted plus forgiven credits |
| `CreditsLedger.FailedFlushIsUndone` | src/lib/credits-master.ts:64-71 | a failed flush returns its amount to the pending credits of the buffer's entry |
| `CreditsBalance.StepKeepsExact` | src/lib/credits-master.ts:60-137 | each step keeps the entry at what is left of the row after all that is pending, if reads are right and nothing else charges the row |
| `CreditsBalance.BufferShowsTheBalance` | src/lib/credits-master.ts:81-137 | in runs of such steps the buffer shows the starting amount and the top-ups less all that was accepted |
| `CreditsBalance.EntriesAreUseful` | src/lib/credits-master.ts:121-137 | a read leaves an entry only with the minimum or with pending credits |
| `CreditsSlack.StepKeepsCovered` | src/lib/credits-master.ts:38-137 | every careful step, charges beside the buffer and late balances included, keeps row and slack covering what is owed, the minimum, and what the entry may still give away |
| `CreditsSlack.StepForgivesTheExcess` | src/lib/credits-master.ts:58-66 | in every careful run, no step forgives more than what the slack exceeds the minimum of the buffer by |
| `CreditsSlack.MinimumCoversTheSlack` | src/lib/credits-master.ts:7-45 | in every careful run whose slack stays within the minimum, the clamp forgives nothing |
| `CreditsSlack.SlackIsForgiven` | src/lib/credits-master.ts:38-45 | the bound is attained for all sizes of requests: charges that went past the buffer and exceed the minimum by what it has served are forgiven by exactly that excess |
| `CreditsSlack.TwentyMeasurementsOverdraw` | src/lib/credits-master.ts:38-45 | an instance with measurements of at most 500 probes |
| `CreditsLedger.ReplacedEntryIsChargedTwice` | src/lib/credits-master.ts:121-127 | a fresh entry stored between capture and flush charges its pending credits twice |
| `CreditsMaster.CreditsMaster.ConsumeFromBuffer` | src/lib/credits-master.ts:81-92 | the buffer serves exactly while its minimum remains, changing the entry in place |
| `CreditsMaster.CreditsMaster.ChargeDb` | src/lib/credits-master.ts:94-114 | a direct charge under the constraint that amounts are not negative |
| `CreditsMaster.CreditsMaster.RemainingFromDb` | src/lib/credits-master.ts:116-119 | the balance of a user is the row's amount, and nothing without a row |
| `CreditsMaster.CreditsMaster.UpdateBuffer` | src/lib/credits-master.ts:121-137 | a fresh entry object with the pending credits copied, an update in place, or a removal |
| `CreditsMaster.CreditsMaster.RefreshRemaining` | src/lib/credits-master.ts:47-57 | asking for the balance updates the entry in place |
| `CreditsMaster.CreditsMaster.CaptureEntries` | src/lib/credits-master.ts:60 | a flush captures exactly the entry objects with pending credits, which is the capture step of each user's ledger |
| `CreditsMaster.CreditsMaster.TakePending` | src/lib/credits-master.ts:61-62 | the pending credits of the captured object move into the flush |
| `CreditsMaster.CreditsMaster.WriteFlush` | src/lib/credits-master.ts:65 | the clamped database update |
| `CreditsMaster.CreditsMaster.UndoFlush` | src/lib/credits-master.ts:66-71 | a failure puts credits and object back |
| `CreditsMaster.CreditsMaster.SetRemainingAfterFlush` | src/lib/credits-master.ts:73-77 | the refreshed balance is stored in the captured object |
| `WeightedSelection.RoundShrinks` | src/probe/probes-location-filter.ts:169-190 | every round takes at least one match, so the rounds end |
| `WeightedSelection.RoundMoves` | src/probe/probes-location-filter.ts:173-189 | a round moves probes from the matches to the picked ones and loses none |
| `WeightedSelection.SharesAtMostWanted` | src/probe/probes-location-filter.ts:171-179 | the floored shares of a round add up to at most what is wanted, to less if a positive weight is rounded to nothing |
| `WeightedSelection.RoundWithinExcess` | src/probe/probes-location-filter.ts:173-189 | by how much one round can pass the limit |
| `WeightedSelection.SelectedAreMatches` | src/probe/probes-location-filter.ts:156-193 | picks are distinct matches, and all of them unless the limit is reached |
| `WeightedSelection.EnoughSelected` | src/probe/probes-location-filter.ts:156-193 | at least the minimum of the limit and the number of different matches is picked |
| `WeightedSelection.EqualWeightsMeetTheLimit` | src/probe/router.ts:63-68 | with equal weights exactly that many are picked |
| `WeightedSelection.LimitIsPassedByFew` | src/probe/probes-location-filter.ts:169-190 | at most limit plus locations minus two with positive weights, minus one with any |
| `WeightedSelection.ExcessIsAttained` | src/probe/probes-location-filter.ts:174-179 | for every number of locations and larger limit there are positive weights that pass the limit by that number minus two |
| `WeightedSelection.WholeSharesAreExact` | src/probe/probes-location-filter.ts:171-183 | when all shares are whole and can be met by disjoint matches, each location gives exactly its share |
| `WeightedShares.SelectServes` | src/probe/probes-location-filter.ts:167-192 | in a selection each location gives its floored share, or one probe, or all it has, unless the locations before it meet the limit exactly |
| `WeightedShares.BigSharesAreServed` | src/probe/probes-location-filter.ts:171-183 | if no share is rounded to nothing, each location gives its floored share or all it has |
| `WeightedShares.OnlySharesAreGiven` | src/probe/probes-location-filter.ts:171-183 | if the shares are whole and can be met, nothing else is picked |
| `WeightedExcess.LimitIsPassedExactly` | src/probe/probes-location-filter.ts:169-190 | if no location runs out of probes of its own, the limit is passed if and only if the weights say so: some round gives more than is wanted, and no prefix of it exactly that |
| `WeightedExcess.PassesNow` | src/probe/probes-location-filter.ts:173-189 | where the first round reaches the limit, that is if and only if no prefix of its shares meets it |
| `WeightedExcess.SecondRoundPasses` | src/probe/probes-location-filter.ts:169-190 | an instance of a first round below the limit and a second one that passes it |
| `WeightedSelection.AddEach` | src/probe/probes-location-filter.ts:181-183 | adding to an insertion-ordered set |
| `WeightedSelection.RunRound` | src/probe/probes-location-filter.ts:173-189 | the loop over the locations, with its splices, deletions and early end, is a round |
| `WeightedSelection.TotalWeight` | src/probe/probes-location-filter.ts:171 | the weight that is left includes locations without matches |
| `WeightedSelection.GroupByLocation` | src/probe/probes-location-filter.ts:157-165 | the locations with matches, in order |
| `WeightedSelection.FilterByLocationAndWeight` | src/probe/probes-location-filter.ts:156-193 | the whole loop computes the selection of which the above is proved |
| `DiversifiedShuffle.SpreadIsPermutation` | src/probe/probes-location-filter.ts:254-264 | taking one probe of each group, round after round, permutes the probes |
| `DiversifiedShuffle.PrefixesAreBalanced` | src/probe/probes-location-filter.ts:254-264 | in every prefix a key is at most one probe behind any other, unless it has no probe left |
| `DiversifiedShuffle.FirstResultsDiffer` | src/probe/probes-location-filter.ts:254-264 | the first results, as many as there are keys, have different keys |
| `DiversifiedShuffle.GroupRankRanks` | src/probe/probes-location-filter.ts:226 | a rank is half of a size below eight, and the rounded-up logarithm of a larger one |
| `DiversifiedShuffle.CityKeyIsCity` | src/probe/probes-location-filter.ts:232 | the city of a key is the key up to its last dash |
| `DiversifiedShuffle.GroupByKey` | src/probe/probes-location-filter.ts:229-232 | groups are the probes of one key each, with their ranks |
| `DiversifiedShuffle.SortedIsWellGrouped` | src/probe/probes-location-filter.ts:233-252 | sorting by any comparison keeps the groups, one for each key |
| `Sorting.SortedIsOrdered` | src/probe/probes-location-filter.ts:233-252 | sorting orders by the comparison, for a list on which it compares |
| `DiversifiedShuffle.CountSameCity` | src/probe/probes-location-filter.ts:240-243 | each group gets the number of earlier groups of its city, counted as a set of positions |
| `DiversifiedShuffle.PopEach` | src/probe/probes-location-filter.ts:255-261 | one pass over the groups pops one probe of each and drops empty groups |
| `DiversifiedShuffle.TakeRounds` | src/probe/probes-location-filter.ts:254-262 | the loop ends and yields the spread order |
| `DiversifiedShuffle.DiversifiedShuffle` | src/probe/probes-location-filter.ts:224-265 | for every random order, the groups are ranked by size, counted by city in that order, ordered by rank and fewer earlier groups of the city, and the result is the spread of that order, a permutation of the probes |
| `ProbeSelection.FilterByContinent` | src/probe/probes-location-filter.ts:130-154 | the probes of one continent, each once, in a diversified order |
| `ProbeSelection.FilterGloballyDistributed` | src/probe/probes-location-filter.ts:115-118 | distinct probes of the configured continents, all of them or at least the limit, with the bounds on the excess. Counted by continent: exactly limit * weight / sum if that is whole everywhere and there are so many; at least the floored share or all if no share is rounded to nothing; and in general that, or one, unless earlier continents meet the limit |
| `ProbeSelection.World` | src/probe/probes-location-filter.ts:130-133 | `world` is a permutation of all probes of the configured continents |
| `ProbeSelection.MagicSort` | src/probe/probes-location-filter.ts:195-220 | whole groups in order of position, each diversified, until there are enough: matches in earlier categories come first, those in none last, and what is left out ranks strictly behind |
| `ProbeSelection.FindWithGlobalLimit` | src/probe/router.ts:63-68 | exactly the minimum of the limit and the number of matches |
| `ProbeSelection.FindWithLocationLimit` | src/probe/router.ts:70-91 | exactly the first probes of each location up to its limit, each once, no more than the limits' sum |
| `DashboardMatching.FirstByAltIpFinds` | src/lib/override/adopted-probes.ts:486-496 | the first alternative IP of the row that is indexed decides, as an IP before as an alternative IP, and nothing is found exactly if none is indexed |
| `DashboardMatching.FindFinds` | src/lib/override/adopted-probes.ts:434-570 | a found probe is free and related; under complete indexes nothing related is missed |
| `DashboardMatching.TakingKeepsFit` | src/lib/override/adopted-probes.ts:438-441 | recording a match and deleting its keys keeps the indexes those of the free probes |
| `DashboardMatching.PassKeepsStable` | src/lib/override/adopted-probes.ts:447-589 | each pass keeps earlier levels without blocking pairs and adds its own |
| `DashboardMatching.PassKeepsOrder` | src/lib/override/adopted-probes.ts:447-589 | at each level, no row that had to wait came before the row that took a probe it is related to |
| `DashboardMatching.TakingKeepsGroups` | src/lib/override/adopted-probes.ts:575-585 | shifting a token group keeps all groups lists of free probes |
| `DashboardMatching.StableMeansNobodyIsPassedOver` | src/lib/override/adopted-probes.ts:412-422 | no unmatched adopted row shares a uuid or address with a probe that is free or given to an unadopted row, and no unmatched row with a free probe |
| `DashboardMatching.StableKeepsPriorities` | src/lib/override/adopted-probes.ts:423-589 | on the fields of rows and probes: if an adopted row shares with a probe, by uuid, IP, as alternative IP or by alternative IPs, one of them is matched to an adopted row in a stronger way, or in the same way for an earlier row; then the same for all rows behind the adopted ones; and no offline row is left beside a free probe with its token, network and city |
| `DashboardMatching.MatchesShare` | src/lib/override/adopted-probes.ts:431-589 | a match shares in one of these ways, or the row is offline and shares the token, network and city if tokens and networks are written without dashes |
| `DashboardMatching.UniqueByIp` | src/lib/override/adopted-probes.ts:424-425 | exactly the first probe of each IP stays |
| `DashboardMatching.MatchDProbesAndProbes` | src/lib/override/adopted-probes.ts:423-593 | each row is in exactly one of matched and unmatched, each probe in at most one match, and with unique uuids and alternative IPs no row and probe related at one level both wait for a later one, and the priorities are kept, by the fields of rows and probes |
| `DashboardMatching.Matcher.constructor` | src/lib/override/adopted-probes.ts:426-428 | the three indexes fit the probes: sound always, and complete if no two probes share a key |
| `DashboardMatching.Matcher.Take` | src/lib/override/adopted-probes.ts:438-441 | a match is appended and its probe leaves all indexes |
| `DashboardMatching.Matcher.RunPass` | src/lib/override/adopted-probes.ts:434-570 | one pass matches what it can, in order, and leaves the rest settled at its level |
| `DashboardMatching.Matcher.GroupByToken` | src/lib/override/adopted-probes.ts:575 | free probes with a token, grouped by token, network and city |
| `DashboardMatching.Matcher.RunTokenPass` | src/lib/override/adopted-probes.ts:572-589 | offline rows take the probes of their group one by one |
| `DashboardMatching.Matcher.RunPasses` | src/lib/override/adopted-probes.ts:431-570 | the eight index passes in order, rows with their levels and in their own order |
| `DashboardMatching.Matcher.MatchRows` | src/lib/override/adopted-probes.ts:431-592 | all passes, and the probes that are left are exactly the free ones |
| `DashboardUpdates.DiffBringsUpToDate` | src/lib/override/adopted-probes.ts:599-631 | an update brings exactly the copied columns up to date and is empty exactly if nothing differs |
| `DashboardUpdates.DiffIsMinimal` | src/lib/override/adopted-probes.ts:617-619 | a column is written only if its value changes |
| `DashboardUpdates.GenerateUpdatedDProbes` | src/lib/override/adopted-probes.ts:595-646 | updated rows and their non-empty updates, unmatched rows going offline |
| `DashboardDuplicates.NewAltIpsAre` | src/lib/override/adopted-probes.ts:680-693 | alternative IPs that nobody has yet are kept in order |
| `DashboardDuplicates.KeptAltIpsAreNew` | src/lib/override/adopted-probes.ts:680-697 | a survivor keeps exactly those alternative IPs that no earlier survivor owns |
| `DashboardDuplicates.UnownedSurvivorsAreUnique` | src/lib/override/adopted-probes.ts:656-665 | no unowned survivor shares a uuid or primary IP with an earlier survivor |
| `DashboardDuplicates.OfflineSurvivorsGiveUpIps` | src/lib/override/adopted-probes.ts:666-672 | an offline survivor loses its IP exactly when an earlier survivor owns it |
| `DashboardDuplicates.SameUuidMeansOtherOwner` | src/lib/override/adopted-probes.ts:656-665 | consecutive survivors with one uuid have different owners |
| `DashboardDuplicates.LatestOfUuidDecides` | src/lib/override/adopted-probes.ts:656-665 | a row survives against the latest survivor of its uuid if and only if it has an owner, and another one |
| `DashboardDuplicates.LatestOwnerDecides` | src/lib/override/adopted-probes.ts:656-665 | without a survivor of its uuid, the same against the latest survivor that owns its IP |
| `DashboardDuplicates.NewRowSurvives` | src/lib/override/adopted-probes.ts:656-665 | without either, a row survives |
| `DashboardDuplicates.OnlyAnotherOwnerKeepsADuplicate` | src/lib/override/adopted-probes.ts:656-665 | a later row of a survivor's uuid and owner survives if and only if it has an owner and the latest survivor of the uuid before it has another one |
| `DashboardDuplicates.DeletedHasASurvivor` | src/lib/override/adopted-probes.ts:656-665 | a deleted row has an earlier survivor with its uuid or IP and its owner, or no owner |
| `DashboardDuplicates.TakingTurnsKeepsDuplicates` | src/lib/override/adopted-probes.ts:656-658 | an instance: two owners who take turns keep their duplicates |
| `DashboardDuplicates.SplitAltIps` | src/lib/override/adopted-probes.ts:680-690 | the loop splits alternative IPs into kept and duplicated ones |
| `DashboardDuplicates.FindDProbeDuplicates` | src/lib/override/adopted-probes.ts:648-701 | deleted rows, nullified IPs and reduced alternative IPs are exactly those of the verdicts |
| `DashboardSync.MergeInto` | src/lib/override/adopted-probes.ts:708-720 | data updates absorb the alternative IP updates of their rows |
| `DashboardSync.MergeUpdates` | src/lib/override/adopted-probes.ts:703-729 | per row the merged update, none for deleted rows, each id once |
| `DashboardSync.ApplyAllAt` | src/lib/override/adopted-probes.ts:354-355 | updates with distinct ids have the same effect in any order |
| `DashboardSync.FinalRow` | src/lib/override/adopted-probes.ts:352-355 | nullification and merged update turn an original row into its final form |
| `DashboardSync.ApplyInOrder` | src/lib/override/adopted-probes.ts:352-355 | deletes, then nullified IPs, then updates, row by row |
| `DashboardSync.SyncDashboardData` | src/lib/override/adopted-probes.ts:337-358 | applied to the original table, the statements give exactly the updated rows without the deleted ones, with freed IPs and reduced alternative IPs |
| `DashboardSync.MatchedRowsAreTheTable` | src/lib/override/adopted-probes.ts:359-377 | matching gives each fetched row one place, so the matched and unmatched rows are the rows of the table |
| `DashboardSync.FinalRowShowsProbe` | src/lib/override/adopted-probes.ts:595-646 | in the final table a matched row shows its probe's columns, is not offline and keeps its other columns; an unmatched row is offline and otherwise as it was, but for IPs it gives up |
| `DashboardSync.TableRowsApart` | src/lib/override/adopted-probes.ts:337-358 | in the final table no two rows share an alternative IP, and no two unowned rows a uuid or an IP |
| `DashboardSync.SyncWithProbes` | src/lib/override/adopted-probes.ts:337-358 | from the fetched rows and the live probes to the final table: no row or probe is used twice, nobody is passed over and the priorities are kept if probes share nothing, each row ends up deleted or as its match says, and rows share no alternative IPs |
| `ProbeIpLimit.SettledMeansWithinLimits` | src/lib/ws/helper/probe-ip-limit.ts:86-139 | what the three passes leave is within all limits |
| `ProbeIpLimit.WithinLimitsGivesNoReason` | src/lib/ws/helper/probe-ip-limit.ts:86-139 | within the limits nobody has a reason to go |
| `ProbeIpLimit.SameKeyMeans` | src/lib/ws/helper/probe-ip-limit.ts:19-39 | two addresses have one key exactly if they are the same IPv4 address, mapped or not, or IPv6 addresses of one /64 range |
| `ProbeIpLimit.IndexIpsForSync` | src/lib/ws/helper/probe-ip-limit.ts:228-248 | the four indexes hold exactly the clients of each address and range |
| `ProbeIpLimit.DisconnectExactDuplicates` | src/lib/ws/helper/probe-ip-limit.ts:86-100 | exactly those go that share an IP with another holder before them: holders of it as an alternative IP come before holders as primary IP, then lower socket ids before higher ones |
| `ProbeIpLimit.RangeLosersSettle` | src/lib/ws/helper/probe-ip-limit.ts:108-122 | after a range has been handled, a primary in it is alone |
| `ProbeIpLimit.DisconnectRangeDuplicates` | src/lib/ws/helper/probe-ip-limit.ts:102-123 | all /64 ranges are settled, and a primary goes only for a remaining client with an alternative IP in the range, or a remaining primary with a lower socket id |
| `ProbeIpLimit.IndexAsnCity` | src/lib/ws/helper/probe-ip-limit.ts:251-268 | the clients of each user, network, city and key |
| `ProbeIpLimit.SortedDropsHighest` | src/lib/ws/helper/probe-ip-limit.ts:135-138 | the keys that stay are those with the lowest socket ids |
| `ProbeIpLimit.DropGroups` | src/lib/ws/helper/probe-ip-limit.ts:126-139 | at most the allowed number of keys is left to a user in a network and city, and whoever goes has a higher socket id than a client of each of so many other keys |
| `ProbeIpLimit.DisconnectByPlace` | src/lib/ws/helper/probe-ip-limit.ts:125-139 | the same for all of them, in any order |
| `ProbeIpLimit.SyncProbeLimits` | src/lib/ws/helper/probe-ip-limit.ts:76-142 | the survivors are distinct and within the limits, everybody who goes gives way for an IP, a range or a place to somebody who comes before, and a list within the limits loses nobody |
| `ProbeIpLimit.SyncProbeLimitsTwice` | src/lib/ws/helper/probe-ip-limit.ts:76-142 | a second pass over the survivors disconnects nobody |
| `ProbeIpLimit.IndexIpKeys` | src/lib/ws/helper/probe-ip-limit.ts:216-226 | the clients of each key |
| `ProbeIpLimit.VerifyIpLimit` | src/lib/ws/helper/probe-ip-limit.ts:144-157 | passes exactly if no probe has an address of the same key |
| `ProbeIpLimit.VerifyAsnLimit` | src/lib/ws/helper/probe-ip-limit.ts:159-187 | passes exactly if the user has no probe there or fewer keys than allowed |
| `ProbeIpLimit.AdmissionKeepsLimits` | src/lib/ws/helper/probe-ip-limit.ts:144-187 | admitting a probe that passes both checks keeps all three limits if and only if the per-user limit is positive or the probe has no owner |
| `ProbeIpLimit.ZeroLimitAdmitsOne` | src/lib/ws/helper/probe-ip-limit.ts:173-186 | a limit of zero admits a user's first probe |
| `IpKeyIndexJobs.EveryCheckSeesLaterData` | src/lib/ws/helper/probe-ip-limit.ts:189-214 | every check gets an index of probes fetched after it asked, also in the gap between two fetches, and deferred jobs can start |
| `IpKeyIndexJobs.IpKeyIndexSlots.BuildIpKeyIndex` | src/lib/ws/helper/probe-ip-limit.ts:189-200 | the two slots decide who joins, who waits and who starts |
| `IpKeyIndexJobs.IpKeyIndexSlots.StartIpKeyIndex` | src/lib/ws/helper/probe-ip-limit.ts:202-214 | starting empties the slot of the next job |
| `IpKeyIndexJobs.IpKeyIndexSlots.EndFetch` | src/lib/ws/helper/probe-ip-limit.ts:208-210 | the end of a fetch empties the slot of the current job |
| `CloudIpRanges.LongPrefixFixesFirstPart` | src/lib/cloud-ip-ranges.ts:15-19 | a match under a prefix that covers the first part fixes that part |
| `CloudIpRanges.RangeIsAnInterval` | src/lib/cloud-ip-ranges.ts:220-245 | the addresses that match a range are, as numbers, the interval from its network address on that the remaining bits can number |
| `CloudIpRanges.BucketAgrees` | src/lib/cloud-ip-ranges.ts:220-245 | the first match in a bucket is the first match of all ranges in insertion order |
| `CloudIpRanges.BucketFindsRange` | src/lib/cloud-ip-ranges.ts:15-19 | a range is found for all its addresses exactly if its prefix covers the first part |
| `CloudIpRanges.Buckets.AddIpv4Range` | src/lib/cloud-ip-ranges.ts:48-57 | the bucket of the first octet grows, and the buckets stay those of all inserted ranges |
| `CloudIpRanges.Buckets.AddIpv6Range` | src/lib/cloud-ip-ranges.ts:59-68 | the same for the first hextet |
| `CloudIpRanges.Buckets.SearchBucket` | src/lib/cloud-ip-ranges.ts:228-232 | the loop finds the first match of a bucket |
| `CloudIpRanges.Buckets.GetCloudTags` | src/lib/cloud-ip-ranges.ts:220-248 | the tags of the first inserted range of the family whose interval contains the address, and none if no range does (section 3.1 of RFC 4632, section 2.3 of RFC 4291) |
| `LegalNames.SplitsAreExactlyCuts` | src/lib/geoip/legal-name-normalization.ts:168-182 | the generator lists exactly the ways of joining adjacent parts |
| `LegalNames.MultiPartMatchMeans` | src/lib/geoip/legal-name-normalization.ts:184-191 | words match exactly if each dash-separated one can be cut at its dots into blocks of the set |
| `LegalNames.PartsAreCutAtDashesAndDots` | src/lib/geoip/legal-name-normalization.ts:184-188 | the parts between dashes and dots, joined again, are the words without spaces, commas and parentheses, and contain no separator |
| `LegalNames.LowerCaseIsByAlphabet` | src/lib/geoip/legal-name-normalization.ts:97 | capitals become the small letters at their places in the alphabet and nothing else changes |
| `LegalNames.SequenceByWords` | src/lib/geoip/legal-name-normalization.ts:97-99 | a sequence is its words, each normalized, with the separators between them |
| `LegalNames.FormMeans` | src/lib/geoip/legal-name-normalization.ts:96-101 | words are a form if the set has their sequence, or if all their parts between dashes can be cut into members of the set |
| `LegalNames.RestartsByCharacters` | src/lib/geoip/legal-name-normalization.ts:105-112 | by the last characters of the word before and the first one of what went |
| `LegalNames.StrippingIsRounds` | src/lib/geoip/legal-name-normalization.ts:85-121 | the stripped words are what rounds leave that each cut the longest form from the second word on, or a connector at the end, until a round does not ask for another one or nothing can go |
| `LegalNames.RoundsLeaveOneThing` | src/lib/geoip/legal-name-normalization.ts:85-121 | such rounds leave only that |
| `LegalNames.RoundsKeepSomething` | src/lib/geoip/legal-name-normalization.ts:85-121 | they leave a non-empty prefix without a connector at the end, of which nothing can go where the last word asks for another round |
| `LegalNames.StripSuffixWithSet` | src/lib/geoip/legal-name-normalization.ts:85-121 | with all its restarts the loop ends, and leaves what such rounds leave |
| `LegalNames.PrefixStrippingIsRounds` | src/lib/geoip/legal-name-normalization.ts:123-133 | what prefix stripping leaves is what rounds leave that each take the longest form in reach, which is shorter each time, until none is left in reach |
| `LegalNames.PrefixRoundsLeaveOneThing` | src/lib/geoip/legal-name-normalization.ts:123-133 | such rounds leave only that |
| `LegalNames.StripPrefixWithSet` | src/lib/geoip/legal-name-normalization.ts:123-133 | the loop on the shrinking list leaves what such rounds leave, also for no words |
| `LegalNames.PrefixStrippingKeepsSomething` | src/lib/geoip/legal-name-normalization.ts:123-133 | a suffix of the words stays, and nothing if and only if the words can be cut into forms, each the longest that the descending index still reaches |
| `LegalNames.CutsEndWithAForm` | src/lib/geoip/legal-name-normalization.ts:123-133 | such a cut ends with words that are a form by themselves, so without one something stays |
| `LegalNames.PrefixStrippingCanTakeAll` | src/lib/geoip/legal-name-normalization.ts:123-133 | an instance of such a cut: a form of two words and then one of one word |
| `Schedule.SameTimesMeansSame` | src/schedule/loader.ts:62-73 | no fewer schedules and no other time means the same schedules with the same times |
| `Schedule.LoadedAreEnabled` | src/schedule/loader.ts:31-60 | of rows with different ids exactly the enabled ones are loaded |
| `Schedule.ScheduleLoader.Sync` | src/schedule/loader.ts:31-81 | an update is emitted exactly if the set of schedules or some update time changed |
| `Schedule.ScheduleLoader.HasOtherTime` | src/schedule/loader.ts:65-72 | the loop finds a schedule with another time exactly if there is one |
| `Schedule.FirstDelay` | src/schedule/executor.ts:77-91 | the first delay is above zero, at most the interval, and aligned to the chosen second |
| `Schedule.ZeroIntervalNeverAdvances` | src/schedule/executor.ts:87-89 | with a zero interval no number of rounds gets past the current time |
| `Schedule.StreamScheduleExecutor.CreateTimer` | src/schedule/executor.ts:76-108 | a schedule without a timer gets one live timer, held in the map, whose first delay ends at the chosen second modulo the interval |
| `Schedule.StreamScheduleExecutor.FirstFire` | src/schedule/executor.ts:98-105 | the interval replaces the first timeout in the map |
| `Schedule.StreamScheduleExecutor.SyncTimers` | src/schedule/executor.ts:44-74 | exactly the enabled schedules have a timer, with their intervals, and right timers are left alone |
| `Schedule.StreamScheduleExecutor.Start` | src/schedule/executor.ts:29-32 | a started executor is in sync |
| `Schedule.StreamScheduleExecutor.Stop` | src/schedule/executor.ts:34-42 | a stopped executor leaves no live timer |
| `Schedule.StreamScheduleExecutor.LoaderSync` | src/schedule/loader.ts:75-80 | over all loader synchronizations a started executor has exactly one live timer per enabled schedule; right intervals stay right if and only if an update was emitted or no interval changed |
| `Schedule.UnchangedTimeKeepsOldInterval` | src/schedule/loader.ts:62-80 | an interval that changes under an unchanged update time leaves the old timer |
| `Schedule.StreamScheduleExecutor.FirstTimeout` | src/schedule/executor.ts:98-105 | a first timeout keeps that, and the intervals |

## Left out

* Real Redis, SQL, BullMQ, socket.io, Brotli and Joi: only their effects on state are modelled.
* HTTP routing, middleware, metrics, logging, the demo, migrations and seeds: no hard property.
* Convergence of probe stats, and recovery from a publication that fails after its document was written: the code does not provide them.
* Replacing probe stats in place inside a captured copy: the protocol patches values, so a failed fetch does not change the old copy's stats.
* The comparison callback of a push: stats of a probe that also differs otherwise are always sent in the model, while the deep comparison may end before it reaches them.
* Administrator and adoption overrides of the listed probes, and messages between nodes.
* Overlapping pushes or overlapping pulls of one node: a node runs one of each at a time.
* Failing commands of a measurement's creation: the rest of its commands may stay unrun, but none fails.
* Key expiry other than of the counter and the document, and the per-test keys for IPs, metadata and tests.
* The check of a request's limit before its probes are selected, which counts nothing.
* The reset of a limiter's window while requests are in flight: one window is modelled.
* The failed attempts to pay that each worker process remembers for itself: the model has one such memory for all requests of a window.
* MeasurementCounter.CounterIsExact: test ids of a result are in range and were sent, since nobody else reports.
* Floating-point weights: weights are natural numbers, and the equal weights of one global limit are all 1.
* Filters by tag, network, city and magic words: any list of matches, and any positions of magic words, are allowed in their place.
* The dispatch of a request to one of the ways of selection.
* The formatting functions and custom locations of the copied dashboard columns: a matched pair comes with the values that its columns should have.
* The daily sync date, notifications and the creation of rows for new probes.
* The order of live probes by socket id before duplicates of an IP are removed: the matching holds for every order.
* The lookup of a probe's owner by token, uuid or IP: each probe comes with its owner.
* Checks of alternative IPs when a probe reports them: admission covers a probe without any, as the code does.
* Non-ASCII lower case in legal names, the patterns before and after the stripping, and national suffixes.
* Timer delays beyond the 31 bits of the runtime, and time zones with seconds in their offsets.
* What a fired schedule measures.
* Geographic lookups, downloads and parsing of range files, authentication and tokens.
