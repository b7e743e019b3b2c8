# Open Nipper: verified models of the gateway, session store and agent helpers

A Dafny 4.11 project that models the stateful core of the Open Nipper gateway and proves what it keeps over every run:
the append/compact protocol of session transcripts and its file lock, the session index, the message pipeline from
registration to delivery, the read cache over the repository, the rate limiter, phased shutdown, and the smaller
algorithms beside them (session keys, tag stripping, token encoding, tool ranking). `dafny verify dfyconfig.toml`
checks all of it.

Concurrent parts are labelled transition systems: a state, labels, `Enabled`, `Apply`, and `Exec` over any sequence of
labels, so a theorem about `Exec(run)` holds of every interleaving, failure and crash the labels allow. Parts the program
writes as objects with mutable fields are classes whose methods are proved against those systems or against a reference
function of their history. Time is an integer and floating-point scores are reals. A step is one system call, one call of
the broker, of the inner repository or of its cache, or one body that holds a mutex throughout. What holds none - the
router's handlers and flushes, cached reads and writes, appends, compactions - is several steps, with those of other
goroutines in between; its method calls the steps one by one and may be interrupted between any two.

| file | what it holds |
|---|---|
| `Transcript`, `TranscriptSafety`, `Compaction` | the transcript under appends, one compactor, crashes, restarts and a lock that can be taken from its holder; the methods as sequences of system calls |
| `FileLock` | the hard-link lock with stale reclaim |
| `LockedTranscript` | the transcript and the lock file as one system |
| `SessionStore` | session metadata, `sessions.json` and its cache, transcripts and their archive |
| `IndexRaces` | index updates that overlap |
| `Registry`, `Dedup`, `CollectBuffer`, `Dispatcher` | the components of the gateway |
| `Gateway`, `GatewayOrder`, `GatewayDedup`, `GatewayShift`, `GatewaySerial`, `GatewayRouter` | the pipeline made of them: its invariant, what becomes of a message, whose context a response gets, runs without overlap, the methods |
| `RepositoryCache`, `RepositoryCacheStaleness` | the TTL cache over the repository |
| `TagStripper`, `TagSeams` | the tag strippers, and when a tag survives them |
| `RateLimiter`, `Shutdown`, `SessionKey`, `Base62`, `ToolMatchers` | one component each |
| `Sorting`, `Strings`, `Common` | stable sorting, the string functions used, sequences |

## Where the code and its documentation differ, and other limits found

- `pkg/session/compaction.go:17-20` promises no data loss. That holds across crashes, but an append that lands between
  a compaction's load and its rename is dropped with no crash, failure or lock theft (`TranscriptSafety.LossIsReachable`);
  `DiskMatchesHistory` gives the exact condition and the exact lines.
- The file lock can be taken from a live holder (next item), and then an append can go to a file that has been replaced:
  a run loses a line although no line fell into a window (`TranscriptSafety.TheftLosesALine`). Without theft only the
  windows lose lines (`HonestLockLosesOnlyWindows`), and a disciplined use of the lock file excludes theft
  (`LockedTranscript.DisciplinedLocksLoseOnlyWindows`).
- `pkg/session/lock.go:98-99` calls Unlock safe without Lock; it removes whoever's lock file is there. A missing file
  counts as stale and the test and the removal are separate, so two processes can hold the lock
  (`FileLock.TwoHolders`); `BreaksExactlyByEviction` names the only steps that do it.
- `internal/gateway/registry.go:22-24` says the first response matches the first queued message. Messages are registered
  before they are deduplicated, batched or published, and handlers of one session run at the same time, so responses can
  be shifted or crossed; `GatewayShift.Shift` gives the exact distance in every run. `GatewaySerial.ResponsesCanCross` is
  the run in which any two messages of a session that are no duplicates get each other's response, on a channel that does
  not collect; `NoOverlapNoOvertaking` says that it takes overlap or answers out of order.
- `internal/datastore/cache.go:61-135`: a read that misses asks and stores without a lock, so a write can fall in between,
  and the answer from before it is then cached for a full TTL (`RepositoryCache.FillAcrossWriteIff`; the run is
  `RepositoryCacheStaleness.DisabledUserServed`).
- `internal/datastore/cache.go:24` says writes invalidate the relevant keys. A change of a `*` allowlist entry leaves
  the user's cached channels as they are, and RemoveIdentity, DeleteUser and SetAgentRMQUsername leave entries behind;
  each has its exact condition in `RepositoryCacheStaleness`.
- `pkg/session/store.go:299` and `:352` drop the error of the index write, so a successful call does not mean
  an indexed session, and a failed write leaves the cache different from the file (`SessionStore.LostIndexWrite`,
  `FailedWriteTaintsCache`).
- `pkg/session/store.go:440-478` releases its mutex between the read and the write of the index, so of two sessions created
  at the same time one can be missing from it though both calls succeed (`IndexRaces.SessionGoesMissing`); all are listed
  exactly when no index write came between the read and the write of another call (`AllListedIffQuiet`).
- `internal/gateway/dedup.go:99-101` and the cache keys of `internal/datastore/cache.go:39-57` join names by colons;
  `Dedup.UsersShareKeyIff` and `RepositoryCache.KeysCollideIff` say exactly which names collide.
- `internal/gateway/dispatcher.go:97-128`: the comment at line 98 lets a broadcast source have no adapter, but without one,
  or with a context that streams, deltas are not accumulated and a broadcast leaves them out (`Dispatcher.BroadcastLosesADelta`).
  It says all that was heard exactly when its channel buffers, or nothing more was heard (`BroadcastSaysAllIff`). Cron, the
  only broadcast source of the program, has an adapter and does not stream, so it is in the good case.
- `internal/ratelimit/limiter.go:33-68`: after the suggested wait an attempt is still refused; it is allowed one tick
  later (`RateLimiter.RetryAfterIsExact`). The clock is read before the lock is taken (line 38); calls late by up to d
  shorten the guaranteed window by exactly d (`RateLimiter.Limiter.HoldsAtMostMax`, `LateCallOvershoots`).
- `pkg/session/key.go:49` says spaces become hyphens; the code drops them, and the model follows the code.
- `internal/agent/runtime.go:2029-2033`: removing `<think>` blocks can leave a `<think>` tag that the pieces around a
  block form when joined (`TagStripper.JoinedTextCanHoldATag`). It does so exactly when two texts meet in the tag
  (`TagSeams.ShownTagIffSeam`), and never when no beginning of the tag stands right before one (`TagSeams.NoStutterNoTag`).
- `internal/agent/tools/embedding_matcher.go:174-223`: a tool that a list names twice can overtake one that is ranked
  better in every list (`ToolMatchers.RepeatedToolOvertakes`); one named at most once cannot (`NeverOvertakenIff`).

## Model

| member | source | states |
|---|---|---|
| TranscriptSafety.DiskMatchesHistory | pkg/session/compaction.go:17-178 | in every interleaving of appends, compactions, kills, failures and lock thefts: archives of compactions that reached their rename, in order, then the live transcript, are exactly the surviving lines of the log; written lines split into those and the lost ones; nothing is lost iff no line landed between a load and its rename and none was written through a handle to a replaced file |
| TranscriptSafety.HonestLockLosesOnlyWindows | pkg/session/store.go:244-271 | if the lock is never taken from a live holder no line goes to a replaced file, and nothing is lost iff no line landed in a window |
| TranscriptSafety.TheftLosesALine | pkg/session/lock.go:76-115 | a run without kill or failure in which no line landed in a window and a theft of the lock loses one |
| TranscriptSafety.RenameDropsItsWindow | pkg/session/compaction.go:49-78 | one rename drops exactly the lines that landed since its own load |
| TranscriptSafety.OnlyWriteAndRenameTouchTheTranscript | pkg/session/compaction.go:110-178 | no other step, crash or failure changes the live transcript |
| TranscriptSafety.CompactionCountIsExact | pkg/session/compaction.go:80-92 | stored compaction count = renames less those that never recorded it |
| TranscriptSafety.LossIsReachable | pkg/session/compaction.go:49-78 | a run without kill, failure, give-up or theft that loses a line |
| TranscriptSafety.Reachable | pkg/session/store.go:244-271 | invariant of all runs, thefts included: whoever the lock file names believes to hold it, open handles are on files that no name but the transcript's leads to, what the compactor loaded plus the archives is what had survived, the count is exact |
| Transcript.LogConserves | pkg/session/compaction.go:49-78 | every written line either survives or is lost, counted with multiplicity |
| Transcript.NothingLostIffQuiet | pkg/session/compaction.go:49-78 | on the log alone: nothing lost iff quiet |
| Compaction.Compact | pkg/session/compaction.go:44-103 | done iff keep is positive, the transcript is there and readable, and it is short enough or no call fails, the archive name is free and the lock is not held when asked; then the counts add up, the stored count is one more and the log shows the rename of this call's load; on failure the metadata is untouched and the transcript was replaced iff only the metadata write failed |
| Compaction.WriteCompactionArchive | pkg/session/compaction.go:110-135 | the loop writes all lines before the split iff the name is free and no call fails; else it is at rest |
| Compaction.StageTranscript | pkg/session/compaction.go:137-163 | the loop writes all lines after the split to the temporary file iff no call fails; else nothing is replaced |
| Compaction.RewriteTranscript | pkg/session/compaction.go:137-178 | replaces the transcript once and commits one archive iff no call fails and the lock is not held when asked; else commits none |
| Compaction.AppendTranscript | pkg/session/store.go:244-271 | succeeds iff no call fails and the lock is not held when asked; success means the line was written, and if the lock was not stolen it is in the log; an own lock is not left behind |
| FileLock.MutualExclusion | pkg/session/lock.go:48-135 | at most one holder, and the file is that holder's, in every run where holds end within 30 minutes of their stamp and a removal takes the file it inspected |
| FileLock.FusedExclusion | pkg/session/lock.go:76-78 | with test and removal fused only the 30-minute bound is needed |
| FileLock.BreaksExactlyByEviction | pkg/session/lock.go:98-103 | a step breaks exclusion if and only if it removes the file of a live holder |
| FileLock.TwoHolders | pkg/session/lock.go:76-115 | the run in which two processes hold the lock |
| LockedTranscript.DisciplinedLocksLoseOnlyWindows | pkg/session/store.go:244-271 | in every run of appends, compactions, lock instances and sweeps in which holds end within 30 minutes and removals take the file inspected, no append goes to a replaced transcript, and nothing is lost iff no line landed in a window |
| LockedTranscript.Reachable | pkg/session/lock.go:48-135 | in every such run, disciplined or not, the lock the transcript sees is the lock file, and its holders are the instances that hold |
| LockedTranscript.StolenIffHeld | pkg/session/lock.go:98-135 | a removal of the lock file is a theft exactly when an instance holds it |
| LockedTranscript.RunsInside | pkg/session/lock.go:48-135 | each run contains a run of the lock and one of the transcript, so their theorems hold of it |
| FileLock.Lock | pkg/session/lock.go:48-96 | the retry loop: acquired iff holding the file with the stamp taken before the loop; one try to link an iteration, waits of 100, 200, 400 and then 800 ms, none begun past the deadline of at least ten seconds; given up only past that, or cancelled |
| FileLock.CondemnedIffOld | pkg/session/lock.go:111-135 | a file is judged stale iff it is gone, was acquired more than thirty minutes ago, or is unreadable and more than five minutes old |
| FileLock.Unlock | pkg/session/lock.go:98-103 | the file at the path is gone, whoever's it was |
| FileLock.CleanStaleLocks | pkg/session/lock.go:140-162 | removes exactly the stale lock files of the directory |
| FileLock.SweptIffOld | pkg/session/lock.go:149-160 | the sweep takes exactly the files named like session locks that are so old |
| SessionStore.IndexFollowsMeta | pkg/session/store.go:107-165 | after any run of successful operations the index holds exactly one up-to-date entry per meta file and the cache equals it |
| SessionStore.UpdateIndexRestores | pkg/session/store.go:480-520 | after any run, failures and crashes included, one UpdateIndex restores that |
| SessionStore.ListShowsEverySession | pkg/session/store.go:190-201 | a listing shows each session once, as its meta file has it |
| SessionStore.ListingShowsFields | pkg/session/store.go:190-201 | field by field: a listing after a good run has each session once, with key, channel, status, model, message count and both times of its metadata file, and no other |
| SessionStore.RebuiltShowsFields | pkg/session/store.go:480-520 | the same of the index after any run and one UpdateIndex |
| SessionStore.MetadataWritten | pkg/session/store.go:107-362 | what create, update and archive leave in the metadata file once they have written it, field by field, and that no other session changes |
| SessionStore.MetadataNotWritten | pkg/session/store.go:343-352 | otherwise no metadata changes, though an archiving puts its entry into the index all the same |
| SessionStore.CacheServesFor45Seconds | pkg/session/store.go:405-438 | a listing that fills the cache is served from it for 45 seconds |
| SessionStore.UpsertCachesFor45Seconds | pkg/session/store.go:440-478 | so is an update of the index, written or not |
| SessionStore.LostIndexWrite | pkg/session/store.go:143-157 | a metadata write whose index write failed or was not reached leaves the index right iff the entry would not have changed |
| SessionStore.FailedWriteTaintsCache | pkg/session/store.go:440-478 | a failed index write leaves the cache different from the file iff it replaced an entry by a different one |
| SessionStore.SuccessDoesNotMeanIndexed | pkg/session/store.go:274-307 | two calls reporting success after which index and cache are wrong |
| SessionStore.Store.UpsertIndex | pkg/session/store.go:440-478 | replaces in the shared slice or appends, and keeps file and cache as the two writes leave them |
| SessionStore.Store.RebuildIndex | pkg/session/store.go:480-520 | one entry per readable meta file, in directory order |
| SessionStore.Store.CreateSession | pkg/session/store.go:107-165 | a session iff metadata, transcript file and index are all written; whole new state in every case |
| SessionStore.Store.UpdateMeta | pkg/session/store.go:274-307 | error only for a missing session or a failed read or write of its metadata; whole new state |
| SessionStore.Store.ArchiveSession | pkg/session/store.go:317-362 | an error iff the lock, the move or the read of the metadata fails, the last with the transcript moved; otherwise status and index after the best-effort writes; whole new state |
| SessionStore.Store.ResetSession | pkg/session/store.go:366-401 | whole new state and result, whichever of its writes fail |
| SessionStore.ResetKeepsSessions | pkg/session/store.go:366-401 | whatever fails, a reset loses no session, changes at most status and time of the old one, moves its transcript iff the archiving got that far, and makes the new one iff its metadata could be written |
| SessionStore.ResetCarriesOver | pkg/session/store.go:381-390 | the new session is active and empty on the channel and carries the old model and channel data |
| SessionStore.ResetKeepsIndex | pkg/session/store.go:366-401 | with every write succeeding the index invariant is kept |
| SessionStore.TranscriptsConserved | pkg/session/store.go:107-362 | no operation, however it fails, loses a transcript: it is in its place or in the archive |
| IndexRaces.IndexIsSurviving | pkg/session/store.go:440-478 | with any number of overlapping calls the index is what the surviving writes make of an empty one; a write undoes those since its own read |
| IndexRaces.IndexRightIff | pkg/session/store.go:440-478 | the index represents the sessions iff each one's last surviving entry is made from its metadata |
| IndexRaces.AllListedIffQuiet | pkg/session/store.go:107-165 | when all calls create sessions and have returned without an error, every session is in the index iff no index write came between the read and the write of another call |
| IndexRaces.SessionGoesMissing | pkg/session/store.go:143-165 | for any two sessions, the run in which both calls succeed and one is not in the index |
| SessionStore.Store.ListSessions | pkg/session/store.go:190-201 | cache while it lasts, else the file, which fills the cache |
| Registry.Registry.Register | internal/gateway/registry.go:37-48 | appended at the back of the session's queue; FIFO history and length accounting kept |
| Registry.Registry.Consume | internal/gateway/registry.go:65-78 | pops the front; an emptied queue leaves the map |
| Registry.Registry.Len | internal/gateway/registry.go:81-89 | registered less consumed less evicted |
| Registry.Registry.EvictOlderThan | internal/gateway/registry.go:93-113 | every queue keeps, in order, exactly the entries not before the cutoff; the count returned is what left |
| Registry.FilterInPlace | internal/gateway/registry.go:98-106 | the in-place filter equals filtering the old queue |
| Registry.EvictKeepsHistories | internal/gateway/registry.go:93-113 | eviction keeps served-then-queued a subsequence of registered, and all of it while nothing was evicted |
| Dedup.Deduplicator.IsDuplicate | internal/gateway/dedup.go:51-72 | true iff the key was accepted less than one window ago; accepted calls of a key are a window apart |
| Dedup.Deduplicator.EvictExpired | internal/gateway/dedup.go:114-123 | the cleanup, with a time that may be late, is unobservable in the history specification |
| Dedup.LookupAnswersHistory | internal/gateway/dedup.go:58-66 | what the map answers is what the history answers |
| Dedup.AcceptKeepsAgrees | internal/gateway/dedup.go:66-72 | an accepted call keeps map and history in agreement |
| Dedup.BuildKeyInjective | internal/gateway/dedup.go:99-101 | colon-free users never share a key, and then strategy and raw key agree too |
| Dedup.UsersShareKeyIff | internal/gateway/dedup.go:99-101 | two users can share a key iff one id is the other with a colon and the name of a strategy behind it, and then nothing or a colon and more |
| Dedup.KeySpelled | internal/gateway/dedup.go:99-101 | the key texts |
| CollectBuffer.NothingIsLostOrReordered | internal/gateway/router.go:332-430 | per key, extracted batches in order then the buffer equal the arrivals; no empty batch; every buffer has an armed timer or a flush under way |
| CollectBuffer.QuietMeansDelivered | internal/gateway/router.go:332-430 | with no timer and no flush left, everything was extracted |
| CollectBuffer.FlushDrains | internal/gateway/router.go:381-430 | timer then flush empties any reachable buffer |
| CollectBuffer.FullStopsTheTimer | internal/gateway/router.go:338-377 | a flush is started exactly when the buffer is full, which stops its timer; a new buffer gets one |
| CollectBuffer.TimersStartFlushes | internal/gateway/router.go:357-391 | a timer that goes off starts one flush, also one left behind; an extraction leaves a running timer behind |
| CollectBuffer.BufferKeyInjective | internal/gateway/router.go:333-335 | different users or channels never share a buffer |
| CollectBuffer.Router.EnqueueCollect | internal/gateway/router.go:332-378 | one enqueue step, full buffers stop the timer and start a flush |
| CollectBuffer.Router.FlushCollectBuffer | internal/gateway/router.go:381-430 | the whole buffer becomes one item whose primary is its last message |
| GatewayShift.Shift | internal/gateway/router.go:113-228 | in every interleaving of handlers and flushes, the exact distance between the message an event answers and the message whose context delivers it: unanswered before, less overtakers, less surplus events, plus misses |
| GatewayShift.ResponseMatchesMessage | internal/gateway/registry.go:20-78 | they coincide iff unanswered earlier registrations and empty-queue events together equal overtakers and surplus events |
| GatewayShift.FifoDelivery | internal/gateway/dispatcher.go:75-92 | the j-th event of a session that finds a context gets the j-th registration |
| GatewayShift.UnpublishedIsUnanswered | internal/gateway/router.go:165-228 | suppressed, batched and unpublished messages count as unanswered for good |
| GatewayOrder.Reachable | internal/gateway/router.go:113-228 | invariant over all interleavings: each message is where its fate says and in one place only, each queue is the session's registrations less those consumed, no item is answered twice |
| GatewayOrder.PrimariesDiffer | internal/gateway/router.go:404-430 | no message is the primary of two items |
| GatewayOrder.SuppressedIsNeverSent | internal/gateway/router.go:162-175 | a suppressed duplicate is in no published item, then or after any further steps |
| GatewayOrder.ContextsAreTheirMessages | internal/gateway/router.go:162 | in every run each queued context is that of the message that registered it, in its session's queue |
| GatewayDedup.SuppressedIffRepeats | internal/gateway/router.go:164-175 | in every run a message is suppressed iff one of the same user was accepted less than a window before with the same origin id or, both having none, the same text hash; never with neither |
| GatewayDedup.CollectsIffMode | internal/gateway/router.go:283-297 | an accepted message is buffered iff the mode of its channel, its own or else the default, is collect, and published iff not |
| GatewayDedup.BuffersAsConfigured | internal/gateway/router.go:338-362 | in every run a buffer has the cap its messages' channel configures, if positive, else five, and its priority, else zero |
| GatewaySerial.NoOverlapNoOvertaking | internal/gateway/router.go:113-228 | if no handler or flush of a user and channel starts while another is under way and the agent answers in order, nothing is overtaken |
| GatewaySerial.SerialReachable | internal/gateway/router.go:332-430 | in such runs items are published in the order of their primaries, ahead of all that is buffered or under way |
| GatewaySerial.ResponsesCanCross | internal/gateway/router.go:159-199 | for every configuration and any two messages of one session that are no duplicates and do not collect, the run in which they get each other's response, with none suppressed or unanswered |
| GatewayRouter.Router.HandleNormalizedMessage | internal/gateway/router.go:113-228 | guard, session, register, deduplicate, buffer or publish, with any steps of other goroutines in between: who is turned away and leaves no trace, and for everyone else whether it repeats a message, is buffered, or is published or not |
| GatewayRouter.Router.CheckDuplicate | internal/gateway/router.go:164-175 | one step of the pipeline, and the answer is whether the message repeats one |
| GatewayRouter.Router.EnqueueCollect | internal/gateway/router.go:332-378 | one step of the pipeline; the message is buffered |
| GatewayRouter.Router.ExtractBuffer | internal/gateway/router.go:381-402 | the locked part of a flush is one step; a batch is taken iff the buffer is there, and is the whole of it |
| GatewayRouter.Router.TimerFires | internal/gateway/router.go:357-378 | a timer, current or left behind, is one step |
| GatewayRouter.Router.FlushCollectBuffer | internal/gateway/router.go:381-430 | extract, then publish that batch, with other goroutines at work in between |
| GatewayRouter.Router.TakeContext | internal/gateway/dispatcher.go:75-92 | a terminal event takes the oldest context, which is that of the message that registered it |
| Dispatcher.DoneDeliversPending | internal/gateway/dispatcher.go:151-208 | a done event is answered once with the in-order concatenation of the deltas since the last terminal event, or its own text |
| Dispatcher.ChunksPartition | internal/gateway/dispatcher.go:151-208 | every routed delta belongs to exactly one chunk or is pending; a chunk is closed by a done event, which delivers it, or by an error or an eviction, which drop it |
| Dispatcher.AccumulatorImpliesContext | internal/gateway/dispatcher.go:70-92 | an accumulator implies a queued context |
| Dispatcher.BroadcastDeliversPending | internal/gateway/dispatcher.go:327-381 | the same text goes once to each well-formed target with an adapter, in order |
| Dispatcher.BroadcastAddresses | internal/gateway/dispatcher.go:327-381 | a broadcast answers each notify target whose text before the first colon has an adapter once, in order, and no other: channel and id rejoin to the target, session and user are the event's, and the text is the accumulated one or else the event's |
| Dispatcher.DirectAnswers | internal/gateway/dispatcher.go:105-208 | which other events are answered, once, on the context's own channel, and with what text: streamed, accumulated, or the error's |
| Dispatcher.AgeOfAccumulator | internal/gateway/dispatcher.go:153-162 | an accumulator is as old as its first delta |
| Dispatcher.EvictsAfterFiveMinutes | internal/gateway/dispatcher.go:472-480 | an eviction drops exactly those more than five minutes old |
| Dispatcher.BroadcastSaysAllIff | internal/gateway/dispatcher.go:97-129 | a broadcast says all deltas heard since the last boundary iff the channel of its context has an adapter and does not stream, or nothing was heard, or just what the done event says |
| Dispatcher.BroadcastLosesADelta | internal/gateway/dispatcher.go:97-129 | for every context that does not buffer, the run in which a delta is missing from the broadcast |
| Dispatcher.SplitTargetParts | internal/gateway/dispatcher.go:340-352 | a target splits at its first colon, iff it has one |
| Dispatcher.DeliverWithRetry | internal/gateway/dispatcher.go:423-456 | at most three attempts; delivered iff some attempt succeeds that no cancelled wait comes before, and given up early only in a cancelled wait |
| Dispatcher.Dispatcher.HandleEvent | internal/gateway/dispatcher.go:70-129 | the method is one step of the dispatcher and sends its responses |
| Dispatcher.Dispatcher.RouteEvent | internal/gateway/dispatcher.go:97-129 | broadcast before adapter lookup, then streaming or buffering |
| Dispatcher.Dispatcher.HandleBufferedEvent | internal/gateway/dispatcher.go:151-208 | accumulate, assemble, clear |
| Dispatcher.Dispatcher.DeliverBroadcast | internal/gateway/dispatcher.go:327-381 | the loop over the targets |
| Dispatcher.Dispatcher.EvictStaleAccumulators | internal/gateway/dispatcher.go:472-495 | drops exactly the accumulators older than five minutes |
| RepositoryCache.HitsAreAtMostOneTtlAndOneFillOld | internal/datastore/cache.go:61-135 | in every run, however reads and writes overlap, a cached answer is what the repository answered to that lookup when a read asked that stored it at most one TTL ago |
| RepositoryCache.HitsAreYoung | internal/datastore/cache.go:15-20 | in every run a cached answer was stored at most 60 seconds ago, a policy at most 300 |
| RepositoryCache.FillServesFor | internal/datastore/cache.go:61-135 | a stored answer is served until it is exactly that old |
| RepositoryCache.JanitorIsUnseen | internal/datastore/cache.go:31-34 | the cache's own cleanup takes no answer away that could still be given |
| RepositoryCache.ClearsIff | internal/datastore/cache.go:139-276 | a write drops exactly the entry of the lookup it names; rotation, status change and deletion of an agent drop all |
| RepositoryCache.OwnEntryDecides | internal/datastore/sqlite/allowlist.go:15-31 | a user's own allowlist entry decides, and only without one the wildcard entry |
| RepositoryCache.RemovedEntryFallsBack | internal/datastore/sqlite/allowlist.go:52-66 | a removed entry leaves the channel to the wildcard; none is an error |
| RepositoryCache.IdentityStays | internal/datastore/sqlite/identities.go:14-39 | an identity stays with the first user it was added for until its row is removed |
| RepositoryCache.UserLife | internal/datastore/sqlite/users.go:15-99 | a created user is enabled, an update sets that only if it says so, a deleted one leaves nothing |
| RepositoryCache.PolicyLife | internal/datastore/sqlite/policies.go:16-64 | a policy is what was last set, until deleted |
| RepositoryCache.AgentLife | internal/datastore/sqlite/agents.go:14-50 | a provisioned agent is found by its hash until deleted |
| RepositoryCache.AgentChanges | internal/datastore/sqlite/agents.go:88-130 | a rotated token is found by its new hash only; status and name show at once |
| RepositoryCache.WriteFailsIff | internal/datastore/sqlite/users.go:15-99 | which writes are errors |
| RepositoryCache.ReadsAreFresh | internal/datastore/cache.go:139-276 | with reads and writes overlapping: if every write is covered and none commits while a read is about to store an answer it changes, a cached answer is current unless a committed write is still to delete it |
| RepositoryCache.FillAcrossWriteIff | internal/datastore/cache.go:64-72 | a covered write and its deletion between a read's question and its store leave the cache right iff they do not change that answer; else the old answer is served for a full TTL |
| RepositoryCache.KeyFixesClass | internal/datastore/cache.go:37-57 | keys of different classes never collide, whatever the names |
| RepositoryCache.KeysAreInjective | internal/datastore/cache.go:37-57 | with colon-free names different lookups have different keys |
| RepositoryCache.KeysCollideIff | internal/datastore/cache.go:39-57 | different lookups share a key iff they are of one class with two names and a colon can be read as part of either name |
| RepositoryCacheStaleness.RemoveIdentityFreshIff | internal/datastore/cache.go:147-151 | fresh iff the identity is not cached |
| RepositoryCacheStaleness.SetWildcardFreshIff | internal/datastore/cache.go:153-159 | fresh iff no channel relying on the wildcard is cached with the other answer |
| RepositoryCacheStaleness.RemoveWildcardFreshIff | internal/datastore/cache.go:161-167 | fresh iff none is cached as allowed |
| RepositoryCacheStaleness.SetRMQUsernameFreshIff | internal/datastore/cache.go:266-268 | fresh iff the agent is not cached under another name |
| RepositoryCacheStaleness.DeleteUserFreshIff | internal/datastore/cache.go:178-184 | fresh iff nothing the deletion cascades to is cached |
| RepositoryCacheStaleness.WildcardGrantNotSeen | internal/datastore/sqlite/allowlist.go:15-31 | a run without overlap in which a wildcard grant is not seen by a cached read |
| RepositoryCacheStaleness.DisabledUserServed | internal/datastore/cache.go:90-101 | a run after which a disabled user is served as enabled, with no call under way: the read stored its answer behind the deletion |
| RepositoryCacheStaleness.CachedRepository.HitHasType | internal/datastore/cache.go:61-135 | a cached value has the type its lookup asserts |
| RepositoryCacheStaleness.CachedRepository.Lookup | internal/datastore/cache.go:61-135 | the live entry, or an answer the repository gave during the call, stored with its TTL; errors are not cached; other goroutines run in between |
| RepositoryCacheStaleness.CachedRepository.GetUserPolicy | internal/datastore/cache.go:104-118 | the read of that class |
| RepositoryCacheStaleness.CachedRepository.Write | internal/datastore/cache.go:139-226 | inner write, then deletion of its keys on success only, with other goroutines in between |
| RateLimiter.WindowHoldsAtMostMax | internal/ratelimit/limiter.go:42-68 | if each event was admitted with fewer than max before it in its window, in whatever order of times, no closed interval of that length holds more than max |
| RateLimiter.RetryAfterIsExact | internal/ratelimit/limiter.go:42-68 | after a denial with retry-after r, an attempt is allowed iff it is after now + r |
| RateLimiter.PrefixIsFilter | internal/ratelimit/limiter.go:116-124 | prefix pruning of a sorted list equals filtering |
| RateLimiter.Prune | internal/ratelimit/limiter.go:116-124 | the loop drops the leading old events |
| RateLimiter.Limiter.AllowAt | internal/ratelimit/limiter.go:37-68 | whole new state for any time; while no call has come late, same answer, hint and history as the reference that prunes nothing |
| RateLimiter.Limiter.HoldsAtMostMax | internal/ratelimit/limiter.go:37-68 | after any calls, late ones included, no closed interval of the window's length less the greatest lateness holds more than max accepted events |
| RateLimiter.LateCallOvershoots | internal/ratelimit/limiter.go:37-68 | for every maximum, window and lateness, calls that put one too many into an interval one longer |
| RateLimiter.PrunedKeepsRecent | internal/ratelimit/limiter.go:116-124 | in any order of times, pruning loses nothing a later cutoff can see |
| RateLimiter.Limiter.CountAt | internal/ratelimit/limiter.go:78-94 | accepted events in the window; with late calls, what is stored of them |
| RateLimiter.Limiter.CleanupAt | internal/ratelimit/limiter.go:98-113 | every key pruned and the empty ones gone, for any time; the history is untouched |
| Shutdown.LaterPhasesWait | internal/lifecycle/lifecycle.go:68-169 | in every interleaving, timeouts included, a stop function is called only after those of all lower phases returned |
| Shutdown.StopsRunExactlyOnce | internal/lifecycle/lifecycle.go:118-169 | never twice; exactly once when Shutdown returns |
| Shutdown.ErrorsAreComplete | internal/lifecycle/lifecycle.go:81-94 | the reported errors are exactly the failures and timeouts, in order, one timeout a phase at most |
| Shutdown.EveryFailureIsReported | internal/lifecycle/lifecycle.go:118-169 | one by one, the report has every failed stop and every timeout as they happened, and no more |
| Shutdown.OnlyStopsAreAwaited | internal/lifecycle/lifecycle.go:148-166 | Shutdown waits for nothing but stop functions still running |
| Shutdown.GroupByPhase | internal/lifecycle/lifecycle.go:101-116 | non-empty uniform groups, neighbours of different phase, flattening back to the list |
| Shutdown.GroupsIncrease | internal/lifecycle/lifecycle.go:76-80 | groups of the sorted list have strictly increasing phases |
| Shutdown.Manager.Plan | internal/lifecycle/lifecycle.go:70-80 | the grouping of the stable sort of what is registered |
| Sorting.StableSortIsRight | internal/lifecycle/lifecycle.go:76-78 | sorted, a permutation, ties in their original order |
| Sorting.StableSortIsUnique | internal/lifecycle/lifecycle.go:76-78 | any stable sort gives that result |
| Sorting.InsertionSort | internal/agent/tools/matcher.go:74-79 | the in-place swaps compute the stable sort |
| SessionKey.BuildOfParse | pkg/session/key.go:10-44 | building from a successful parse gives the key back |
| SessionKey.KeySpelled | pkg/session/key.go:10-15 | the key text |
| SessionKey.ParseOfBuild | pkg/session/key.go:10-44 | parsing a built key gives the components back, iff the stated condition on them holds |
| SessionKey.ColonFreeRoundTrip | pkg/session/key.go:10-44 | in particular for non-empty ids with colon-free user and channel |
| SessionKey.SanitizeSessionID | pkg/session/key.go:52-71 | the loop computes the sanitized id |
| SessionKey.CleanedCharByChar | pkg/session/key.go:56-65 | spaces are dropped, letters, digits, hyphens and underscores stay, any other character becomes a hyphen |
| SessionKey.SanitizedBetweenHyphens | pkg/session/key.go:66-70 | the result is what is between the hyphens at the ends, or the standing name |
| SessionKey.SanitizedIsSafeName | pkg/session/key.go:46-71 | never empty, only safe characters, no hyphen at the ends, idempotent |
| SessionKey.ResolvedKeyParses | pkg/session/key.go:10-71 | keys built from sanitized ids parse back |
| TagStripper.CutIsTheDecomposition | internal/agent/runtime.go:2041-2063 | Cut is the one leftmost decomposition that reassembles to the input |
| TagStripper.StripThinkTags | internal/agent/runtime.go:2033-2068 | visible text = trimmed join of its texts, thinking = trimmed join of its trimmed blocks and unclosed tail; untouched without a tag |
| TagStripper.ThoughtsAreBlocks | internal/agent/runtime.go:2054-2061 | the thoughts are the blocks in order, then the unclosed tail, without the spaces around them |
| TagStripper.JoinedTextCanHoldATag | internal/agent/runtime.go:2033-2068 | the input whose visible text is a tag |
| TagSeams.ShownTagIffSeam | internal/agent/runtime.go:2033-2068 | for every input, the visible text holds a tag iff two of the texts between the blocks meet in one |
| TagSeams.ShownMarkerIffSeam | internal/agent/runtime.go:2074-2103 | the same for the chat template tokens, where an unclosed marker stays too |
| TagSeams.NoStutterNoTag | internal/agent/runtime.go:2033-2068 | an input in which no proper beginning of the tag stands right before a tag is left without one |
| TagSeams.TagIffSeam | internal/agent/runtime.go:2041-2063 | joined tag-free texts hold a tag iff one ends in a proper beginning of it and the rest of it follows |
| TagStripper.StripChatTemplateTokens | internal/agent/runtime.go:2074-2103 | trimmed texts without the tokens; an unclosed marker and what follows stay |
| TagStripper.RestClosesUp | internal/agent/runtime.go:2083-2100 | the texts close up over the tokens and nothing else is dropped |
| TagStripper.SalvageCleanSuffix | internal/agent/runtime.go:2237-2273 | the join of the kept paragraphs, or nothing when shorter than ten characters |
| TagStripper.KeptIsLongestCleanTail | internal/agent/runtime.go:2232-2256 | what is kept is the longest tail without a bad paragraph |
| TagStripper.WalkBack | internal/agent/runtime.go:2241-2256 | the backward loop collects the kept paragraphs in reverse |
| Common.ReverseInPlace | internal/agent/runtime.go:2263-2265 | swapping from both ends reverses |
| Base62.EncodeBase62 | internal/admin/agents.go:47-64 | the digits of the bytes' big-endian value |
| Base62.DigitsAreCanonical | internal/admin/agents.go:47-64 | they read back as that value and have no leading zero |
| Base62.CanonicalIsUnique | internal/admin/agents.go:47-64 | and are the only such text |
| Base62.SameCodeIff | internal/admin/agents.go:47-64 | two inputs share a code iff they differ in leading zero bytes at most |
| Base62.EqualLengthInjective | internal/admin/agents.go:47-64 | inputs of one length never share a code |
| Base62.DigitCount | internal/admin/agents.go:54-57 | at most k digits iff the value is below 62^k |
| Base62.AlphabetInOrder | internal/admin/agents.go:18-19 | the alphabet lists the digits in order of value |
| Base62.GenerateToken | internal/admin/agents.go:26-44 | prefix, digits, at most 69 characters; the stored prefix is the first eight |
| Base62.TokensAreDistinct | internal/admin/agents.go:26-44 | different random bytes give different tokens |
| ToolMatchers.KeywordMatch | internal/agent/tools/matcher.go:30-98 | splitting, trimming and scoring included: names of the first maxResults of the stable descending sort of the positively scored entries |
| ToolMatchers.AddHits | internal/agent/tools/matcher.go:45-67 | a scoring loop adds its weight for each hit |
| ToolMatchers.FieldsAreRuns | internal/agent/tools/matcher.go:92-98 | the parts of a name, and the words of a description, are its maximal stretches without separators |
| ToolMatchers.FieldsKeepTheRest | internal/agent/tools/matcher.go:92-98 | together they are all of the text but its separators, so each is there once |
| ToolMatchers.NamePartsAre | internal/agent/tools/matcher.go:92-98 | parts of a name are cut at underscores, hyphens and dots |
| ToolMatchers.WordsAre | internal/agent/tools/matcher.go:54-57 | words of a description are cut at spaces and lose the punctuation at their ends |
| ToolMatchers.TagsAre | internal/agent/tools/matcher.go:63-67 | the tags in lower case, in their order |
| ToolMatchers.BytesOfCharacter | internal/agent/tools/matcher.go:48-57 | lengths count the bytes of UTF-8 |
| ToolMatchers.ScoreCounts | internal/agent/tools/matcher.go:45-67 | three for each part of the name with at least three bytes that occurs in the intent, one for each word with at least four, two for each tag |
| ToolMatchers.PositiveAreScored | internal/agent/tools/matcher.go:69-71 | each entry with a positive score once, with its name and score, in catalog order |
| ToolMatchers.TruncateKeeps | internal/agent/tools/matcher.go:81-83 | a positive maximum keeps that many from the front |
| ToolMatchers.KeywordMatchIsTopRanked | internal/agent/tools/matcher.go:74-83 | nothing left out scores higher than anything returned; ties in catalog order |
| ToolMatchers.HybridMatch | internal/agent/tools/embedding_matcher.go:176-223 | degrade paths; otherwise the truncation of a duplicate-free ranking by fused score |
| ToolMatchers.FuseScores | internal/agent/tools/embedding_matcher.go:193-200 | the loops accumulate exactly the reciprocal-rank sums |
| ToolMatchers.DominatingToolComesFirst | internal/agent/tools/embedding_matcher.go:164-223 | a tool at least as well ranked in both lists and better in a weighted one precedes the other in every ranking and survives truncation with it, if each list names the other at most once |
| ToolMatchers.NeverOvertakenIff | internal/agent/tools/embedding_matcher.go:164-223 | with at most m places for the other in each list that is guaranteed iff m is at most one |
| ToolMatchers.RepeatedToolOvertakes | internal/agent/tools/embedding_matcher.go:193-220 | two lists for which, at every weight below one, every ranking puts a repeated tool before one that dominates it, and returns it in its place |

## Left out

- Media parts, typing indicators, WebSocket fan-out, interrupt control messages and telemetry of the gateway.
- User resolution and alias learning in the router: a message arrives with its user; the guard and the session resolver
  are outcomes.
- The broker, the channel adapters and the agent: publishing and delivering succeed or fail as they like, and the agent
  answers an item of a session at most once, in any order.
- JSON, torn lines, malformed transcript lines and fsync: lines are opaque and one line write is one step.
- A second compactor, or a session archive, running beside a compaction of the same session.
- SessionStore.Store.ArchiveSession: the archive name in whole seconds, by which a second move of one session within a
  second would replace the first; lock and move are one outcome. The compaction archive's stamp is an input.
- Other writers of a session's metadata between Compact's read and write of it.
- Index updates that overlap are in `IndexRaces` only, without cache, failed reads and UpdateIndex; the theorems of
  `SessionStore` on the index are about operations that do not overlap.
- FileLock.Lock: `patience` bounds how many turns of the loop are observed, because reclaiming a stale file starts a
  turn without looking at the deadline; temp-file errors and link errors other than "exists" are not modelled.
- Unparseable lock content appears in the staleness test and the directory sweep only.
- In the transcript model taking the lock is one step that succeeds or not; the retry loop is in `FileLock`, and
  `LockedTranscript` joins the two.
- RepositoryCache.ReadsAreFresh: requires new user ids and token hashes not to be cached, as the generators make them.
- Token hashes of different agents differ, and an agent's status when provisioned is its caller's.
- RateLimiter.Limiter.AllowAt: once a call has come late the answer is stated on the stored events, not on the reference.
- Cron and scheduled jobs, audit log and the other tables of the repository, which are not cached.
- SHA-256 and the randomness of tokens and ids.
- ToolMatchers.KeywordMatch: lower-casing is any function on texts; texts are valid UTF-8.
- ToolMatchers.HybridMatch: scores are reals, so rounding ties of floating point are not modelled.
- The embedding matcher itself, its HTTP client and its vector arithmetic.
- TagStripper.SalvageCleanSuffix: the tests for garbled paragraphs and narration are one abstract predicate.
- The garbled-output thresholds, the HTTP, CLI and configuration code, and all log lines.
