# Verified models of Pingora's caching, routing and parsing core

A Dafny model of the parts of Pingora where a request can go wrong without anyone noticing: the
cache lock and its publication registry, the per-request cache state machine and the `Vary`
families it maintains, streaming reads from the in-memory storage, the consistent-hashing ring,
the HTTP/1 head parser and the response parser built on it, request targets, header maps, and the
sketch counters behind rate limiting.

Each component is one module. A module gives the component's state as a value, each operation as
a function on that value, whole runs as sequences of operations, and theorems about every run.
Code that works by changing things is also written as a class whose methods are proved to do
exactly what the functions say, so the theorems speak about the methods.

| module | models | main results |
|---|---|---|
| `LockProtocol` | cache lock | one waiting writer per key in every run; exactly when a release keeps the protocol |
| `FillRegistry` | publications to waiting readers | a reader sees exactly what the history of publications says; the lock-free skip is equivalent |
| `FillBound` | the registry's sweep | the registry is linear in the live readers; a departed entry goes within a bounded number of registrations |
| `HttpCache` | request cache state machine | every write permit is released once, under the key it was locked with; exactly which operations keep that, and which release with what |
| `CacheSystem` | any number of requests over one cache lock | every run is a run of the lock protocol, with each permit in one hand and released under its own hash; what a misplaced permit does |
| `VaryFamily` | variants of one key, any interleaving of requests | no variant from before its family is served, by date and, iff revalidations fit, by body; refreshes keep exactly the right variants |
| `MemStore` | streaming writes and reads | a reader has a prefix, the end of body means the whole body, and a complete write iff the option is on |
| `Ketama`, `KetamaFailover`, `KetamaTies` | consistent hashing | adding a bucket moves keys only to it; exactly when failover equals rebuilding without the node, for both versions |
| `HeadParse`, `ResponseParse` | HTTP/1 heads and responses | two-stage parsing is one-stage parsing, and exactly when under the configured limit; chunk boundaries do not matter, and the head alone frames the body |
| `RequestTarget` | request targets | absolute form iff the pieces fit; the fragment never changes the authority; what is sent is what came |
| `Estimator`, `Rate` | count-min sketch, in-flight counters, rate | a bound iff no counter overflowed, exact iff alone in a row; slots are windows of the history |
| `VarianceKey`, `FieldValue`, `CaseMap` | variance hash input, field values, header spelling | injective without NUL, and exactly which maps share their bytes; exactly when the order of calls matters; folded lines are joined by one space with every word kept; two maps behave as one |

Conventions. What the source answers with a panic is a precondition. Network, storage answers,
clocks, hashes and library parsers are arguments. Integers are unbounded except where wrap-around
is written out. Steps of different tasks interleave as atomic steps in a total order.

Where the source's comments and its code differ, the model follows the code: `set_write_lock` is
documented to panic without a cache lock, but drops the permit
(`HttpCache.Careful` excludes it; `HttpCache.SetWriteLockConservesIff` says what happens). Adding
to a variance key is documented as insensitive to insertion order, but a later call replaces the
value of an earlier one with the same name (`VarianceKey.OrderOfInsertionDoesNotMatterIff`).

## Model

| member | source | states |
|---|---|---|
| LockProtocol.RunsKeepProtocol | pingora-cache/src/lock.rs:119-174 | every run of lock, release, drop and age-out steps keeps the invariant tying permits, table entries and core statuses together |
| LockProtocol.UnlockKeepsProtocol | pingora-cache/src/lock.rs:369-378 | unlocking a core after removing table entries is safe when no removed entry was another waiting writer's and an entry left behind is replaceable |
| LockProtocol.LockKeepsProtocol | pingora-cache/src/lock.rs:120-156 | locking, which replaces dangling and aged-out entries, keeps the invariant |
| LockProtocol.AgeOutKeepsProtocol | pingora-cache/src/lock.rs:618-634 | a reader may store the age timeout at any moment, over any status |
| LockProtocol.OneWriterPerKey | pingora-cache/src/lock.rs:119-174 | in every reachable state two unreleased waiting permits of one key are the same, and the table holds that core |
| LockProtocol.ReadersWaitForLiveWriters | pingora-cache/src/lock.rs:120-156 | a request is made to wait only behind an outstanding permit of that key that is still waiting |
| LockProtocol.ReleaseTouchesOnlyItsOwnEntry | pingora-cache/src/lock.rs:158-174 | a release removes exactly its own entry, or none once aged out, finishes its own core and no other, and wakes the readers |
| LockProtocol.AgedOutWriterStaysOut | pingora-cache/src/lock.rs:158-174 | no run brings an aged-out writer back, and its late release leaves the table as it is |
| LockProtocol.FinishedStaysFinished | pingora-cache/src/lock.rs:369-378 | a finished core wakes every later reader and never reads as waiting again |
| LockProtocol.ReleaseKeepsProtocolIff | pingora-cache/src/lock.rs:158-174 | releasing under any key with any reason keeps the invariant iff it is the permit's own key, or the permit is aged out, or nothing is locked there, or the reason leaves the own entry replaceable and the entry removed was no waiting writer's |
| LockProtocol.SplitReleaseKeepsProtocolIff | pingora-cache/src/lock.rs:158-174 | with other steps between its status check and its removal, a release keeps the invariant iff no newer waiting writer has taken the entry |
| LockProtocol.SplitReleaseCanEvictNewWriter | pingora-cache/src/lock.rs:158-174 | a concrete run in which that happens |
| LockProtocol.CacheLock.Lock | pingora-cache/src/lock.rs:120-156 | the answer is a new permit or a live writer's core, and the state is the specified one |
| LockProtocol.CacheLock.Release | pingora-cache/src/lock.rs:158-174 | the state is the specified one; with the permit's own key the invariant is kept |
| LockProtocol.CacheLock.Drop | pingora-cache/src/lock.rs:726-734 | an unfinished permit going out of scope leaves a dangling core |
| LockProtocol.CacheLock.StoreAgeTimeout | pingora-cache/src/lock.rs:618-634 | ages the core out and keeps the invariant |
| FillRegistry.FirstMatchIsFirst | pingora-cache/src/lock.rs:417-422 | the match is the first of the reader's fills that is published, and none only if none is |
| FillRegistry.SweepKeepsLive | pingora-cache/src/lock.rs:288-317 | the bounded sweep loses no live waiter and invents none |
| FillRegistry.ScanPartitions | pingora-cache/src/lock.rs:320-343 | a publication's pass keeps exactly the live waiters it does not concern and takes out exactly those it does, each with its first match |
| FillRegistry.PublishTellsExactlyTheMatching | pingora-cache/src/lock.rs:320-343 | a publication tells exactly the live matching waiters, once, with the first match in their order; a sender leaves only when told or closed |
| FillRegistry.StepKeepsValid | pingora-cache/src/lock.rs:288-350 | in every reachable state no live registered waiter matches the published set |
| FillRegistry.SkipIsEquivalent | pingora-cache/src/lock.rs:713-723 | skipping an empty publication over an empty one equals the full path on published tokens, told readers and live waiters |
| FillRegistry.StepTracks | pingora-cache/src/lock.rs:288-350 | one step changes what a reader's channel shows exactly as the reader's history says |
| FillRegistry.ReaderSeesItsHistory | pingora-cache/src/lock.rs:288-350 | over every run a reader is told the first match of the first matching publication after it registered, unless it left first; until then its sender stays |
| FillRegistry.ReaderLearnsEveryPublication | pingora-cache/src/lock.rs:288-317 | from arrival on, the latest earlier publication decides at once and otherwise the later ones do |
| FillRegistry.LockCore.WatchFill | pingora-cache/src/lock.rs:288-317 | registering, with its sweep loop, is the specified step and yields an already published match or a tracked pending reader |
| FillRegistry.LockCore.PublishLocked | pingora-cache/src/lock.rs:320-343 | the in-place pass with swap removal is the specified publication |
| FillRegistry.LockCore.PublishTokens | pingora-cache/src/lock.rs:713-723 | the writer's entry point, skip included, is the specified step |
| FillRegistry.LockCore.DropReceiver | pingora-cache/src/lock.rs:594-597 | a reader that leaves only closes its channel |
| FillBound.SweepKeepsLap | pingora-cache/src/lock.rs:288-317 | one sweep keeps the lap accounting and gives no departed entry more time |
| FillBound.StepKeepsLap | pingora-cache/src/lock.rs:251-258 | every step keeps the accounting, and every registration costs a departed entry one unit of its remaining time |
| FillBound.RegistryStaysSmall | pingora-cache/src/lock.rs:251-258 | with at most L live readers at any moment the registry never exceeds 4L/3 + 3 entries, however many readers came and went |
| FillBound.DepartedIsReclaimed | pingora-cache/src/lock.rs:288-317 | a departed reader's entry is gone after at most L/3 + 6 further registrations |
| HttpCache.StepConservesIff | pingora-cache/src/lib.rs:481-553 | an allowed operation keeps the account of write permits straight iff it neither overwrites a held permit nor lets the key in hand differ from the key the permit was locked under |
| HttpCache.LookupConservesIff | pingora-cache/src/lib.rs:1540-1606 | a lookup loses a permit iff one is held and a lookup that finds nothing acquires another |
| HttpCache.FoundConservesIff | pingora-cache/src/lib.rs:865-917 | a stale hit, or a hit treated as a miss, loses a permit iff one is held |
| HttpCache.RekeyingConservesIff | pingora-cache/src/lib.rs:1615-1654 | moving the key to a variant's slot, or setting it, is right iff no permit is held, or the key set is the one in hand, or the variant asked for is already in the slot looked at |
| HttpCache.SetWriteLockConservesIff | pingora-cache/src/lib.rs:1715-1719 | a transferred permit is kept right iff the request has a cache lock, holds no permit, and its key is the one the permit was locked under |
| HttpCache.MisplacedPermitIsReleasedElsewhere | pingora-proxy/src/subrequest/mod.rs:138-141 | the counterexample: the key travels with the permit and is thrown away, so a permit set on a request with another key is released under that other key |
| HttpCache.MisplacedPermitIsReached | pingora-proxy/src/proxy_cache.rs:246-254 | a run from a new request that ends there |
| HttpCache.UpdateVarianceConserves | pingora-cache/src/lib.rs:1371-1459 | moving an asset to the primary slot releases the secondary's permit under the secondary's key first |
| HttpCache.SetMissHandlerConserves | pingora-cache/src/lib.rs:1028-1084 | starting a write, streaming or not, keeps the account straight |
| HttpCache.FinishMissConserves | pingora-cache/src/lib.rs:1140-1197 | finishing, more than once if need be, keeps the account straight |
| HttpCache.RevalidateMetaConserves | pingora-cache/src/lib.rs:1238-1295 | revalidation keeps the account straight, whatever storage said |
| HttpCache.GivingUpConserves | pingora-cache/src/lib.rs:481-553 | disabling, releasing early and uncacheable revalidation keep the account straight |
| HttpCache.ReleasesExactly | pingora-cache/src/lib.rs:481-516 | for every careful operation with a permit in hand: whether it releases it, and with which status, or hands it on, or leaves permit and log as they are |
| HttpCache.FinishReleases | pingora-cache/src/lib.rs:1179-1191 | finishing a write takes the permit out of the request and adds exactly one release to the log, under the key in hand, done iff the write succeeded and otherwise a transient error |
| HttpCache.StoringReleases | pingora-cache/src/lib.rs:1028-1084 | a streaming write, a 304 and a move to the primary slot release with done; a write that is not streamed and a variance that stays leave the permit |
| HttpCache.GivingUpReleases | pingora-cache/src/lib.rs:519-553 | disabling, releasing early and uncacheable revalidation do release, once, under the key in hand |
| HttpCache.ReadersGiveUpIffUncacheable | pingora-cache/src/lib.rs:481-516 | readers are told to give up iff the reason is that the response is not for the cache; otherwise one of them is to write |
| HttpCache.HandlerOpensWrite | pingora-cache/src/lib.rs:1028-1084 | a write is open iff its handler was created |
| HttpCache.FinishingTwiceIsOnce | pingora-cache/src/lib.rs:1140-1197 | finishing closes the write, and finishing again changes nothing |
| HttpCache.PhasesFollowTheChart | pingora-cache/src/lib.rs:80-104 | every allowed operation moves between phases as the chart allows; hits, misses, expired and revalidated entries come about exactly by the operations named |
| HttpCache.DisabledForTheLastReason | pingora-cache/src/lib.rs:519-553 | a request is disabled for the last reason given, unless it was never enabled, and has nothing in hand then |
| HttpCache.StreamingIsAsEnabled | pingora-cache/src/lib.rs:601-648 | enabling starts afresh apart from the log, and nothing else changes whether partial writes are streamed |
| HttpCache.BodyToReadIff | pingora-cache/src/lib.rs:865-917 | after a hit there is a body to read iff it is not treated as a miss; while writing, iff the write is attached to |
| HttpCache.PermitsLeaveOnce | pingora-cache/src/lib.rs:1691-1719 | in every careful run no permit is dropped, and between two departures of a permit it was handed on and came back |
| HttpCache.ReleasedOnce | pingora-cache/src/lib.rs:481-553 | in every careful run a permit is released at most once, nothing happens to it afterwards, and it is not held |
| HttpCache.ReleasedUnderOwnKey | pingora-cache/src/lib.rs:1438-1458 | every release in every careful run names the key the permit was locked under, each time it came to the request |
| HttpCache.NothingIsLost | pingora-cache/src/lib.rs:1691-1719 | every permit acquired in a careful run is still held under its key or has departed |
| HttpCache.SecondMissDropsThePermit | pingora-cache/src/lib.rs:1587-1592 | the counterexample: a second missing lookup with a permit in hand drops it unreleased |
| HttpCache.SecondMissIsReached | pingora-cache/src/lib.rs:1587-1592 | a run from a new request that ends there |
| HttpCache.HttpCache.constructor | pingora-cache/src/lib.rs:601-648 | a fresh request is disabled and its account is empty |
| HttpCache.HttpCache.Enable | pingora-cache/src/lib.rs:601-648 | the specified step; a straight account stays straight |
| HttpCache.HttpCache.Disable | pingora-cache/src/lib.rs:519-553 | the specified step, reasons, release and cleared context; a straight account stays straight |
| HttpCache.HttpCache.ReleaseWriteLock | pingora-cache/src/lib.rs:481-516 | the specified step, with the status each reason maps to; a straight account stays straight |
| HttpCache.HttpCache.CacheLookup | pingora-cache/src/lib.rs:1540-1606 | the specified step, straight if careful; an entry older than the tombstone is not returned |
| HttpCache.HttpCache.CacheVaryLookup | pingora-cache/src/lib.rs:1615-1654 | the specified key, tombstone and match, straight if careful |
| HttpCache.HttpCache.CacheFound | pingora-cache/src/lib.rs:865-917 | the specified phase, lock and metadata, straight if careful |
| HttpCache.HttpCache.SetCacheMeta | pingora-cache/src/lib.rs:1205-1232 | the specified lineage from the stale entry; a straight account stays straight |
| HttpCache.HttpCache.UpdateVariance | pingora-cache/src/lib.rs:1371-1459 | the specified variance, provenance, key and release; a straight account stays straight |
| HttpCache.HttpCache.SetMissHandler | pingora-cache/src/lib.rs:1028-1084 | the specified step; a straight account stays straight |
| HttpCache.HttpCache.FinishMissHandler | pingora-cache/src/lib.rs:1140-1197 | the specified step; a straight account stays straight |
| HttpCache.HttpCache.RevalidateCacheMeta | pingora-cache/src/lib.rs:1238-1295 | creation time and provenance of the stale entry are carried over; a straight account stays straight |
| HttpCache.HttpCache.TakeWriteLock | pingora-cache/src/lib.rs:1691-1706 | the permit is handed over and no longer held; a straight account stays straight |
| HttpCache.HttpCache.SetWriteLock | pingora-cache/src/lib.rs:1715-1719 | the specified step for a permit locked under any key, including the dropped permit; straight if careful |
| CacheSystem.StepKeepsLinked | pingora-cache/src/lib.rs:1691-1719 | every step of every request, and every hand-over, return or loss of a permit between requests, keeps the lock's view and the requests' accounts in agreement |
| CacheSystem.SaidFits | pingora-cache/src/lib.rs:1587-1592 | whatever a careful request tells the lock is due from it and fits the lock's state |
| CacheSystem.AnswersAreGenuine | pingora-cache/src/lock.rs:119-156 | the lock never grants a permit that a request has seen before, and a permit in transit comes back only with its key |
| CacheSystem.SaysOneThing | pingora-cache/src/lib.rs:1691-1719 | an allowed, careful operation exchanges at most one event with the lock; a permit comes by the lock's grant under the key in hand or by hand-over |
| CacheSystem.StepIsALockRun | pingora-cache/src/lock.rs:158-174 | what a step does to the lock is a run of the lock's own steps, every release under the hash the permit was locked with |
| CacheSystem.RunIsALockRun | pingora-cache/src/lock.rs:119-174 | under any interleaving of careful requests the lock goes through a run of its protocol |
| CacheSystem.EveryPermitIsInOnePlace | pingora-proxy/src/subrequest/mod.rs:126-141 | in every reachable state an outstanding permit is in transit or in exactly one request's hand, whose key hashes to what the lock recorded |
| CacheSystem.OneFillerAtATime | pingora-cache/src/lock.rs:119-174 | two requests hold permits under one hash only if one of them has been aged out |
| CacheSystem.ReleaseReachesItsReaders | pingora-cache/src/lock.rs:158-174 | a request's release stores its own status in its own core, wakes the readers and removes exactly its own entry; an aged-out permit leaves the table alone |
| CacheSystem.VerdictReachesReaders | pingora-cache/src/lib.rs:481-516 | in every run an operation that settles a permit leaves its core with that status, or aged out, wakes the readers, and no request holds the permit |
| CacheSystem.FinishWakesReaders | pingora-cache/src/lib.rs:1179-1191 | in every run finishing a write wakes its readers, who find it done iff it succeeded and otherwise free for another writer |
| CacheSystem.GivingUpTellsReaders | pingora-cache/src/lib.rs:481-516 | in every run giving up wakes the readers, who give up too iff the response is not for the cache |
| CacheSystem.MisplacedPermitIff | pingora-proxy/src/subrequest/mod.rs:138-141 | a permit released under the receiving request's key keeps the lock's protocol iff the hashes agree, the permit was aged out, or nothing is locked under the other hash |
| VaryFamily.NoVariantFromBeforeTheFamily | pingora-cache/src/lib.rs:1371-1459 | from an empty cache on, in any interleaving: once the primary is refilled or rewritten with another variance by a response fetched at t, no request that reads it afterwards is served a variant dated before t, nor, if every 304 fits the body it is written over, one whose body was fetched before t; and the primary's provenance stays at or above t |
| VaryFamily.StepStaysTruthfulIff | pingora-cache/src/memory.rs:472-485 | every step keeps the dates of stored bodies true, and a 304 does iff the body now in the slot is no older than the entry it renews |
| VaryFamily.UndisturbedFits | pingora-cache/src/lib.rs:1238-1295 | a 304 fits if the slot still holds the entry it renews, and always on the primary slot |
| VaryFamily.UnfittingRevalidationServesAnOlderBody | pingora-cache/src/memory.rs:472-485 | the counterexample: a run in which a late write to a variant's slot is dated by a 304 for the entry it replaced, and is served to a newer family |
| VaryFamily.RevalidationKeepsCreation | pingora-cache/src/lib.rs:1248-1254 | a 304 leaves an entry with the creation time and provenance of the one it renews, over the body in the slot, and no other slot changes |
| VaryFamily.VariantRevalidationKeepsStanding | pingora-cache/src/lib.rs:1248-1254 | after a 304 for a variant it is in service iff the renewed entry's creation time says so; a slot that still holds that entry keeps its standing |
| VaryFamily.NoOtherVariantIsServed | pingora-proxy/src/proxy_cache.rs:129-210 | in every reachable state a variant's slot holds that variant, whoever settled there has it, and the check for a mismatch never fires |
| VaryFamily.PrimaryServesItsOwnVariant | pingora-cache/src/lib.rs:1615-1654 | a request that asks the primary for a variant stays with it iff it is that variant, and otherwise goes on to the variant's slot |
| VaryFamily.WithoutProvenanceCreationCounts | pingora-cache/src/meta.rs:663-668 | with no provenance stored, a variant is in service iff it is no older than the primary entry |
| VaryFamily.ProvenanceNeverGoesBack | pingora-cache/src/lib.rs:1205-1232 | in every run the primary's provenance never decreases, purges and refills included |
| VaryFamily.RefreshKeepsVariants | pingora-cache/src/lib.rs:1371-1459 | whatever others do between the response and its commit, the commit is possible iff the primary has not changed, and then a variant is in service iff it was and the variance is unchanged or the variant is no older than the response |
| VaryFamily.RevalidationKeepsVariants | pingora-cache/src/lib.rs:1238-1263 | a 304 on the primary changes no variant's standing |
| VaryFamily.LateRefreshWouldReviveVariantsIff | pingora-cache/src/lib.rs:1390-1392 | why serialization is needed: a refresh begun before a purge and written after it would put a variant back in service iff it was in service and either the family stays the same or the variant is no older than the response |
| VaryFamily.InServiceIsFound | pingora-cache/src/lib.rs:1563-1575 | asking the primary for a variant and looking finds it iff it is in service |
| VaryFamily.ResponseProvenance | pingora-cache/src/lib.rs:1371-1459 | a response starts its own lineage iff it fills a miss or changes the variance; otherwise it carries the stale one's; and which slot it goes to |
| VaryFamily.RenewalKeepsProvenance | pingora-cache/src/lib.rs:1238-1263 | revalidation keeps provenance and variance |
| VaryFamily.StepKeepsTombstone | pingora-proxy/src/proxy_cache.rs:129-210 | every step of the lookup loop, of a response and of a purge keeps later readers above the tombstone |
| VaryFamily.PrimaryWriteSetsTombstone | pingora-cache/src/lib.rs:1615-1654 | any write to the primary slot becomes the tombstone of everything after it |
| VaryFamily.RunsKeepOk | pingora-cache/src/meta.rs:622-643 | in every run provenance, creation time and the clock stay ordered, and a request about to refresh holds the entry now stored |
| MemStore.ReaderHasPrefix | pingora-cache/src/memory.rs:160-198 | in every interleaving of writers and readers, what a reader received is a prefix of the body of the write it follows |
| MemStore.EndOfBodyIsTheWholeBody | pingora-cache/src/memory.rs:160-198 | a reader told the body has ended has all of it, now and after any further run; with `fail_readers_of_dropped_writes` the write reached eof or finish |
| MemStore.DroppedWriteEndsCleanly | pingora-cache/src/memory.rs:320-331 | without that option a waiting reader of a dropped write sees a clean end |
| MemStore.EndMeansCompleteIff | pingora-cache/src/memory.rs:88-99 | in every run and for every reader the end of body means a write that reached eof or finish, iff `fail_readers_of_dropped_writes` is on |
| MemStore.DroppedWriteFailsReaders | pingora-cache/src/memory.rs:161-198 | with that option a reader of a dropped write that has not ended never ends: its next look at the channel fails it for good, and it can always look |
| MemStore.PurgedStaysGone | pingora-cache/src/memory.rs:425-447 | what is stored under a purged key later was not finished before the purge |
| MemStore.TagFindsItsOwnWrite | pingora-cache/src/memory.rs:377-395 | while a write is open its tag finds it, and the reader follows that very write for good |
| MemStore.StoredIsWhole | pingora-cache/src/memory.rs:294-314 | whatever is stored under a key is the whole, final body of a finished write to that key |
| MemStore.FinishStoresTheBody | pingora-cache/src/memory.rs:294-314 | finishing never misses its temporary entry and stores the writer's own bytes |
| MemStore.ReaderCatchesUp | pingora-cache/src/memory.rs:161-198 | the reader's assertion and slice never fail, and one call hands over everything announced |
| MemStore.ReaderStepIsSafe | pingora-cache/src/memory.rs:161-198 | observing, copying and waking keep what the reader has and knows true |
| MemStore.ExtendIsSafe | pingora-cache/src/memory.rs:277-292 | appending bytes disturbs no reader |
| MemStore.AnnounceIsSafe | pingora-cache/src/memory.rs:277-292 | announcing them disturbs no reader |
| MemStore.DropIsSafe | pingora-cache/src/memory.rs:320-331 | dropping the writer, aborting or not, disturbs no reader |
| MemStore.StepKeepsValid | pingora-cache/src/memory.rs:346-423 | every step keeps the invariant over writes, readers, temporary and stored objects |
| MemStore.MemCache.GetMissHandler | pingora-cache/src/memory.rs:397-423 | a new write under a new id, listed under its key |
| MemStore.MemCache.WriteBody | pingora-cache/src/memory.rs:277-292 | append then announce, and the announced length is the body's |
| MemStore.MemCache.FinishWrite | pingora-cache/src/memory.rs:294-314 | the specified step and the size of what was stored |
| MemStore.MemCache.DropMissHandler | pingora-cache/src/memory.rs:320-331 | the specified step |
| MemStore.MemCache.LookupStreamingWrite | pingora-cache/src/memory.rs:377-395 | an open write's tag always yields a reader of it |
| MemStore.MemCache.Read | pingora-cache/src/memory.rs:161-198 | one pass of the read loop: the chunk is exactly what is appended to the received bytes |
| Ketama.BuiltRingRepresents | pingora-ketama/src/lib.rs:217-236 | however the sort orders ties, the ring holds one point for each claimed hash, under V2 that of the smallest address |
| Ketama.PointsAreWeighted | pingora-ketama/src/lib.rs:342-357 | of the points pushed, those of each bucket number its weight times 160 under V1 and its weight times the multiple under V2, and each hash is computed from the one before |
| Ketama.DedupKeepsFirst | pingora-ketama/src/lib.rs:217-236 | after sorting, every point is represented by the first of its run |
| Ketama.LookupFindsOwner | pingora-ketama/src/lib.rs:257-278 | lookup finds the nearest claim clockwise, and finds one iff there is any |
| Ketama.AddingABucketMovesKeysOnlyToIt | pingora-ketama/src/lib.rs:312-368 | adding a bucket maps each key to its old address or the new one; V2 needs no assumption on collisions, V1 that no two old addresses share a point |
| Ketama.OrderOfBucketsDoesNotMatter | pingora-ketama/src/lib.rs:217-236 | under V2 the owner of a key does not depend on the order of the buckets |
| KetamaTies.V1MovesKeysOnlyToTheNewBucketIff | pingora-ketama/src/lib.rs:217-236 | under V1 that holds for every ring that may be built iff no two old addresses share a point; otherwise there are two builds and a key that moves between old addresses |
| Ketama.FullTurn | pingora-ketama/src/lib.rs:394-416 | as many steps as there are points visit each once and return to the start |
| Ketama.VisitsGoClockwise | pingora-ketama/src/lib.rs:394-416 | each step of the iterator is farther from the key than the one before |
| KetamaFailover.FailoverEqualsRebuild | pingora-ketama/src/lib.rs:383-416 | the first other address met by the iterator is the node of the ring built without x, under V2 when x never hides another address and under V1 when no point is shared |
| KetamaFailover.FailoverEqualsRebuildIff | pingora-ketama/src/lib.rs:383-416 | under V2 failover and rebuild find the same point for every key iff wherever x shares a point with another address a smaller one shares it too |
| KetamaFailover.FailoverFindsTheSameIff | pingora-ketama/src/lib.rs:257-278 | for one key they find the same point iff the ring does not give the rebuilt ring's answer to x |
| KetamaTies.V1FailoverEqualsRebuildIff | pingora-ketama/src/lib.rs:383-416 | under V1 they agree for every key and every pair of rings that may be built iff no point is shared |
| KetamaFailover.MaskedPointBreaksFailover | pingora-ketama/src/lib.rs:383-416 | a ring of three buckets on which even the addresses differ |
| Ketama.RingBuilder.Push | pingora-ketama/src/lib.rs:204-215 | a point is added at the end |
| Ketama.RingBuilder.Sort | pingora-ketama/src/lib.rs:217-236 | the ring is some sort of its points, without repeated hashes |
| Ketama.PushBucket | pingora-ketama/src/lib.rs:312-368 | as many points as the weight times the version's multiple, the first hashed from zero and each hash feeding the next |
| Ketama.NewWithVersion | pingora-ketama/src/lib.rs:312-368 | the nested loops build a ring of the specification, from points in proportion to the weights |
| Ketama.NodeIterator.Next | pingora-ketama/src/lib.rs:394-416 | the address under the index, which moves one step around |
| KetamaFailover.FirstOther | pingora-ketama/src/lib.rs:383-416 | walking the iterator past an address is the failover function |
| HeadParse.TwoStageRefinesOneStage | pingora-http-parser/src/backend.rs:227-245 | parsing with inline slots and retrying with the expanded capacity gives what one parse with the limit in force gives: the configured limit, or at most 257 fields if the head begins with two empty lines |
| HeadParse.TwoStageKeepsTheLimitIff | pingora-http-parser/src/backend.rs:171-184 | it gives what the configured limit gives iff the head does not begin with two empty lines, or asks for at most 257 slots, or for more than the limit |
| HeadParse.ScanBoundsFieldsBegun | pingora-http-parser/src/backend.rs:162-206 | every field asked for but the last adds a newline to the scan |
| HeadParse.ScanBoundsSlotsAsked | pingora-http-parser/src/backend.rs:162-206 | unless the head begins with two empty lines, no more slots are asked for than the scan says |
| HeadParse.SlotsDecide | pingora-http-parser/src/backend.rs:273-291 | a parse runs out of slots iff it asks for more than there are, and otherwise does not depend on how many there are |
| HeadParse.CompleteIff | pingora-http-parser/src/backend.rs:273-291 | a parse is complete with given spans iff fields as the tokenizer takes them tile the bytes from the start line to the empty line and fit the slots |
| HeadParse.CompleteHeadStays | pingora-http-parser/src/backend.rs:227-245 | a complete head is complete with the same fields whatever follows it |
| HeadParse.FailedHeadStays | pingora-http-parser/src/backend.rs:227-245 | a failed head stays failed whatever follows it |
| HeadParse.EffectiveCapStays | pingora-http-parser/src/backend.rs:171-184 | bytes after the start line do not change the limit in force |
| HeadParse.PlainIsIncremental | pingora-http-parser/src/backend.rs:227-245 | what is asked of a tokenizer can be met, empty lines before the start line included |
| HeadParse.ExpandedCapacity | pingora-http-parser/src/backend.rs:162-206 | the counting loop computes the specified capacity |
| HeadParse.Parse | pingora-http-parser/src/backend.rs:273-291 | the two-stage procedure returns the one-stage result under the limit in force |
| ResponseParse.SplitIndependence | pingora-cache/src/put.rs:582-612 | two ways of cutting the same bytes fail together or give the same header, body and finish verdict |
| ResponseParse.ChunksDoNotMatter | pingora-cache/src/put.rs:582-612 | the outcome is that of the whole bytes, and the end flag is on the last task or on none |
| ResponseParse.HeadFramesTheBody | pingora-cache/src/put.rs:722-749 | however the bytes are cut: 204 and 304 have no body and are finished; with a Content-Length n the body is the first n bytes after the head and it is finished iff so many came; otherwise it is all the bytes and finished |
| ResponseParse.RefusedIff | pingora-cache/src/put.rs:512-525 | however the bytes are cut they are refused iff the head is invalid, or ends past the size limit, or has not ended within it |
| ResponseParse.ContentLengthIsKept | pingora-cache/src/put.rs:678-708 | the body never exceeds Content-Length, and the response is finished iff it reaches it |
| ResponseParse.TooLargeStays | pingora-cache/src/put.rs:512-525 | a head beyond the size limit stays beyond it with more bytes |
| ResponseParse.FailureIsFinal | pingora-cache/src/put.rs:622-676 | bytes that fail to parse fail with any continuation |
| ResponseParse.BackendIsPrefixParser | pingora-cache/src/put.rs:622-676 | the two-stage head parser, with a tokenizer that skips leading empty lines, meets what split independence asks of a head parser |
| ResponseParse.ResponseParser.InjectData | pingora-cache/src/put.rs:582-612 | the inject loop terminates and is the specified step |
| ResponseParse.ResponseParser.TakeHeader | pingora-cache/src/put.rs:622-676 | the specified header step, with its error states, and the framing that status and Content-Length ask for |
| ResponseParse.ResponseParser.TakeBody | pingora-cache/src/put.rs:678-708 | the specified body step |
| ResponseParse.ResponseParser.Finish | pingora-cache/src/put.rs:710-719 | succeeds exactly in the states of a finished response |
| RequestTarget.AbsoluteIff | pingora-http/src/authority.rs:58-129 | a target is reported absolute with given pieces iff scheme, mark, authority and path make it up and the pieces are well formed |
| RequestTarget.AmbiguousIff | pingora-http/src/authority.rs:58-129 | a target is reported ambiguous iff it is no path and around its first colon there is no scheme but two slashes follow, or a scheme of the http family without them, without authority or with a backslash in it |
| RequestTarget.ClassifyCut | pingora-http/src/authority.rs:58-129 | dropping the fragment only shortens the path, except that a colon inside the fragment no longer counts |
| RequestTarget.FragmentKeepsAuthority | pingora-http/src/authority.rs:48-54 | the authority reported is the same with and without the fragment |
| RequestTarget.WireTargetIsTheTargetCut | pingora-http/src/lib.rs:347-395 | what is sent is the target as received up to the first number sign, or a slash if nothing is left |
| RequestTarget.StoredPathFollowsTheAuthority | pingora-http/src/lib.rs:734-819 | for absolute form, scheme, mark, authority and the stored path rebuild what is sent, and the path stored is that path anchored at the root, lossily decoded if it is not UTF-8 |
| RequestTarget.OtherTargetsAreStoredAsTheyAre | pingora-http/src/lib.rs:734-819 | of the other targets a path, a query or an asterisk is stored as it is, less its fragment, and of anything else the root |
| RequestTarget.RefusedIff | pingora-http/src/lib.rs:734-819 | a target is refused iff the library refuses the path that would be stored |
| RequestTarget.RawTargetAuthority | pingora-http/src/authority.rs:58-129 | the two scanning loops compute the classification |
| RequestTarget.RequestHeader.SetRawPath | pingora-http/src/lib.rs:347-357 | stores what parsing gives, and a rejected target leaves the old one |
| Estimator.EstimateIsNeverBelow | pingora-limits/src/estimator.rs:67-76 | as long as no counter of the key overflows, the estimate lies between the true count and the total |
| Estimator.EstimateIsABoundIff | pingora-limits/src/estimator.rs:42-56 | for totals below the modulus the estimate is at least the true count iff none of the key's counters has passed the largest count, and negative iff one has |
| Estimator.EstimateIsExactIff | pingora-limits/src/estimator.rs:67-76 | it is exact iff in some row no other counted key shares the key's column |
| Estimator.RowsPlaceByTheirOwnHash | pingora-limits/src/estimator.rs:45-56 | two keys share a counter of a row iff that row's own hash puts them there |
| Estimator.RowsAddUp | pingora-limits/src/estimator.rs:45-56 | every row adds up to the same total |
| Estimator.OverflowGoesNegative | pingora-limits/src/estimator.rs:42-44 | two events of one key that overflow, and the negative estimate |
| Estimator.CountersAreTheLiveGuards | pingora-limits/src/inflight.rs:48-83 | in every run each counter is the sum of the live guards that hash to it, modulo wrap-around, and zero once all are dropped in any order |
| Estimator.Sketch.constructor | pingora-limits/src/estimator.rs:32-40 | all counters are zero |
| Estimator.Sketch.Add | pingora-limits/src/estimator.rs:45-56 | one row after one wrapping addition; other rows untouched |
| Estimator.Sketch.Incr | pingora-limits/src/estimator.rs:45-56 | the event is recorded in every row and the new estimate returned |
| Estimator.Sketch.Decr | pingora-limits/src/estimator.rs:58-64 | the negative event is recorded in every row |
| Estimator.Sketch.Get | pingora-limits/src/estimator.rs:67-76 | the least counter of the key |
| Estimator.Sketch.Reset | pingora-limits/src/estimator.rs:79-84 | nothing is recorded any more |
| Estimator.Inflight.Incr | pingora-limits/src/inflight.rs:48-56 | one more guard, and the counters are those of the live guards |
| Estimator.Inflight.DropGuard | pingora-limits/src/inflight.rs:79-83 | that guard less; with none left every counter is zero |
| Rate.SlotsAreWindows | pingora-limits/src/rate.rs:143-179 | in every run the current slot holds exactly the history's events since the last reset, the previous slot those of the interval before or nothing after two |
| Rate.IntervalsBeginWithACall | pingora-limits/src/rate.rs:143-179 | in every run the current interval begins with a call or at the start, and no later call has come after its end |
| Rate.ReportIsNeverBelow | pingora-limits/src/rate.rs:137-140 | only without overflow, without negative events and with at least one row (`Countable`): what is reported for the current interval is never below what happened in it |
| Rate.LastReportIsNeverBelow | pingora-limits/src/rate.rs:126-134 | only without overflow, without negative events and with at least one row (`Countable`): nor is what is reported for the interval before, until two intervals have passed |
| Rate.EarlyZerosAreTrueIff | pingora-limits/src/rate.rs:191-220 | the zeros answered early are what the slots would have said iff the sketch has any rows |
| Rate.Rate.MaybeReset | pingora-limits/src/rate.rs:143-179 | clears, flips and clears again as specified, and returns the time since the reset before |
| Rate.Rate.Observe | pingora-limits/src/rate.rs:137-140 | the event goes to the current slot and the estimate over that slot is returned |
| Rate.Rate.RateWith | pingora-limits/src/rate.rs:191-220 | the samples returned in each of the three cases, and that with any rows they are the slots' estimates, the early zeros included |
| Rate.Rate.PerSecond | pingora-limits/src/rate.rs:126-134 | the previous slot's estimate times 1000 over the interval, and zero after two intervals |
| VarianceKey.EncodingTellsMapsApart | pingora-cache/src/variance.rs:50-64 | maps without NUL are hashed from the same bytes iff they are the same map |
| VarianceKey.OrderOfInsertionDoesNotMatter | pingora-cache/src/variance.rs:23-42 | when no name is added with two values, the same calls in any order give the same bytes |
| VarianceKey.OrderOfInsertionDoesNotMatterIff | pingora-cache/src/variance.rs:23-42 | every reordering of the calls gives the same map iff no name is added with two values |
| VarianceKey.LaterCallWins | pingora-cache/src/variance.rs:23-42 | the counterexample: two calls with one name, whose two orders give different bytes |
| VarianceKey.OwnsItsBytesIff | pingora-cache/src/variance.rs:50-64 | no other map is hashed from a map's bytes iff the map is empty, or has one entry and no NUL in it |
| VarianceKey.ListingIsUnique | pingora-cache/src/variance.rs:50-64 | there is one way to walk the names in order |
| VarianceKey.NulHidesAnEntry | pingora-cache/src/variance.rs:50-64 | the witness: a map of one entry with NUL inside its value, and a map of two, with the same bytes |
| VarianceKey.VarianceBuilder.AddValue | pingora-cache/src/variance.rs:25-42 | the value is put under its name |
| VarianceKey.VarianceBuilder.Finalize | pingora-cache/src/variance.rs:50-64 | the digest of the encoding in name order, or nothing for no variance |
| FieldValue.NormalizeIsFaithful | pingora-http/src/lib.rs:990-1034 | no CR, LF or NUL left, no longer than the input, the same words in the same order, clean input unchanged, idempotent |
| FieldValue.LinesAreJoinedByOneSpace | pingora-http/src/lib.rs:1013-1033 | a value with a newline becomes its lines that are not blank, trimmed, with exactly one space between one and the next |
| FieldValue.StrayBytesBecomeSpaces | pingora-http/src/lib.rs:998-1007 | without a newline each CR and NUL becomes a space in its place and nothing else changes |
| FieldValue.TrimCutsTheEdges | pingora-http/src/lib.rs:1020-1025 | trimming takes away white space only, and all of it at the edges |
| FieldValue.NormalizeFieldValue | pingora-http/src/lib.rs:990-1034 | the loop over lines computes the normal form |
| CaseMap.WireWritesEveryValueAsSpelled | pingora-http/src/lib.rs:1061-1075 | after any run the side-by-side walk never meets different keys, leaves nothing out, and gives every value with its own spelling |
| CaseMap.StepKeepsStep | pingora-http/src/lib.rs:872-937 | append, insert and remove on the two maps are the same operation on one map of spelled values, size-limit failures included |
| CaseMap.StepOnValues | pingora-http/src/lib.rs:872-937 | appending puts a value behind the others of its key, inserting puts it in their place, removing leaves none, and other keys are untouched |
| CaseMap.PutOnKeys | pingora-http/src/lib.rs:872-918 | keys stay where they are and a new one comes last |
| CaseMap.CaseHeader.AppendHeader | pingora-http/src/lib.rs:872-898 | succeeds iff the name is valid and there is room, and a failure changes neither map |
| CaseMap.CaseHeader.InsertHeader | pingora-http/src/lib.rs:901-918 | both maps replace or add together |
| CaseMap.CaseHeader.RemoveHeader | pingora-http/src/lib.rs:922-937 | both maps lose the key together |

## Left out

- LockProtocol.CacheLock.Release: one atomic step; `SplitReleaseKeepsProtocolIff` says what changes when its status check and its removal are apart.
- CacheSystem.RunIsALockRun: the requests are careful (`HttpCache.Careful`), and all use the one lock.
- VarianceKey.OwnsItsBytesIff: a name is any byte string; names in the source are UTF-8, so a map of one entry with NUL only in its value can be alone with its bytes when what precedes each NUL is not UTF-8.
- Weak memory orderings, timers, semaphores and task scheduling: steps are atomic and totally ordered, and times are arguments.
- The internals of httparse, `http::Uri`, `HeaderMap` and UTF-8 decoding: arguments, with the properties used stated where they are used (`HeadParse.IncrementalGrammar`, `HeadParse.LineGrammar`, `RequestTarget.Library`, the multimap of `CaseMap`).
- HeadParse.Parse: failing allocation of the expanded slots.
- CRC32, Blake2 and the sketch's hash functions: arguments; collisions are allowed and counted everywhere.
- Ketama.NewWithVersion: at most 65536 buckets, as the 16-bit node index needs; point counts that overflow 32 bits are not modelled; a socket address stands for its rank in address order.
- VaryFamily: one primary key; writes to the primary slot are serialized with the lookup they rest on, which the source asks of its users and does not enforce; cache-lock waiting appears only as the choice to look again.
- FillRegistry.LockCore.PublishLocked: taking the senders out and sending are one step; the source sends after it has unlocked the registry.
- MemStore: purging a key with an open write, seeking in a complete hit, and expiry; finishing and dropping a write are one step each.
- Rate.SlotsAreWindows: sequential calls and an interval of at least one millisecond; floating-point rounding of the rate is not modelled.
- Estimator.Sketch.Incr: one step; additions of concurrent callers to single counters commute, but an estimate returned halfway through another call is not modelled.
- Estimator.Inflight.Incr: guards only through `Inflight::incr`; a second increment through the guard itself is not undone by its drop.
- CaseMap: headers without a spelling map, and the wire bytes around names and values.
- Tracing, metrics, admission counting, the predictor, maximum file size, eviction managers, cache-control directives, TLS and service discovery: plumbing, or members that would be easy.
