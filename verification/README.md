# A verified model of tb's block device and build caches

Three parts of the repository keep state that several goroutines, hosts or restarts share.
This project models them in Dafny and proves what their code and documentation promise.

**guestbd** serves copy-on-write block devices. A snapshot maps page numbers to slots of an
append-only dirty file and falls through to a base image shared with other snapshots; both
go through one content-addressed LRU.

- `PageCache.dfy`: the cache as a class, its recency list as a value, and what a larger
  cache has in common with a smaller one after any history.
- `Snapshot.dfy`: base images with their lazy hash table, and the snapshot: reading,
  writing, trimming, persisting.
- `SnapshotRuns.dfy`: any operations on any number of snapshots, against private flat byte
  arrays.
- `PageReads.dfy`: one page read, split into lookup and later fetches, among concurrent
  writers, trims and cache users; and what the pages hold after them.
- `BaseLifecycle.dfy`: the refcounts of base images under two locks, with releases, nil-key
  sharing and idle eviction split where the code gives up a lock or decrements outside one.
- `BaseRuns.dfy`: which idle base goes, and when; what a snapshot holds; that releases end.

**gocached** is a cache server whose PUTs are acknowledged once spooled.

- `PutPipeline.dfy`, `PutPipelineSafety.dfy`, `PutPipelineRuns.dfy`: requests, movers,
  flusher, sweeper and GETs as steps over volatile and durable state, with a crash possible
  between any two; the invariant; and its consequences for whole runs.
- `PutProgress.dfy`: what becomes of a PUT: to the batch, into the tables, and cleared away.
- `PutQueue.dfy`, `PutWorkers.dfy`: the queue as an object: lanes, reservations, the pending
  map, channels; and the requests, movers and flusher that use it, in any order, against a
  machine that adds up what is owned and has no semaphores.
- `Hex.dfy`, `IntentNames.dfy`: hexadecimal text and byte order, the shard partition, the
  names of cleanup intents, and the sweep over directories of them.
- `DirectorySweep.dfy`: that sweep does to the files what the pipeline's sweep steps do to
  its disk.
- `Totals.dfy`, `Usage.dfy`, `Accounting.dfy`: usage per shard by dead reckoning, and
  oldest-first eviction, on values.
- `UsageRuns.dfy`: commits, bumps, late deltas, late scans and one evictor in any order.
- `UsageServer.dfy`: the limits of a cleanup tick, and the server object whose methods take
  these steps in place.
- `AgeScans.dfy`: what the scans' cohorts say of the ages of actions.

**awscache** shares actions between hosts through a conditional metadata store and a
content-addressed blob store.

- `ActionStore.dfy`, `ActionStoreSafety.dfy`: any number of hosts running `put` and `get`,
  each call to a store a step, crashing between any two.
- `ActionStoreProgress.dfy`: how PUTs and GETs end.
- `AccessTimes.dfy`: storage keys, TTLs and the relatime-style bumps.

A hash is ideal here: a digest is the content it was taken of. Where digests are written as
text, in 64 digits, those that a state mentions are assumed not to collide (`NoCollision`).
lz4 is a pair of functions, and a result that depends on it says what it needs of them
(`SomeCodec` is a pair that has it all). Failures of disks, stores and
networks are choices of a step, or of a method that is told whether there may be any
(`Disks`, `mayFail`); told that there is none, it succeeds. What Dafny verifies is the model; nothing in
it runs the Go code.

`dafny verify dfyconfig.toml` checks everything.

## Results that have a condition

- The active gauge of base images: a nil-key call looks at a refcount in one locked section
  and raises it in another (guestbd/server.go:347-357), so the count may be back at zero in
  between. `ActiveGaugeExact` says that the gauge is right if and only if that never
  happened, and `ActiveGaugeCanMiss` is a run in which it does.
- lz4: the writer compresses by a size threshold, the reader tells by comparing two sizes.
  `ReaderAgreesWithWriter` and `CommittedReadsBackExactlyWhen` say exactly when they agree:
  when the frame of a content that is compressed has another length than the content.
- awscache reads no frame longer than size + size/128 + 1024 bytes;
  `FetchReadsBackExactlyWhen` says that this is exactly what a stored blob must meet.
- Stopping the sweep at the first intent not yet due misses nothing, at any time, if and
  only if due times do not go back along the listing (`StopRightIffInOrder`). Sorted names
  that the writer gave never do (`WrittenInOrder`); only a foreign file can come in between,
  since the parser also takes uppercase digits, which sort differently (`UppercaseHidesDue`).
- TTL is access time plus retention for all clock readings if and only if the retention is
  a whole number of seconds (`TTLExactIff`). The configuration takes any retention, and for
  the others an action read at least every Retention - Relatime can expire, by up to one
  second: it never does if and only if the retention is whole seconds
  (`NeverExpiredWhenReadIff`, `HitsExtendLifeIff`; `HalfSecondExpires` is a retention of
  2.5 s with Relatime 1 s). `HitExtendsLife` and `ReadOftenNeverExpires` give the bound for
  every retention.
- Size limit with an age limit: the comment on `cleanupTick` (gocache/gocached/gocached.go:3121-3123)
  speaks of "any age" for size-only cleanup, but with a maximum age set the cutoff is always
  `now - maxAge`, and a cache that is too big and entirely younger than that stays as it is:
  `YoungCacheStaysTooBig` is 10 bytes put an hour ago under limits of 24 hours and 8 bytes. A
  tick changes the tables if and only if some action is at or before the cutoff
  (`TickChangesIff`), and it brings the cache to size, or deletes a full batch, or everything,
  if and only if the actions the cutoff covers are a full batch, or hold the excess, or are
  all there are (`SizeLimitServedIff`); without a maximum age that always holds
  (`NoAgeLimitCovers`).
- Age limits of fractions of a second: a scan calls an action too old by whole seconds of
  the limit, a tick covers it by the whole limit. They agree for all clock readings if and
  only if the limit is a whole number of seconds (`OldIsCoveredIff`); with any other a tick
  can find the cache over age and nothing to delete.
- Files and rolled-back evictions: files are unlinked inside the transaction, so one that
  fails leaves rows whose files are gone: at its commit (`RollbackLosesFile`), or between
  the two names of a blob, when no blob has been taken along yet (`HalfUnlinkingLosesFile`).
  Files go exactly with their blob's last action if the transaction commits; `FilesLost`
  says which go otherwise. No failure can lose a file, wherever it comes, if and only if none
  of the blobs that the transaction would take along has one (`FailureKeepsFilesIff`).

## Model

| member | source | states |
|---|---|---|
| PageCaching.PageCache.Get | guestbd/cache.go:57-69 | a hit exactly when the hash is in the list, and then the entry's bytes, which are the hashed content; the entry comes first and the others stay in order behind it; a miss changes nothing; the hit and miss counters |
| PageCaching.PageCache.Put | guestbd/cache.go:73-105 | the new recency list, written out: the entry comes first, if it was there with the others in order behind it, if not before as many of the others as the capacity lets stay; map and list stay in bijection, the gauges match; exactly when something is evicted |
| PageCaching.PageCache.TrimToCapacity | guestbd/cache.go:88-105 | the eviction loop ends with the newest entries up to capacity and counts what it dropped |
| RecencyList.StaysContentAddressed | guestbd/cache.go:57-105 | every entry holds the content of its hash through any lookup or insertion |
| CacheInclusion.LargerCacheIncludesSmaller | guestbd/cache.go:57-105 | after any history the entries of a cache are, in the same relative order, among those of any larger cache fed the same history |
| BaseImages.BaseImageState.ReadPage | guestbd/readonly.go:62-116 | on success the zero-extended base page, by whichever of cache and disk; which result is reported when; the hash noted is the page's, and the page is in the cache afterwards; it succeeds if the disk does or the page was in the cache |
| Snapshots.Snapshot.ReadPageData | guestbd/snapshot.go:79-125 | on success the page's current contents from dirty file, cache or base, and nothing else in the buffer changes; it succeeds if the file concerned does not fail, or, whatever the disks do, if the page is in the cache, as it is afterwards |
| Snapshots.Snapshot.ReadAt | guestbd/snapshot.go:127-160 | the bytes read are those of the flat device at those offsets, on failure up to n; it fails only at a page whose file may fail, and not if it lies in one page that is in the cache |
| Snapshots.Snapshot.WriteAt | guestbd/snapshot.go:166-225 | the device afterwards is the device before with exactly the first n bytes written, on success all of them; a failed write ends at a page boundary; it fails only if a file may; the page written last is in the cache |
| Snapshots.SplicedBytes | guestbd/snapshot.go:173-196 | splicing bytes into one page, by page number and offset in it, is writing them at one range of the flat device |
| Snapshots.Snapshot.HandleTrim | guestbd/snapshot.go:262-304 | for every offset and length: fully covered pages read as the base, the rest of the range as zero, all else as before; it fails only if a file may and an end of the range is within a page, and then zeroes at most the range's part of its first page |
| Snapshots.TrimDecides | guestbd/snapshot.go:265-304 | the code's page arithmetic (rounding up and down, remainders) selects exactly the three cases of a trimmed byte |
| Snapshots.Snapshot.WriteDirtyTo | guestbd/snapshot.go:235-260 | over a copy of the base the image becomes the device's first size bytes and is not extended; the count is the number of dirty pages that begin below size; it fails only if the dirty file or the image may |
| SnapshotRuns.Run | guestbd/snapshot.go:79-304 | any operations on any snapshots sharing a base and a cache of any capacity, or none: every read returns what a private flat byte array would, each snapshot ends as its own array, and every operation during which no file may fail succeeds in full |
| PageReads.RunKeepsInv | guestbd/snapshot.go:83-124 | over every interleaving mapped slots are fully written, cached pages are what their hashes say, and reads under way are on course to the page as it was looked up |
| PageReads.ReadsAsOfLookup | guestbd/snapshot.go:79-125 | a page read finished in any later state returns the page as of its lookup, whatever writes, trims and evictions came between |
| PageReads.PagesAsWritten | guestbd/snapshot.go:202-216 | in every state of every run a page holds what the last write or trim of it left, by a reference without slots or map |
| PageReads.FinishedIsCached | guestbd/snapshot.go:95-108 | with a cache, a page is first in it when a read of it, or the store after a write of it, is done |
| PageReads.FinishedReads | guestbd/snapshot.go:79-125 | with its fifth access at the latest a page read is finished, with the page as the last write or trim before its lookup left it |
| BaseLifecycle.StepKeepsInv | guestbd/server.go:310-427 | refcounts count holders, tables and bases agree, bases in neither table are closed once; kept by every step |
| BaseLifecycle.BasesSafe | guestbd/server.go:310-427 | over every interleaving no base is closed under a snapshot or twice, a key has one live state, and at most maxIdleBase entries are idle when nothing is unfinished |
| BaseLifecycle.ActiveGaugeExact | guestbd/server.go:347-357 | the active gauge equals bases in use plus releases still to be counted if and only if no nil-key share found its refcount back at zero |
| BaseLifecycle.ActiveGaugeCanMiss | guestbd/server.go:347-357 | a run of six steps after which the gauge is 0 with a base in use |
| BaseLifecycle.EvictionProgresses | guestbd/server.go:398-427 | each step of an eviction uses up exactly one of the steps it has left at most, and nobody else changes that number meanwhile |
| BaseLifecycle.EvictionBounded | guestbd/server.go:398-427 | in every run the eviction's own steps, from its start over n entries until it stops, number at most n + (1 + ... + n), whatever others do |
| BaseLifecycle.EvictionNotStuck | guestbd/server.go:398-427 | some step of a pass can always be taken |
| BaseRuns.EvictsLeastRecent | guestbd/server.go:398-427 | an eviction closes an idle entry, only if more than maxIdleBase are idle, and none whose release finished before that of the entry it closes is left, by the order of the steps of the run |
| BaseRuns.HoldsItsBase | guestbd/server.go:310-372 | a snapshot has the entry's base of the key it asked for, or a new one if there was none, or without a key the base in use, or a new one if none was, and it stays that one, and open, until it is let go of |
| BaseRuns.ReleaseEnds | guestbd/server.go:374-396 | a release of the last reference ends with two more steps, each of which can be taken, the second once nobody has the server's lock |
| PutPipelineSafety.StepKeepsInv | gocache/gocached/putqueue.go:314-918 | accounting, stages, spool, rows and GETs under way stay sound through every step of requests, movers, flusher, sweeper and crash |
| PutPipelineSafety.CommitKeepsInv | gocache/gocached/putqueue.go:828-870 | the same for a batch committed in one transaction, of any length |
| PutPipelineSafety.SweepKeepsInv | gocache/gocached/putqueue.go:655-698 | the sweep of one intent, with any failure, deletes no file a row or a pending PUT counts on |
| PutPipelineRuns.EveryFileAccountedFor | gocache/gocached/putqueue.go:480-568 | in every state of every run, crashes included, each blob file has a Blobs row or a cleanup intent |
| PutPipelineRuns.CommittedBytesPresent | gocache/gocached/putqueue.go:520-542 | every Blobs row that is not inline, referred to by an action or not, and every spooled entry handed to the flusher, has its file with the right bytes, also when its mover skipped the copy |
| PutPipelineRuns.SweepIsExact | gocache/gocached/putqueue.go:612-698 | a pass deletes exactly the listed blobs without row or pending PUT, and exactly the listed intents but those of content in flight |
| PutPipelineRuns.PassIsSweepAll | gocache/gocached/putqueue.go:612-698 | the sweep steps of one pass in a run, with GETs in between, do to the disk exactly what the pass does |
| PutPipelineRuns.QuietSweepLeavesCommitted | gocache/gocached/putqueue.go:605-640 | with nothing pending, a run's sweep steps over all intents, which must be due for that, leave exactly the files with a row, and no intent |
| DirectorySweep.DirectorySweepIsRunPass | gocache/gocached/putqueue.go:612-698 | as long as the digests a state mentions are written differently, sweeping directories that show its intents ends with the files of the state that a pass of the run's sweep steps over the due intents ends with |
| DirectorySweep.QuietDirectorySweep | gocache/gocached/putqueue.go:605-698 | under the same hypothesis, in any state of a run with nothing pending and every intent due, a directory sweep leaves exactly the files of committed blobs, and no intent |
| DirectorySweep.OrphanSwept | gocache/gocached/putqueue.go:605-611 | a run, a way to write digests and listings that meet all that the last two require: a PUT cut off by a crash after its copy, and its blob and intent swept an hour later |
| PutPipelineRuns.FirstCommitWins | gocache/gocached/putqueue.go:993-1022 | rows of actions and blobs never change or go once committed, through duplicates and crashes |
| PutPipelineRuns.AnswersAreOfOnePut | gocache/gocached/gocached.go:1541-1642 | whatever a GET answers with is the output ID and the bytes of a single PUT of one of its two keys |
| PutPipelineRuns.NoReadabilityGap | gocache/gocached/gocached.go:1541-1642 | once a PUT is in the pending map, a GET begun any time later hits, however its lookups, opens and query interleave with retiring, unless the key was dropped, or lost uncommitted to a crash, or the GET had an uncommitted PUT of the global key in hand that was dropped |
| PutPipelineRuns.CommittedReadsBackExactlyWhen | gocache/gocached/gocached.go:1598-1642 | a GET through the tables returns the committed PUT if and only if its content is inline, uncompressed, or of another length than its frame |
| PutPipelineRuns.PendingReadsBackExactlyWhen | gocache/gocached/gocached.go:1541-1589 | a pending PUT of the global key is what a GET answers with, ahead of anything committed, if and only if its spool file decodes to its content |
| PutProgress.InsertDecides | gocache/gocached/putqueue.go:314-326 | a request's PUT becomes the pending entry of its key if there is none, and is gone without a trace if there is one |
| PutProgress.ReachesBatch | gocache/gocached/putqueue.go:333-343 | a small PUT whose key was free is in the batch, or committed, with its second step after that, a bigger one with its seventh, plus four for each failed attempt to copy, whatever others do |
| PutProgress.NextOwnStep | gocache/gocached/putqueue.go:480-503 | until then it always has a step that need not fail, unless three attempts have failed |
| PutProgress.DroppedOnlyAfter | gocache/gocached/putqueue.go:480-503 | a PUT is dropped only from the batch, or, a bigger one, after exactly three failed attempts |
| PutProgress.PresentBlobNotCopied | gocache/gocached/putqueue.go:533-543 | a blob that is in the main directory already is not copied, and no intent is written for it |
| PutProgress.SmallNeverWithMover | gocache/gocached/putqueue.go:333-343 | a PUT of at most 1024 bytes is never with a mover and has no intent, in any state of any run |
| PutProgress.BatchCommits | gocache/gocached/putqueue.go:993-1022 | after the commit of a batch each of its PUTs has its key in the tables, as its own row if none was there: digest, output ID, sizes, inline bytes |
| PutProgress.CommittedPutServed | gocache/gocached/gocached.go:1598-1642 | from then on, through crashes and other PUTs, a GET of that key through the tables answers with exactly this PUT |
| PutProgress.ClearedAway | gocache/gocached/putqueue.go:877-918 | a committed PUT leaves the pending map with its first step after the commit, and the spool with its second |
| PutProgress.HandedOffIntentGoes | gocache/gocached/putqueue.go:888-900 | an intent handed off after a commit stays with the movers until it is deleted, and then is gone from the disk |
| PutProgress.IntentGivesAnHour | gocache/gocached/putqueue.go:555-571 | an intent is named for its blob and due 3600 seconds after it is written: it can be swept then and not before |
| PutProgress.CrashLosesVolatileOnly | gocache/gocached/putqueue.go:605-640 | a crash leaves main directory, intents and tables, and nothing else; a sweep of the intents afterwards leaves exactly the committed blobs |
| PutProgress.GetEnds | gocache/gocached/gocached.go:1541-1642 | a GET is answered with its fifth step at the latest, and always has a next one |
| PutQueueing.PutQueue.Reserve | gocache/gocached/putqueue.go:260-288 | which lane, which weight (clamped to the cap), when granted; nothing stays taken of a reservation given up between its two acquisitions |
| PutQueueing.PutQueue.ReserveBytes | gocache/gocached/putqueue.go:270-277 | the first acquisition of a bigger PUT: granted exactly if nobody waits ahead and there is room; its weight is held from then on, while the request waits for its slot |
| PutQueueing.PutQueue.ReserveCount | gocache/gocached/putqueue.go:278-287 | the second, whenever it comes: weight held and slot become one reservation |
| PutQueueing.PutQueue.ReleaseBytes | gocache/gocached/putqueue.go:281-284 | a request canceled between the two gives its weight back |
| PutQueueing.PutQueue.ReserveInline | gocache/gocached/putqueue.go:294-299 | one slot of the inline lane if there is one, never more than its cap |
| PutQueueing.PutQueue.Unreserve | gocache/gocached/putqueue.go:302-309 | exactly what the reservation took goes back |
| PutQueueing.PutQueue.Insert | gocache/gocached/putqueue.go:314-326 | the first PUT of a key wins; a new entry takes over one granted reservation and the counters follow |
| PutQueueing.PutQueue.Enqueue | gocache/gocached/putqueue.go:333-343 | a new entry goes to the end of the channel of its lane; a duplicate changes nothing |
| PutQueueing.PutQueue.HandlePut | gocache/gocached/gocached.go:2124-2224 | a whole PUT request: refused exactly if there is no room, bad exactly if there is and the body breaks off, a duplicate or accepted by whether the key is pending; accepted with the inline slot or the clamped byte weight and a count slot, by its length, and its entry at the end of the right channel; else the queue is exactly as it was |
| PutWorkers.Workers.Accept | gocache/gocached/gocached.go:2204-2216 | a request with room hands it to a new entry, or gives a duplicate's back |
| PutWorkers.Workers.FinishCopy | gocache/gocached/putqueue.go:480-501 | a mover's turn ends with its entry passed on, or retired with its room, and the entry is always still there to retire |
| PutWorkers.Workers.RetireOne | gocache/gocached/putqueue.go:806-880 | so does the flusher's, for each entry of its batch |
| PutWorkers.Workers.Run | gocache/gocached/putqueue.go:215-373 | any turns of requests, movers and flusher in any order come to what the reference machine says, which has no semaphores and adds up what is owned; the semaphores hold that and nothing else, and once all are done nothing, with room for a PUT of any size |
| PutWorkers.CanFinish | gocache/gocached/putqueue.go:260-343 | from any state there are turns after which every waiting request, entry and batch is done: nobody waits for ever |
| PutQueueing.PutQueue.Send | gocache/gocached/putqueue.go:337-342 | after the hand-off both channels are within their buffers: the send does not block |
| PutQueueing.PutQueue.MoveToFlush | gocache/gocached/putqueue.go:488-491 | a mover's hand-off fits the flusher's channel |
| PutQueueing.PutQueue.Retire | gocache/gocached/putqueue.go:358-373 | succeeds exactly if this very entry is in the map, and then releases its reservation once; otherwise changes nothing |
| PutQueueing.PutQueue.LanesHold | gocache/gocached/putqueue.go:175-236 | neither lane exceeds its caps, counting requests without an entry, and what is in and before the channels is within them |
| PutQueueing.PutQueue.NoEntryTwice | gocache/gocached/putqueue.go:377-389 | every pending entry is in exactly one of hand, channel, mover, channel and batch, and the map lists as many |
| Shards.ShardsPartition | gocache/gocached/gocached.go:2515-2569 | every lowercase-hex digest is in the range of exactly one shard, and it is the one that addBlobDelta parses from its prefix |
| IntentNames.ParseInvertsFormat | gocache/gocached/putqueue.go:555-586 | parsing a formatted name gives back due time and blob for due times in [0, 2^32), and refuses it for all others |
| IntentNames.WrittenIffLowercase | gocache/gocached/putqueue.go:572-586 | among names the parser takes, those the writer gives are the ones whose time is in lowercase |
| IntentNames.NamesSortByDue | gocache/gocached/putqueue.go:667-671 | names sort as their due times do |
| IntentNames.StopRightIffInOrder | gocache/gocached/putqueue.go:667-671 | the early stop misses no due intent, at any time, if and only if due times do not go back along the listing |
| IntentNames.WrittenInOrder | gocache/gocached/putqueue.go:555-571 | they do not in a sorted directory of written names |
| IntentNames.SweepIntentDir | gocache/gocached/putqueue.go:655-698 | for every listing the loop handles exactly the due intents before the first that is not due, in order, and all the due ones if the listing is in order of due times; it fails only if a query may |
| IntentNames.SweepCleanupIntents | gocache/gocached/putqueue.go:612-648 | for all listings: a pass without error handles what the early stop lets it come to, in the flat layout and every shard directory, and nothing else; all that is due if they are in order |
| IntentNames.HandledExactly | gocache/gocached/putqueue.go:672-696 | which blobs and which intents are gone after a list of due intents, with files that cannot be removed |
| IntentNames.UppercaseHidesDue | gocache/gocached/putqueue.go:667-671 | a sorted directory with an uppercase name in which a due intent follows one that is not due |
| UsageRuns.StepKeepsInv | gocache/gocached/gocached.go:2515-2542 | commits, bumps, deltas, published and subtracted scans, queries and transactions each keep the conservation law, and the evictor's candidates as its query saw them |
| UsageRuns.ReckoningExact | gocache/gocached/gocached.go:2784-2831 | in every state of every run, for every shard: persisted + delta + owed adjustments - owed scan differences is the shard's true count, and bytes; with nothing owed the live totals are exact |
| UsageRuns.LateTransactionExact | gocache/gocached/gocached.go:2964-3010 | whatever commits and bumps come between the candidate query and the transaction, it deletes only what it saw, the deltas it then owes are the exact change in count and bytes, and all candidates go or maxBytes do |
| DeadReckoning.LiveTotalsExact | gocache/gocached/gocached.go:2533-2543 | from the conservation law of every shard and nothing owed: persisted scans and deltas over all shards sum to the actions and bytes in the tables |
| DeadReckoning.ScanPublished | gocache/gocached/gocached.go:2795-2802 | publishing any scan, whatever it saw and however many run, keeps the conservation law of every shard |
| UsageAccounting.UsageServer.CommitPut | gocache/gocached/putqueue.go:993-1022 | the rows afterwards, duplicates included, and the one adjustment owed for a new action |
| UsageAccounting.UsageServer.SetAccessTime | gocache/gocached/gocached.go:1844-1860 | an access time bump changes that one column of an action that is there, as written out, and nothing else |
| UsageAccounting.UsageServer.AddBlobDelta | gocache/gocached/gocached.go:2515-2528 | applying an adjustment keeps the conservation law, also for a SHA-256 of no shard |
| UsageAccounting.UsageServer.RecomputeAggregate | gocache/gocached/gocached.go:2741-2758 | every cohort of the aggregate, the total among them, is the sum over the cached shards |
| UsageAccounting.AddScan | gocache/gocached/gocached.go:2746-2753 | the inner loop adds every cohort of one shard's scan |
| UsageAccounting.UsageServer.SumShardDeltas | gocache/gocached/gocached.go:2533-2543 | the sum of every shard's delta |
| UsageAccounting.UsageServer.PublishScan | gocache/gocached/gocached.go:2795-2802 | a scan replaces the shard's view and owes its difference to the delta |
| UsageAccounting.UsageServer.SubtractDifference | gocache/gocached/gocached.go:2822-2829 | paying that difference keeps the conservation law |
| UsageAccounting.UsageServer.LiveUsage | gocache/gocached/gocached.go:3104-3119 | the estimate that drives cleanup is the scans' total plus the deltas, and equals the tables' totals whenever nothing is owed |
| UsageAccounting.UsageServer.DeleteCandidates | gocache/gocached/gocached.go:2990-3085 | a transaction deletes a prefix of the candidates, up to where enough is reclaimed; blobs and files go exactly with their last action and are counted; queued deltas match; one that fails, before any candidate, between the two names of a blob, or at its commit, changes no table and loses exactly the files unlinked by then |
| UsageAccounting.UsageServer.OldestActions | gocache/gocached/gocached.go:2941-2948 | the candidates are the oldest actions within cutoff and limit, oldest first |
| UsageAccounting.UsageServer.EvictOldestActions | gocache/gocached/gocached.go:2964-3098 | one eviction from query to last delta: an oldest-first prefix goes (`OldestGoFirst`), exactly its unreferenced blobs and their files, none of a surviving action (`SurvivorsKeepBlobs`), and the deltas end exact; which files a failing one loses |
| UsageAccounting.UsageServer.CleanupTick | gocache/gocached/gocached.go:3104-3141 | from the limits, the clock, the scans and the deltas: whether the tick evicts, up to which cutoff, how many bytes, and what then goes, exactly; in seconds: with an age limit nothing accessed within it goes, and over it everything else does, or 200 actions; without one the size limit is served; it fails only if the store may |
| CleanupLimits.TickChangesIff | gocache/gocached/gocached.go:3121-3140 | a tick over a limit changes the tables if and only if some action was accessed at or before its cutoff |
| CleanupLimits.TickOutcome | gocache/gocached/gocached.go:3130-3140 | a cache that is only too big comes back to size, or loses a full batch of 200, or is left with nothing the cutoff covers |
| CleanupLimits.SizeLimitServedIff | gocache/gocached/gocached.go:3121-3140 | it comes back to size, or loses a full batch, or everything, if and only if the actions the cutoff covers are a full batch, or hold the excess, or are all there are, as they are without a maximum age |
| CleanupLimits.YoungCacheStaysTooBig | gocache/gocached/gocached.go:3126-3129 | limits of 24 hours and 8 bytes, and 10 bytes put an hour ago: every tick leaves the cache as it is |
| AgeScans.OverAgeIff | gocache/gocached/gocached.go:2590-2647 | whatever was scanned of which shard when: a tick finds the cache over age if and only if some scan saw an action of its shard that was too old then |
| AgeScans.OldIsCoveredIff | gocache/gocached/gocached.go:2599-2612 | what a scan calls too old is what a tick at the same time covers, for all times, if and only if the limit is a whole number of seconds |
| Evictions.FailureKeepsFilesIff | gocache/gocached/gocached.go:3061-3085 | wherever the transaction may fail, no failure loses a file if and only if no blob that it would take along has one |
| Evictions.RollbackLosesFile | gocache/gocached/gocached.go:3082-3084 | one action and a commit that fails: its row is there and its file is not |
| Evictions.HalfUnlinkingLosesFile | gocache/gocached/gocached.go:3066-3071 | the same action and a failure between the two names of its blob: the file is gone with no blob taken along |
| Evictions.EvictionReclaimsEnough | gocache/gocached/gocached.go:3034-3079 | the deltas are exactly the change of the totals, and every candidate goes or at least maxBytes of actions do |
| Evictions.EvictsNoMoreThanNeeded | gocache/gocached/gocached.go:3034-3079 | before every further candidate less than maxBytes was gone, or the last one had left its blob to other actions |
| ActionStore.FetchReadsBackExactlyWhen | gocache/awscache/awscache.go:583-655 | a stored blob is fetched and verified as its PUT's content if and only if its frame is within the bound on what is read |
| ActionStoreSafety.StepKeepsInv | gocache/awscache/awscache.go:515-830 | items, blobs, known blobs, PUTs and GETs under way stay sound through every store call, failure, expiry and crash of any host |
| ActionStoreSafety.ItemsAreBacked | gocache/awscache/awscache.go:760-830 | in every state every item that is not inline has its blob, the inline ones are those within the limit, every blob decompresses to its SHA-256, and hosts know only of blobs that exist |
| ActionStoreSafety.SuccessMeansStored | gocache/awscache/awscache.go:735-752 | a PUT that succeeds leaves an item at its key, its own exactly if it reports having created it |
| ActionStoreSafety.FirstPutStays | gocache/awscache/store.go:64-66 | the item of the first conditional write that landed stays as it is until it expires |
| ActionStoreSafety.DurableUntilExpiry | gocache/awscache/awscache.go:515-633 | from the step in which a PUT reports success on any host: every later GET on any host that may read its namespace, and whose own store calls succeed, hits until the item expires; in the global namespace with the output ID and bytes of the first PUT that landed there; in an extra namespace with those, or with what a PUT that landed at the global key left, and with exactly those if nothing was there during the GET |
| ActionStoreProgress.PutFailsIff | gocache/awscache/awscache.go:684-752 | a PUT on a host that stays up ends within six steps, two if inline, and in failure if and only if its upload or the write of its item failed; other failing calls do not matter |
| ActionStoreProgress.PutReports | gocache/awscache/awscache.go:704-752 | created exactly if its own conditional write landed, with its output ID, size and place; a duplicate exactly if the key had an item; no item before its end |
| ActionStoreProgress.PutSucceeds | gocache/awscache/awscache.go:704-752 | in a run, a PUT that ends without such a failure reports success, and its key has an item |
| ActionStoreProgress.PresentBlobNotUploaded | gocache/awscache/awscache.go:787-808 | a blob the host knows of, or is told is there, is not uploaded |
| ActionStoreProgress.NotedStaysKnown | gocache/awscache/awscache.go:812-830 | what a host noted it knows until it forgets that blob or crashes |
| ActionStoreProgress.ExpiredIsGone | gocache/awscache/store.go:64-66 | an item that expired is gone until a PUT writes one at its key anew |
| ActionStoreProgress.GetEnds | gocache/awscache/awscache.go:515-633 | a GET ends within four steps, and always has a next one that need not fail |
| ActionStoreProgress.OneLookupSuffices | gocache/awscache/awscache.go:551-580 | a GET whose lookup in the global namespace found an item answers with that item's PUT even if the other lookup fails or the item expires meanwhile; likewise in the extra namespace if the global one had none |
| StorageKeys.KeysDistinct | gocache/awscache/store.go:92-112 | two actions share a key exactly if they share namespace and action ID |
| StorageKeys.GlobalIsApart | gocache/awscache/store.go:101-107 | a generation of the global namespace is no client's namespace and no other generation, but for 0 and 1 |
| AccessTimes.TTLExactIff | gocache/awscache/atime.go:126-130 | the TTL is access time plus retention for every clock reading if and only if the retention is whole seconds |
| AccessTimes.TTLFollowsAccessTime | gocache/awscache/atime.go:126-140 | and so it stays through any bumps by any hosts |
| AccessTimes.BumpsGoForward | gocache/awscache/store.go:315-339 | a bump changes nothing or raises the access time by more than Relatime, whatever the clock |
| AccessTimes.AccessTimesOnlyGrow | gocache/awscache/store.go:315-339 | and so no sequence of bumps by any hosts ever lowers it |
| AccessTimes.HitExtendsLife | gocache/awscache/atime.go:56-74 | for every retention: after a hit whose bump, if wanted, is delivered, the TTL is at least the time of the hit less Relatime plus the retention, less one second if that is not whole seconds |
| AccessTimes.HitsExtendLifeIff | gocache/awscache/atime.go:126-130 | it is at least that time without the second, for all hits, if and only if the retention is whole seconds |
| AccessTimes.ReadOftenNeverExpires | gocache/awscache/awscache.go:359-360 | for every retention: an action read at least every Retention - Relatime lives that long after its last read, less one second if the retention is not whole seconds |
| AccessTimes.NeverExpiredWhenReadIff | gocache/awscache/awscache.go:357-360 | for every accepted configuration: such an action is never expired when read if and only if the retention is whole seconds |
| AccessTimes.HalfSecondExpires | gocache/awscache/awscache.go:359-360 | Relatime 1 s and retention 2.5 s: read after 1.5 s and again 1.5 s later, it has expired |
| AccessTimes.ATimeBumper.MaybeEnqueue | gocache/awscache/atime.go:56-74 | a bump is queued exactly if the access time is Relatime ago or more, in nanoseconds, the key is not on its way, and there is room; a key is never queued twice |

## Left out

- guestbd's NBD handshake and transmission, its server's `Close`, and shared snapshots over connections.
- Offsets in guestbd are unbounded numbers: `offset + length` does not wrap around.
- The page buffer pool: a method takes a fresh buffer. Metrics other than the cache's, base images' and queue's own counters.
- A base image's `ReadAt` is taken to return its content or fail; images that change under the server.
- Concurrent writes to parts of one page: reading, splicing and writing back is not one step in the code, so claims about concurrency are about page reads.
- PageReads.ReadsAsOfLookup: failing reads are left out there; `Snapshots.Snapshot.ReadPageData` has them.
- BaseLifecycle, PutPipeline, ActionStore and PageReads are state machines on values, one step for each section between two locks, channels or store calls, since what they are about is how such sections interleave; the in-place form of single operations is in the classes.
- BaseLifecycle.BasesSafe: opening a base image and reading its key are steps that succeed; a failed one changes nothing.
- The hot tier: installing a spool file in it is, to the queue, removing the file. Its own LRU is of the same kind as the page cache.
- Peers, authentication, HTTP headers and ranges, HEAD requests, and metrics pages of gocached.
- Eviction does not run in the put pipeline: it deletes files without regard to pending PUTs, and a reader takes a missing file for a miss.
- SQLite transactions are atomic and report their outcome; `drainPendingPuts` beside live workers, and a commit that fails after landing, are left out.
- PutPipelineSafety.SweepKeepsInv: the sweep of one intent is one step; split between its query and its look at the pending PUTs it would promise less.
- DirectorySweep.DirectorySweepIsRunPass: the intents are in shard directories, where this version writes them, and their due times fit 32 bits; `SweepCleanupIntents` has the flat layout too.
- Temporary files of interrupted copies in the main directory, which no name refers to.
- PutQueueing.PutQueue.Reserve: one call is a request that is canceled instead of waiting; one that waits makes its acquisitions (`ReserveInline`, `ReserveBytes`, `ReserveCount`) later, with calls of others in between, as in `PutWorkers.Workers.Run`. Waiting in order is the semaphores' affair; the queued arguments say that others wait ahead.
- PutQueueing.PendingPut is a value with its address rather than an object, so that totals over sets of them can be stated; only what the queue reads of it is there.
- IntentNames.ParseInvertsFormat: `ParseUint` is exact for the eight digits that a name has room for; its overflow is left out.
- Age cohorts are as old as the scans, and `CleanupTick` goes by them as they are; `AgeScans.OverAgeIff` says what they mean. A limit of exactly 2^63 - 1 nanoseconds, which shares its cohort with the total, is left out there.
- The flusher's batch cap of 512, its interval and its ten retries: a batch is of any length, and a PUT may be dropped from it.
- UsageAccounting.UsageServer.SumShardDeltas: one step, where the code locks shard by shard; the sum is claimed for a server at rest.
- UsageAccounting.UsageServer.EvictOldestActions: candidates are queried before the write lock is taken. Commits and access time bumps in between do no harm (`UsageRuns.LateTransactionExact`); another eviction would, and only the one cleanup loop evicts.
- UsageAccounting.UsageServer.CommitPut: the stored size is a function of the SHA-256, as it is with one lz4 version; a Blobs row that is there keeps its columns.
- Stats persisted by an earlier process that do not match the tables, and first scans of rows no delta saw, whose leftover offset the code documents.
- DynamoDB and S3 are their interfaces' contracts with strongly consistent reads; a call may fail before or after it took effect.
- All hosts compress alike: a blob already stored has the size its item says.
- The scrubber, which the code plans for: blobs are not deleted.
- Rate limits, timeouts and body deadlines, which are choices of when a step is taken.
- AccessTimes.ReadOftenNeverExpires: the hosts' clocks agree with the store's, and bumps are delivered.
