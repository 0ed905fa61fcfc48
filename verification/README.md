# Coordination, caching and framing in the OpenZeppelin Relayer, in Dafny

A relayer deployment is several instances of a Rust service that share one Redis, and
next to each instance a Node.js pool server that runs plugins. This project models the
parts of both that are hard to get right and proves what they promise:

- the bootstrap of the Redis repositories from the config file, by any number of
  instances that start, wait, take over, fail and crash in any order;
- the initialization of relayers, coordinated through a lock and timestamps;
- the plugins' key-value store: key encoding, `clear` and `withLock`;
- the compiled-code cache with its expiry, byte bound and pressure eviction;
- the execution metrics that concurrent plugin runs update;
- the newline framing on both ends of the plugin socket, the server's line queue and the
  client's request table;
- the draining shutdown and the memory monitor of the pool server;
- the script that removes repeated entries from the changelog.

## How to read it

A protocol is a function `Do` from a world and an event to the next world. An event that
is not possible changes nothing, so a run is any sequence of events at all, and a theorem
about every run is a theorem about every sequence. Each awaited Redis command is an event
of its own; failures, lost acknowledgements, timeouts, crashes, the passing of time and
the asynchronous release of a dropped lock guard are events too. Objects that the source
updates in place are classes whose methods are proved against specification functions;
the laws are lemmas about those functions.

| file | content |
|---|---|
| `JsMap.dfy` | insertion-ordered maps, shared by the cache and the counters |
| `RedisLock.dfy` | the lock commands shared by both bootstrap protocols |
| `ConfigBootstrap.dfy` | validation and the bootstrap state machine |
| `CommitRecord.dfy` | the API key as commit record |
| `FailClosed.dfy`, `Recovery.dfy` | what a half-finished bootstrap leaves possible |
| `SingleWriter.dfy`, `CreateCollision.dfy`, `LockHistory.dfy` | what the lock adds, and whom it refuses |
| `StartOutcome.dfy` | what ends a start, and how often it tries |
| `RelayerInit.dfy`, `DuplicateWork.dfy` | relayer initialization, and when it is done twice |
| `RelayerOutcome.dfy`, `RelayerLock.dfy` | how it ends for an instance, what it records, and whom its lock refuses |
| `KvStore.dfy`, `KvLock.dfy` | the plugins' key-value store |
| `CompiledCache.dfy` | the compiled-code cache: laws, then the class |
| `PluginMetrics.dfy` | bounded counters and metrics conservation |
| `LineFraming.dfy` | newline framing |
| `ServerConnection.dfy` | the server's queue of lines |
| `PluginApiClient.dfy` | the client's requests |
| `ServerLifecycle.dfy` | draining shutdown and memory monitor |
| `Semver.dfy`, `Changelog.dfy` | changelog de-duplication |

## Where the code does less than it seems to promise

For the first seven a lemma builds the failing case, and for the first six an if-and-only-if
lemma gives the exact condition.

- Storing a signer takes two Redis commands, and the network pipeline is not a
  transaction, so a data key can exist before the repository's list mentions it, and
  validation looks at the lists only. When the config's first non-empty stage is signers
  or networks, even with a single entry, a holder that stops after its first data key is
  followed by an instance that judges the store empty, sets the in-progress marker again,
  and fails on the entry the first one stored (`CreateCollision.CollisionFreeIff`, with
  the run in `SecondCreateCollides`). With two entries or more that instance can become a
  second writer (`SingleWriter.SingleWriterIff`, `TwoWriters`), and after a failed start
  later instances can still store entries (`FailClosed.NoLaterWrite`, with the stranded
  run in `DiesAfterFirstStore`). They still never succeed.
- Once an entry is stored and the API key is not, no start succeeds until the store is
  reset (`Recovery.RecoverableIff`); every config with entries can get there
  (`HalfStoredIsDeadEnd`).
- An instance that waits for relayer initialization looks at the global mark only. Its
  success covers its own relayers exactly when all instances with relayers have the same
  ones (`RelayerInit.OwnSetIff`, `WaiterMissesRelayer`).
- The lock and the marks keep two successful initializations 300 seconds apart only when all
  instances have the same relayers and nothing goes wrong. A failed command, a wait that ends, or
  a holder that dies or outlives its lease each allow a second batch at once
  (`DuplicateWork.NoDuplicateWorkIff`). The recovery path is one of them: an instance that gives
  up waiting does not look at the marks again once it has the lock (`ImpatienceDuplicates`).
- `clear` also unlinks lock keys. `withLock` excludes exactly as long as no plugin that
  clears can match a contended lock key (`KvLock.ExclusionIff`, `ClearLetsSecondIn`).
- When a cached path is compiled again, `set` counts the old code beside the new one. An
  entry of another path is lost although everything would fit after the replacement, if
  and only if the bound lies between the two totals and the replaced entry is not the
  oldest (`CacheSpec.ReplacementLosesOtherIff`, with a run in `ReplacingLosesFirst`).
- The server's line queue has one drain loop at a time because Node.js drains microtasks
  before the next chunk (`ServerConnection.AnswersInOrder`); a chunk between a finished
  loop and the calls it wakes would start a second one (`TwoLoops`).
- The comment on the memory monitor puts the emergency restart at 95% of the heap; the
  code uses 92% and a count of six, and the model follows the code.

## Model

| member | source | states |
|---|---|---|
| `RedisLock.TryAcquire` | src/utils/redis.rs:304-345 | acquiring succeeds exactly when no unexpired value is in place, and then the lease is the caller's for exactly the given time |
| `RedisLock.Release` | src/utils/redis.rs:395-424 | a release never removes another holder's value and always removes one's own |
| `ConfigBootstrap.JudgeLaws` | src/bootstrap/config_processor.rs:313-381 | the verdict is empty exactly when no repository has entries, complete exactly when every required one has, and otherwise the missing list names exactly the required ones without entries |
| `ConfigBootstrap.ValidateConfigBootstrapState` | src/bootstrap/config_processor.rs:313-381 | the six reads, the early return and the pushes compute that verdict |
| `CommitRecord.CommitImpliesFull` | src/bootstrap/config_processor.rs:475-769 | in every run of any number of instances: a stored API key implies that every configured entry is stored and listed; the completion marker, a complete verdict and a returned success each imply a stored API key |
| `CommitRecord.StepIsSound` | src/bootstrap/config_processor.rs:550-769 | every command of an instance, successful, failed or unacknowledged, keeps that invariant and removes nothing |
| `FailClosed.NoLaterSuccess` | src/bootstrap/config_processor.rs:550-609 | after a start that stored something and died before its API key, no instance ever returns success and nothing is ever committed |
| `FailClosed.NoLaterWrite` | src/repositories/signer/signer_redis.rs:168-208 | after such a start later instances store nothing if and only if an entry got listed or the whole first stage was stored; when one is listed they touch neither lists nor marker |
| `FailClosed.DiesAfterFirstStore` | src/repositories/network/network_redis.rs:242-290 | every config with entries can be stranded with one entry stored, which is listed exactly when its stage is a transaction; otherwise, with more entries in the stage, a later instance can store another |
| `Recovery.RecoverableIff` | src/bootstrap/config_processor.rs:475-696 | with nobody processing, an instance that is at the lock, in its first wait, or about to recheck can still succeed if and only if nothing is stored or an API key is |
| `Recovery.ExtendedWaitIff` | src/bootstrap/config_processor.rs:672-696 | with nobody processing, an instance in the extended wait can succeed if and only if the marker is set, or the store allows it and another instance is still on its way to the lock |
| `Recovery.HalfStoredIsDeadEnd` | src/bootstrap/config_processor.rs:550-609 | every config with entries has a run after which an instance that has yet to start can never succeed |
| `StartOutcome.OutcomeIff` | src/bootstrap/config_processor.rs:475-726 | in every run an instance has returned success, or failure, if and only if one of the listed events happened to it: the marker seen or written; an error at or past the lock, the end of the extended wait, a half-populated store, or a create that finds its entry |
| `StartOutcome.TriesAreBounded` | src/bootstrap/config_processor.rs:475-696 | in every run an instance tries the lock at most twice, rechecks at most once, and ends when its second wait does |
| `LockHistory.LockRefusedIff` | src/utils/redis.rs:304-441 | in every run the lock is refused if and only if some instance took it less than 120 seconds ago and is at work, has died, or has returned without its release having landed |
| `LockHistory.ReadsAreReal` | src/bootstrap/config_processor.rs:550-609 | in every run the marker and each flag an instance knows under the lock are what they were when it read them itself |
| `Recovery.FinishStages` | src/bootstrap/config_processor.rs:729-769 | from any stage whose entries and all later ones are not stored yet, there is a sequence of commands that creates them all and returns success |
| `Recovery.ReadsComplete` | src/bootstrap/config_processor.rs:313-381 | reading the flags of a committed store, from any point on, ends in success or in writing the marker |
| `SingleWriter.SingleWriterIff` | src/bootstrap/config_processor.rs:475-545 | when holders act only under live leases, at most one of two or more instances ever stores entries in every run if and only if the first store of the config is visible or leaves its stage nothing else to store (that no create meets another instance's entry is `CreateCollision.CollisionFreeIff`) |
| `SingleWriter.TwoWriters` | src/repositories/network/network_redis.rs:242-290 | for every other config there is a run with two writers, each under its own live lease |
| `CreateCollision.CollisionFreeIff` | src/bootstrap/config_processor.rs:475-609 | when holders act only under live leases, no create of two or more instances finds its entry already stored by another, in every run, if and only if the config has no entries or its first non-empty stage is stored and listed in one transaction |
| `CreateCollision.RunKeepsClean` | src/bootstrap/config_processor.rs:550-769 | in every such run of such a config whatever is stored is visible, and whatever is stored of the lock holder's stage or a later one the holder stored itself |
| `CreateCollision.SecondCreateCollides` | src/repositories/signer/signer_redis.rs:168-208 | otherwise any entry of the first stage, even the only one, is met by a second instance that judged the store empty, rewrote the marker, and then fails without having written |
| `RelayerInit.EveryReturnIsJustified` | src/bootstrap/initialize_relayers.rs:143-388 | in every run a skip means each own relayer was read as initialized by a successful batch and marked less than 300 seconds before; a successful wait means a batch preceded a global mark less than 300 seconds old; any other success means the own batch succeeded |
| `RelayerInit.OwnSetIff` | src/bootstrap/initialize_relayers.rs:250-302 | success covers the instance's own relayers in every run if and only if all non-empty relayer sets are equal |
| `RelayerInit.WaiterMissesRelayer` | src/bootstrap/initialize_relayers.rs:287-302 | if one instance has a relayer that another lacks, some run lets the first return success with that relayer never initialized |
| `RelayerOutcome.EndingIff` | src/bootstrap/initialize_relayers.rs:143-388 | in every run an instance has skipped, waited, initialized or returned an error if and only if the corresponding event happened to it; an error exactly when its own batch failed |
| `RelayerOutcome.CanAlwaysSucceed` | src/bootstrap/initialize_relayers.rs:312-388 | from every reachable world an instance that has neither returned nor died can go on to success by its own steps, none of which fails, within a bound linear in its relayers |
| `RelayerOutcome.MovesAreBounded` | src/bootstrap/initialize_relayers.rs:143-388 | whatever fails or times out, an instance with n relayers makes at most 4n + 12 moves in every run |
| `RelayerOutcome.BatchesAreRecorded` | src/bootstrap/initialize_relayers.rs:270-283 | in every run a batch after a lock error is not recorded and every other one is, the last resort included: without an error all marks are there |
| `RelayerOutcome.TriesAreBounded` | src/bootstrap/initialize_relayers.rs:312-377 | in every run an instance tries the lock at most twice, and initializes without it as a last resort only after two waits have ended |
| `RelayerLock.LockRefusedIff` | src/utils/redis.rs:304-441 | the initialization lock is refused in exactly the same circumstances as the config lock |
| `RelayerLock.SkipsReadGlobal` | src/bootstrap/initialize_relayers.rs:250-268 | in every run a skip began with the global mark read as fresh |
| `DuplicateWork.NoDuplicateWorkIff` | src/bootstrap/initialize_relayers.rs:143-388 | where two instances have relayers, successful batches are at least 300 seconds apart in every run with the given kinds of fault if and only if there are none and all non-empty relayer sets are equal |
| `DuplicateWork.RunKeepsQuiet` | src/bootstrap/initialize_relayers.rs:223-283 | in every fault-free run with equal sets, one instance at a time is past the lock, every batch but the one being recorded has all its marks, and an instance about to initialize is 300 seconds past every earlier batch |
| `DuplicateWork.FailureDuplicates` | src/bootstrap/initialize_relayers.rs:210-221 | two instances that cannot reach the lock both initialize |
| `DuplicateWork.ImpatienceDuplicates` | src/bootstrap/initialize_relayers.rs:312-347 | an instance that gave up waiting initializes right after the one it waited for, because it does not check the marks under the lock |
| `DuplicateWork.LapseDuplicates` | src/bootstrap/initialize_relayers.rs:223-247 | a holder that stops between its batch and its marks is followed by a second batch when its lease ends |
| `DuplicateWork.DifferenceDuplicates` | src/bootstrap/initialize_relayers.rs:250-268 | an instance with a relayer that the first one lacks initializes its whole set again at once |
| `KvKeys.KeyInjective` | plugins/lib/kv.ts:127-142 | two valid keys coincide if and only if plugin ids up to braces, segments and user keys coincide |
| `KvKeys.ClearCoversOwnKeys` | plugins/lib/kv.ts:222-228 | for ids without glob characters the pattern of `clear` matches a key if and only if it belongs to the same namespace |
| `KvClear.KvStore.Clear` | plugins/lib/kv.ts:222-245 | batches and chunks of unlinks remove exactly the keys the scan returned, and the count is the number of keys that disappeared even when the scan repeats keys |
| `KvClear.ClearIsExact` | plugins/lib/kv.ts:222-245 | with a complete scan, clearing removes every data and lock key of the plugin and no key of any other |
| `KvLock.DoUnlock` | plugins/lib/kv.ts:106-107 | the unlock script leaves every cell that does not hold the caller's token as it was |
| `KvLock.RefusedIff` | plugins/lib/kv.ts:262-282 | in every run a call is refused only because of another call that entered the same lock, has not unlocked it and whose lease runs; and always then, unless a clear can match the key |
| `KvLock.LeavesWhenDone` | plugins/lib/kv.ts:276-281 | whatever else happens, a call that is inside has finished, and the lock key is not its own any more, once its function has settled and its script has run |
| `KvLock.LeaseIsTtl` | plugins/lib/kv.ts:267-271 | in every run a lease ends the requested time after its call entered |
| `KvLock.DataIsLastWritten` | plugins/lib/kv.ts:169-187 | in every run a data key holds what was last set there since its last delete or clear, with that set's expiry; locks never touch it |
| `KvLock.RunKeepsGuarded` | plugins/lib/kv.ts:262-282 | in every run that does not clear it, the lock key of a call with a live lease holds that call's token, whatever data is written, deleted, expired or unlocked |
| `KvLock.ExclusionIff` | plugins/lib/kv.ts:222-282 | at most one call per lock key has a live lease in every run if and only if no plugin that clears matches a contended lock key |
| `KvLock.ExclusionForLiteralIds` | plugins/lib/kv.ts:222-282 | for ids without glob characters that is: no contending plugin clears itself |
| `KvLock.ClearLetsSecondIn` | plugins/lib/kv.ts:222-282 | a clear between two calls lets the second in while the first lease is live |
| `CacheSpec.SortedIsStable` | plugins/lib/worker-pool.ts:313-332 | the eviction order is a stable sort: by timestamp, ties in insertion order |
| `CacheSpec.SortedIsPermutation` | plugins/lib/worker-pool.ts:313-332 | it is a permutation of the entries |
| `CacheSpec.EvictLaws` | plugins/lib/worker-pool.ts:313-332 | evicting n removes n entries, all of them older than every entry kept |
| `CacheSpec.NeededIsLeast` | plugins/lib/worker-pool.ts:354-369 | before a set, the evicted entries are the shortest oldest-first prefix that makes the code fit |
| `CacheSpec.ReplacementLosesOtherIff` | plugins/lib/worker-pool.ts:354-369 | a set loses an entry of another path although all would fit after the replacement if and only if the path is cached, the bound lies between the totals with and without its old code, and it is not the oldest entry |
| `CacheSpec.ReplacingLosesFirst` | plugins/lib/worker-pool.ts:354-369 | setting two paths and then the second again ends with the first one gone, for all codes in that band |
| `CacheSpec.PressureLaws` | plugins/lib/worker-pool.ts:239-288 | of n entries high pressure keeps the newest 3n/8, medium pressure the newest 3n/4, low pressure all |
| `CacheSpec.SetFits` | plugins/lib/worker-pool.ts:354-369 | after a set the byte total is within the bound or the new entry is the only one |
| `CacheSpec.CacheRefinesLastSet` | plugins/lib/worker-pool.ts:197-386 | after any operations a lookup returns nothing or the last code set for the path since its last delete or clear, and the total is within the bound or the cache holds one oversized entry |
| `CacheSpec.UnexpiredElements` | plugins/lib/worker-pool.ts:293-308 | a sweep keeps exactly the entries that are not expired |
| `CacheSpec.SweepsAreInvisible` | plugins/lib/worker-pool.ts:293-352 | under a monotone clock, sweeps inserted anywhere into a run of lookups change no answer |
| `CacheSpec.LivesUntilUnused` | plugins/lib/worker-pool.ts:293-352 | after a set and any lookups and sweeps at any times, a lookup returns the code if and only if it and each of them came within the maximum age of the path's last use |
| `JsMap.PutFind` | plugins/lib/worker-pool.ts:354-369 | setting a key keeps every entry and position, and a new key comes last |
| `JsMap.WithoutFind` | plugins/lib/worker-pool.ts:371-377 | deleting a key removes its entry only and closes the gap |
| `CompiledCodeCache.Cache.EvictExpired` | plugins/lib/worker-pool.ts:293-308 | deleting while iterating leaves the unexpired entries in order, with the running total exact |
| `CompiledCodeCache.Cache.EvictOldest` | plugins/lib/worker-pool.ts:313-332 | sorting once and deleting from the front is evicting the oldest one at a time |
| `CompiledCodeCache.Cache.CheckMemoryPressure` | plugins/lib/worker-pool.ts:239-288 | the two thresholds and rounded-up counts, with the running total exact |
| `CompiledCodeCache.Cache.Get` | plugins/lib/worker-pool.ts:334-352 | an expired entry is removed and answered as absent, a live one is touched and returned |
| `CompiledCodeCache.Cache.Set` | plugins/lib/worker-pool.ts:354-369 | the eviction loop and the replacement reach the specified slots, with the running total exact |
| `BoundedCounters.IncrementLaws` | plugins/lib/worker-pool.ts:177-191 | an increment conserves the counts up to what the dropped first key held, and the map never outgrows its limit |
| `BoundedCounters.IncrementAt` | plugins/lib/worker-pool.ts:177-191 | an increment adds one to its own key, resets the first key of a full map, and changes no other count |
| `BoundedCounters.BoundedMap.Increase` | plugins/lib/worker-pool.ts:177-191 | set and drop-first compute that increment and keep the keys distinct |
| `PluginMetrics.MetricsConservation` | plugins/lib/worker-pool.ts:703-861 | for any number of interleaved runs, precompilations and resets: successes and failures sum to executions; for each key retained plus evicted counts equal increments; executions, successes, total time, cache hits, cache misses, compilations, dispatches per plugin and errors per code are exactly what the calls went through since the last reset, the second lookup after empty compiled code included; and the extremes are the least and greatest times since then |
| `PluginMetrics.TimesAreElapsed` | plugins/lib/worker-pool.ts:722-846 | in every run a recorded time is the time from the call's first event, through compilation and queue, to the end of its task |
| `LineFraming.LinesAndRest` | plugins/lib/pool-executor.ts:382-406 | framing loses no character and cuts exactly at newlines |
| `LineFraming.LinesOfJoin` | plugins/lib/pool-executor.ts:382-406 | lines sent with their newlines are the lines received, and the tail is the tail |
| `LineFraming.Resume` | plugins/lib/pool-executor.ts:382-406 | cutting the lines of a text before the rest of it arrives changes nothing |
| `LineFraming.ChunkingIsInvisible` | plugins/lib/pool-server.ts:515-535 | however a text is chunked, the same lines come out and the same buffer is left |
| `LineFraming.LineBuffer.Feed` | plugins/lib/pool-server.ts:530-535 | the `indexOf` loop cuts the buffered text into exactly those lines and that rest |
| `ServerConnection.AnswersInOrder` | plugins/lib/pool-server.ts:468-548 | in every run at most one drain loop is active, every non-blank line received is answered once, in order, with a reply that fits it; handled lines get what their own handler returned, in the order of completion; and no line is left over when no handler runs |
| `ServerConnection.ReceivesUntilOverflow` | plugins/lib/pool-server.ts:515-535 | in every run the text answered is all that arrived up to the first chunk that brings an unfinished line over 10 MB, and that chunk alone destroys the socket |
| `ServerConnection.TwoLoops` | plugins/lib/pool-server.ts:475-512 | if a chunk could arrive before the microtasks, two calls that resume late would each start a loop, because neither looks at the promise again |
| `ServerConnection.DrainAnswers` | plugins/lib/pool-server.ts:483-507 | a loop answers the lines it takes off the queue, in order, and skips exactly the blank ones |
| `PluginApiClient.SettlesOnce` | plugins/lib/pool-executor.ts:350-417 | in every run a request is pending exactly while its promise is unsettled and its timer armed, a settled request keeps its outcome, and one that left the table never comes back |
| `PluginApiClient.FirstEventDecides` | plugins/lib/pool-executor.ts:382-553 | a request registered under a fresh id ends with what the first later event that concerns it says: a response line completed by any chunk, its timeout, its write error or the loss of the socket |
| `PluginApiClient.ChunkingIsInvisible` | plugins/lib/pool-executor.ts:382-406 | however the responses are chunked, the client ends in the same state |
| `PluginApiClient.Client.HandleSocketData` | plugins/lib/pool-executor.ts:382-406 | the buffer loop settles the requests of the complete lines in order and keeps the rest |
| `PluginApiClient.Client.RejectAllPending` | plugins/lib/pool-executor.ts:412-417 | every pending request is rejected once, its timer is cleared, and no settled promise changes |
| `DrainingShutdown.DrainIsSound` | plugins/lib/pool-server.ts:850-975 | in every run the counter is the number of unsettled work requests, one drain starts exactly when shutdown begins, and it stops only with nothing active or its own timeout elapsed |
| `DrainingShutdown.RunIsExplained` | plugins/lib/pool-server.ts:575-605 | in every run the first shutdown message or emergency begins the one drain, of its kind and at its time; admitted are exactly the work requests before it, and in flight those not settled since |
| `DrainingShutdown.DrainStopsIff` | plugins/lib/pool-server.ts:883-970 | in every run a test of the drain loop ends it if and only if it had ended, nothing admitted is unsettled, or 30 seconds (10 in an emergency) have passed |
| `DrainingShutdown.ShutdownOnlyDrains` | plugins/lib/pool-server.ts:575-605 | once shutdown has begun, requests in flight only leave and the same drain stays in charge |
| `MemoryMonitor.EmergencyIff` | plugins/lib/pool-server.ts:116-182 | over every trace the restart is requested at most once, and by now if and only if a sample reached 0.92 or six samples of at least 0.85 occurred with none below 0.75 among them |
| `MemoryMonitor.StreakIsMaximal` | plugins/lib/pool-server.ts:126-131 | the counter is at least the number of critical samples in every stretch that ends now and has none below 0.75 |
| `MemoryMonitor.ThrottledActionsAreSpaced` | plugins/lib/pool-server.ts:184-233 | under a monotone clock two evictions or warnings are at least 10 seconds apart, and a warning follows either by at least 30 |
| `MemoryMonitor.ActionIsDue` | plugins/lib/pool-server.ts:116-236 | under a monotone clock every sample gets the action its ratio, the streak and the last 10 or 30 seconds call for, before the alarm and after it |
| `MemoryMonitor.PoolServerMemoryMonitor.CheckMemoryPressure` | plugins/lib/pool-server.ts:116-236 | one check of the monitor, branch by branch, is one step of that trace |
| `Semver.ParseSemverTuple` | scripts/dedupe_changelog.py:22-31 | the loop over at most three parts, padded with zeros, computes the version |
| `Semver.ParseRoundTrip` | scripts/dedupe_changelog.py:22-31 | parsing the printed form of any version, with or without the leading v, gives it back |
| `Semver.ParseParts` | scripts/dedupe_changelog.py:22-31 | of any dotted text that starts with a number, after letters v and spaces, the leading numbers of the first three parts are read, and 0 for a part without one or missing |
| `Changelog.FindVersionBlocks` | scripts/dedupe_changelog.py:40-51 | the blocks are disjoint, in file order, each headed by its version and without another header, and cover every line below the first header |
| `Changelog.SortLaws` | scripts/dedupe_changelog.py:73-73 | sorting by version keeps the blocks and the file order of equal versions |
| `Changelog.MarkDuplicates` | scripts/dedupe_changelog.py:73-91 | the marked lines are exactly the non-empty entries that occur earlier, in a lower version or above in an equal one |
| `Changelog.Dedupe` | scripts/dedupe_changelog.py:53-94 | the output is the input without exactly those lines, in order |
| `Changelog.SurvivesExactlyOnce` | scripts/dedupe_changelog.py:53-94 | each non-empty entry text is an entry of exactly one line of the output: its first occurrence in the lowest version that has it |
| `Changelog.OnlyDuplicatesAreDropped` | scripts/dedupe_changelog.py:80-94 | a line is missing from the output if and only if it repeats an earlier non-empty entry |
| `Changelog.DedupeIsIdempotent` | scripts/dedupe_changelog.py:53-94 | a second pass changes nothing |

## Left out

- The reset flag of the bootstrap and the in-memory storage path: both skip the protocol.
- The Redis path without distributed mode, which validates and processes with neither lock nor marker.
- Creates of one stage run concurrently, and the first failure drops the others. A command that was
  already sent then may land after its instance has returned; the model has no such late command.
- REST changes to the repositories while a bootstrap runs, and edits of entries afterwards.
- Contents of entries and their encryption; an entry is its repository and its id. Reads of the
  repositories from a lagging Redis replica are not modelled either: a read sees the latest write.
- A config that repeats an id within a repository: configs are sets of entries.
- The seconds of a bounded wait and the poll interval: the wait may end at any time.
- Clock differences between instances: the timestamps of one run come from one clock.
- The API key's id is drawn fresh in every processing run, and so are lock values, request ids and
  lock tokens: two draws never coincide in the model.
- Semver.ParseSemverTuple: digits and spaces are the ASCII ones.
- Changelog.Dedupe: the regular expressions of the script that recognize headers and bullets and
  normalize bullets enter as an arbitrary classification of lines, and splitting the file into lines
  and joining them again is left out.
- LineFraming.ChunkingIsInvisible: chunks are text; a multi-byte character split between two buffers
  is not modelled.
- ServerConnection.AnswersInOrder: it is about the replies offered to the socket; a reply to a client
  that has gone is discarded. Parsing and the handlers enter as an arbitrary test and arbitrary results.
- PluginApiClient.SettlesOnce: connecting and reconnecting, and the limit on pending requests, which is
  tested before an await and so can be exceeded, are left out; requests appear once they are registered.
- KvClear.KvStore.Clear: the keys a scan returns are an input, and glob matching is constrained only
  for patterns that are literal up to their final star.
- PluginMetrics.MetricsConservation: compilation times and the time of the last execution are not carried.
- CacheSpec.PressureLaws: the heap ratio is a real number and an input.
- KvLock.ExclusionIff: the Redis clock is one integer, and an expiry that is not positive is rejected.
- The compiled-function cache of the executor, the worker pool's sizing, compilation itself, the
  sandbox, signal handlers and process exit codes.
- The relayers' own business: transactions, signing, providers, queues, gas prices, the HTTP API.
