# A verified model of py-key-value's stores, wrappers and sync translator

The repository is an async key-value store library: stores that inherit their operations
from one base class, wrappers that change what a store does, and a script that translates
the async package into a sync one. This project models its hardest parts in Dafny and
proves what they promise. Five pieces, in dependency order:

1. **Stores with expiry** (`Prelude`, `TimeToLive`, `ManagedEntry`, `KeyValue`,
   `BulkOperations`, `ReplyLaws`, `BaseStore`, `TtlClamp`). `KeyValue` says what every
   operation of an ideal store means as a function of its table and a clock reading; the
   `Store` class does what the base class does, with its loops, and is tied to those
   functions. Bulk operations are shown to be the single ones made in order, and every reply
   on every run is said in terms of the calls before it.
2. **The two-tier cache** (`PassthroughNames`, `PassthroughSpec`, `PassthroughLimits`,
   `PassthroughCache`, `PassthroughRefinement`, `PassthroughBulk`, `PassthroughDefaults`,
   `PassthroughInterleaving`, `PassthroughSerial`, `PassthroughAlone`, `PassthroughFills`,
   `PassthroughRuns`, `PassthroughWitnesses`, `PassthroughAges`). The wrapper class is tied to
   a specification; on every run of calls made one at a time, with a cache that may lose
   entries whenever it likes, the cached store refines its bare primary, exactly when neither
   limit is negative and the two stores have the same default collection. With any number of
   tasks interleaved at every await, a call that is not interrupted does what it does alone,
   and replies are the primary's own if readers of a key wait for its writers, writers for its
   readers, and nobody else changes the primary, and no two of these three conditions are
   enough; without them, the age of every served value has an exact bound. The waiting has to
   come before the start (`PassthroughSerial.Exclusive`): a reader and a writer that have both
   started on a key would wait for each other for ever.
3. **First-use setup** (`SetupProtocol`). Double-checked locking as a state machine over any
   number of tasks, with hooks that may fail and destroys in between.
4. **Flat names** (`Compound`, `OrderedDict`, `SimpleStore`, `EvictionOrder`, `KeyPlacement`,
   `KeyWrappers`, `Sanitize`). Joining and splitting names, the flat bounded store that stands
   for a map of maps, which entry it evicts, wrappers that prefix keys, and the name sanitizer.
   Each has the exact condition under which nothing collides.
5. **The async-to-sync translator** (`PythonAst`, `SyntaxNodes`, `AsyncToSync`,
   `VisitedNodes`, `RenameAsyncToSync`, `RenameStatements`, `RenamedNodes`, `ImportLaws`,
   `SyncPipeline`, `AsyncSemantics`, `CoreLanguage`, `AsyncSimulation`, `AsyncTranslation`,
   `HookNames`, `TranslationLimits`, `TranslationWitness`). Which trees come out without async
   nodes, what either pass makes of a tree node by node (a tree is known by the sequence of its
   nodes), when renaming and the whole translation of an expression are idempotent, and that programs renamed and made sync do what the originals do. Hooks have
   their Python names, and the classes of objects are tracked, so that one program may use
   async and sync objects side by side.

Time is a real number, so there is no rounding. A clock reading is a parameter wherever the
source reads the clock. Exceptions are `Err` results or `Raised` replies. Values are
`dict[str, Any]` as maps of a JSON datatype; their JSON round trip is taken for granted.

## What the proofs turned up

- `put_many(ttl=None)` of the TTL clamp leaves entries without an expiry where `put(ttl=None)`
  applies `missing_ttl` (`TtlClamps.BulkClampsLikeSingles`).
- Single passthrough reads never serve an empty dict, bulk reads do; `get` differs from the
  primary's exactly there (`PassthroughRefinement.GetMatchesUnlessEmptyDict`).
- Interleaved calls can leave an old value in the cache in two ways: a write overtakes a read
  between its look at the primary and its fill, or a whole read happens between a writer's
  drop and its write (`PassthroughWitnesses.ReadersWaitingIsNotEnough`,
  `WritersWaitingIsNotEnough`). Of the eight disciplines that impose some of the three
  conditions, only the one with all of them is enough (`PassthroughWitnesses.AlwaysCurrentIff`).
- A bulk read replies later than it checks what it found in the cache, so the age of its
  values at the reply exceeds `L + d`, by as much as it waits
  (`PassthroughAges.AlwaysWithinIff`).
- With different default collections, what a call without a collection caches is served to
  calls that name the cache's default (`PassthroughDefaults.NamedRefinesIff`).
- `ttl_many` with a repeated key reports another TTL than single `ttl` calls made in order,
  which from the second on are answered out of the cache
  (`PassthroughBulk.TtlManyMatchesTtlsInOrder`).
- After a destroy the setup flags stay set, so a `MemoryStore` raises `KeyError` for that
  collection for ever (`SetupProtocol.KeyErrorIffDestroyed`, `DestroyedForever`,
  `DestroyedThenKeyError`).
- `sanitize_characters_in_string` documents that a string without allowed characters becomes
  empty. That holds for replacements of at most one character
  (`Sanitizer.EmptyExactlyWhen`). The model follows the code.
- A comment in the translator says `Generator[X, None, Y]`; the code makes
  `Generator[X, Y, Y]` (`RenameAsyncToSync.GeneratorGetsOneArgument`). The model follows the
  code.
- Renaming is not idempotent on paths below `pymongo.asynchronous.asynchronous`
  (`RenameAsyncToSync.ModuleRenamingIdempotentIff`).
- Async comprehensions stay async (`AsyncToSync.AsyncComprehensionsSurvive`).
- `names_map` has no entry for `__anext__`, and names of sync definitions (such as `__aiter__`)
  are not renamed. A class that defines its own async iteration loses it: its loops stop on a
  TypeError once translated (`HookNames.AsyncHookSurvivesIff`,
  `TranslationLimits.OwnIteratorIsLost`). `__aenter__` and `__aexit__` survive.
- For the same reason calls of a sync function whose name is mapped do not reach it once
  translated (`HookNames.CallReachesIff`), nor do uses of a parameter of a sync function that
  bears a mapped name (`HookNames.ParameterReachedIff`).

## Model

| member | source | states |
|---|---|---|
| TimeToLive.ValidateEachOutcome | key-value/key-value-shared/src/key_value/shared/utils/time_to_live.py:53-72 | a list of TTLs is returned unchanged when every one is None or positive, and raises InvalidTTLError otherwise |
| TimeToLive.PrepareTtlsOutcome | key-value/key-value-shared/src/key_value/shared/utils/time_to_live.py:75-91 | exactly when preparing succeeds, which of the two errors is raised otherwise, and that each position gets the TTL it asked for |
| ManagedEntries.ManagedEntry.constructor | key-value/key-value-shared/src/key_value/shared/utils/managed_entry.py:21-32 | whichever of TTL and expiry is missing is computed from the other and the clock, so that they differ by the clock; given both, both are kept |
| ManagedEntries.ManagedEntry.RecalculateTtl | key-value/key-value-shared/src/key_value/shared/utils/managed_entry.py:40-42 | only a missing TTL of an entry with an expiry is filled, with the time that is left |
| BaseStores.Store.Get | key-value/key-value-aio/src/key_value/aio/stores/base.py:103-129 | the value of the live entry, None for a missing or expired one; an empty collection name selects the default |
| BaseStores.SameSlotIff | key-value/key-value-aio/src/key_value/aio/stores/base.py:61-119 | two calls mean the same slot, if and only if they name the same key and the same collection, where None and the empty name stand for the default |
| BaseStores.Store.Ttl | key-value/key-value-aio/src/key_value/aio/stores/base.py:140-149 | value and remaining seconds, with the clock read twice; under a clock that does not run backwards a reported TTL comes with a value and is strictly positive |
| BaseStores.Store.GetMany | key-value/key-value-aio/src/key_value/aio/stores/base.py:97-137 | position by position what get returns, each entry at its own clock reading |
| BaseStores.Store.TtlMany | key-value/key-value-aio/src/key_value/aio/stores/base.py:152-167 | position by position what ttl returns, with two clock readings for each entry |
| BaseStores.Store.GetManagedEntries | key-value/key-value-aio/src/key_value/aio/stores/base.py:97-100 | the entries of all keys, each with the time that is left when it is built |
| BaseStores.Store.Put | key-value/key-value-aio/src/key_value/aio/stores/base.py:185-196 | stores the value with the expiry counted from now, or raises and stores nothing |
| BaseStores.Store.PutManagedEntries | key-value/key-value-aio/src/key_value/aio/stores/base.py:174-182 | the loop stores every entry, in order |
| BaseStores.Store.NewManagedEntries | key-value/key-value-aio/src/key_value/aio/stores/base.py:221-224 | every value is wrapped with its own TTL and the expiry that follows from its own clock reading |
| BaseStores.Store.PutMany | key-value/key-value-aio/src/key_value/aio/stores/base.py:199-226 | stores all entries, each made at its own clock reading, or raises the right error and stores none |
| BaseStores.Store.Delete | key-value/key-value-aio/src/key_value/aio/stores/base.py:245-249 | removes exactly the one key and says whether it was stored |
| BaseStores.Store.DeleteMany | key-value/key-value-aio/src/key_value/aio/stores/base.py:233-257 | removes the keys and returns exactly the drop in stored entries, repeated keys included |
| BulkOperations.PutManyAllOrNothing | key-value/key-value-aio/src/key_value/aio/stores/base.py:199-226 | put_many succeeds exactly when counts fit and every TTL is valid; a failing one changes no entry |
| BulkOperations.PutEachIsPutsInOrder | key-value/key-value-aio/src/key_value/aio/stores/base.py:199-226 | however the clock moves, put_many succeeds exactly when counts fit and every TTL is valid, and then leaves what its puts made in order leave, each at the time its entry was made |
| KeyValue.StandingStill | key-value/key-value-aio/src/key_value/aio/stores/base.py:132-226 | with a clock that stands still, the bulk operations are those of the sequential runs |
| BulkOperations.PutManyIsPutsInOrder | key-value/key-value-aio/src/key_value/aio/stores/base.py:199-226 | a successful put_many leaves what its puts made in order leave, and each of those succeeds |
| BulkOperations.LastDuplicateWins | key-value/key-value-aio/src/key_value/aio/stores/base.py:174-182 | cell by cell: the last entry for a key wins, every other key keeps what it had |
| BulkOperations.DeleteManyIsDeletesInOrder | key-value/key-value-aio/src/key_value/aio/stores/base.py:233-257 | delete_many leaves what its deletes made in order leave and counts those that reported a deletion |
| BulkOperations.DeleteAllCells | key-value/key-value-aio/src/key_value/aio/stores/base.py:233-242 | exactly the named keys go |
| ReplyLaws.PutReply | key-value/key-value-aio/src/key_value/aio/stores/base.py:185-196 | a put is stored exactly when its TTL is None or positive; what is stored is the value, the time of the put and, with a TTL, the time at which it is over |
| ReplyLaws.PutThenRead | key-value/key-value-aio/src/key_value/aio/stores/base.py:103-196 | after a stored put, get answers the value and ttl the seconds left until the TTL is over, and then None; without a TTL the value for ever |
| ReplyLaws.WriteLeavesOthers | key-value/key-value-aio/src/key_value/aio/stores/base.py:185-249 | a put or delete changes no reply to reads of other keys |
| ReplyLaws.DeleteThenRead | key-value/key-value-aio/src/key_value/aio/stores/base.py:245-249 | a deleted key is missing; the reply says whether there is a time at which it would have been read |
| ReplyLaws.PutEachThenRead | key-value/key-value-aio/src/key_value/aio/stores/base.py:199-226 | however the clock moves, reads after put_many report for each key the value and TTL of its last position, counted from when that entry was made; other keys read as before |
| ReplyLaws.BulkReads | key-value/key-value-aio/src/key_value/aio/stores/base.py:132-167 | get_many and ttl_many answer position by position what get and ttl answer |
| ReplyLaws.DeleteManyThenRead | key-value/key-value-aio/src/key_value/aio/stores/base.py:233-257 | the named keys are missing after delete_many, all others read as before |
| ReplyLaws.ReadsReportTheLastPut | key-value/key-value-aio/src/key_value/aio/stores/base.py:103-257 | on every run from the empty store a read reports what the last call that touched its key stored, counted from that call, and nothing if that was a delete or there was none; a delete says which |
| TtlClamps.ClampMeaning | key-value/key-value-aio/src/key_value/aio/wrappers/ttl_clamp/wrapper.py:36-42 | a positive TTL comes out as the nearest one within the bounds, or as the lower bound should they cross; any other raises |
| TtlClamps.ClampEachOutcome | key-value/key-value-aio/src/key_value/aio/wrappers/ttl_clamp/wrapper.py:60-61 | a list is clamped position by position; one invalid TTL makes the whole call raise |
| TtlClamps.ClampArgOutcome | key-value/key-value-aio/src/key_value/aio/wrappers/ttl_clamp/wrapper.py:49-63 | when put_many's TTL can be clamped and what each form becomes: None stays None, a positive number or list element is brought within the bounds, None in a list becomes missing_ttl, anything else raises |
| TtlClamps.ClampedPutThenRead | key-value/key-value-aio/src/key_value/aio/wrappers/ttl_clamp/wrapper.py:36-46 | a put through the clamp succeeds exactly when the TTL asked for and the one the clamp answers with are None or positive; ttl then reports the latter |
| TtlClamps.ClampedBulkThenRead | key-value/key-value-aio/src/key_value/aio/wrappers/ttl_clamp/wrapper.py:49-63 | after a bulk put through the clamp each key is reported with the clamped TTL of its last position, other keys as before |
| TtlClamps.BulkClampsLikeSingles | key-value/key-value-aio/src/key_value/aio/wrappers/ttl_clamp/wrapper.py:44-63 | a bulk put asks for the same TTLs as single puts if and only if it is not called with ttl=None while a missing TTL is configured |
| TtlClamps.TtlClampWrapper.Put | key-value/key-value-aio/src/key_value/aio/wrappers/ttl_clamp/wrapper.py:36-46 | the wrapped store holds the entry with the clamped TTL, or the call raises and the store is unchanged |
| TtlClamps.TtlClampWrapper.PutMany | key-value/key-value-aio/src/key_value/aio/wrappers/ttl_clamp/wrapper.py:49-63 | the same in bulk |
| PassthroughSpec.FillMeaning | key-value/key-value-aio/src/key_value/aio/wrappers/passthrough_cache/wrapper.py:52-59 | with maximum_ttl m and missing_ttl n (1800 seconds each for None or 0), a fill from an entry that had not expired when it was checked succeeds exactly when its limit is positive; however much later it is made, it keeps the value and expires min(remaining when read, m) after the fill, or n after it for an entry without expiry |
| PassthroughSpec.PositiveUnlessNegative | key-value/key-value-aio/src/key_value/aio/wrappers/passthrough_cache/wrapper.py:38-43 | both limits come out positive exactly when neither was given as a negative number (zero and None select the default) |
| PassthroughLimits.ReadsAreServedUntil | key-value/key-value-aio/src/key_value/aio/wrappers/passthrough_cache/wrapper.py:38-153 | with maximum_ttl m and missing_ttl n, what a read of any kind puts into the cache answers all later reads of it, with value and time left, until min(remaining, m) or n after the read and not a moment longer, whatever the primary holds by then |
| PassthroughLimits.HitsStay | key-value/key-value-aio/src/key_value/aio/wrappers/passthrough_cache/wrapper.py:48-153 | a read leaves the primary alone, and in the cache every key that it finds there or does not ask for |
| PassthroughLimits.ReadsRaiseIff | key-value/key-value-aio/src/key_value/aio/wrappers/passthrough_cache/wrapper.py:48-153 | a read raises, if and only if some key that it has to ask the primary for falls under a limit that is not positive, and then leaves both tables as they were |
| PassthroughLimits.WritesDrop | key-value/key-value-aio/src/key_value/aio/wrappers/passthrough_cache/wrapper.py:156-184 | a write takes exactly its keys out of the cache, also when it raises, and does to the primary, and replies, what the bare call does |
| PassthroughCaches.Distinct | key-value/key-value-aio/src/key_value/aio/wrappers/passthrough_cache/wrapper.py:63 | dict.fromkeys keeps every key, each once |
| PassthroughCaches.FindUncached | key-value/key-value-aio/src/key_value/aio/wrappers/passthrough_cache/wrapper.py:63-71 | the first loop of the bulk reads: every key maps to its cached answer, and the missing ones are listed, each once |
| PassthroughCaches.Collect | key-value/key-value-aio/src/key_value/aio/wrappers/passthrough_cache/wrapper.py:77-88 | the second loop: the three parallel lists hold exactly the uncached keys that are live in the primary, with value and remaining TTL, and the dict is overwritten with the primary's answers |
| PassthroughCaches.BulkFill | key-value/key-value-aio/src/key_value/aio/wrappers/passthrough_cache/wrapper.py:90-96 | the clamped put_many of those lists fills exactly the distinct keys missing from the cache and live in the primary, or raises when one fill would |
| PassthroughCaches.PassthroughCacheWrapper.constructor | key-value/key-value-aio/src/key_value/aio/wrappers/passthrough_cache/wrapper.py:20-45 | the cache store is clamped between 0 and maximum_ttl, with missing_ttl; None and 0 stand for 1800 seconds |
| PassthroughCaches.PassthroughCacheWrapper.TablesOfSameNames | key-value/key-value-aio/src/key_value/aio/wrappers/passthrough_cache/wrapper.py:35-43 | with equal defaults, or a collection given, calls mean the two tables as they are |
| PassthroughCaches.PassthroughCacheWrapper.FillUncached | key-value/key-value-aio/src/key_value/aio/wrappers/passthrough_cache/wrapper.py:136-151 | collecting and filling together: the cache after it and the merged answers, or the error with the cache unchanged |
| PassthroughCaches.PassthroughCacheWrapper.Get | key-value/key-value-aio/src/key_value/aio/wrappers/passthrough_cache/wrapper.py:48-59 | both tables and the reply after the call |
| PassthroughCaches.PassthroughCacheWrapper.GetMany | key-value/key-value-aio/src/key_value/aio/wrappers/passthrough_cache/wrapper.py:62-98 | the loops serve each position from the tier that has it and fill the cache as one map overlay says |
| PassthroughCaches.PassthroughCacheWrapper.Ttl | key-value/key-value-aio/src/key_value/aio/wrappers/passthrough_cache/wrapper.py:101-114 | both tables and the reply after the call |
| PassthroughCaches.PassthroughCacheWrapper.TtlMany | key-value/key-value-aio/src/key_value/aio/wrappers/passthrough_cache/wrapper.py:117-153 | as GetMany, with the TTLs |
| PassthroughCaches.PassthroughCacheWrapper.Put | key-value/key-value-aio/src/key_value/aio/wrappers/passthrough_cache/wrapper.py:156-159 | the key leaves the cache even when the primary then raises |
| PassthroughCaches.PassthroughCacheWrapper.PutMany | key-value/key-value-aio/src/key_value/aio/wrappers/passthrough_cache/wrapper.py:162-172 | the same for every key |
| PassthroughCaches.PassthroughCacheWrapper.Delete | key-value/key-value-aio/src/key_value/aio/wrappers/passthrough_cache/wrapper.py:175-178 | the key leaves both tiers; the reply is the primary's |
| PassthroughCaches.PassthroughCacheWrapper.DeleteMany | key-value/key-value-aio/src/key_value/aio/wrappers/passthrough_cache/wrapper.py:181-184 | the same for every key |
| PassthroughRefinement.CallRefines | key-value/key-value-aio/src/key_value/aio/wrappers/passthrough_cache/wrapper.py:48-184 | each of the eight calls does to the primary what the bare call does, keeps the cache coherent, and answers as the bare call up to the stated relation |
| PassthroughRefinement.RunKeepsCoherence | key-value/key-value-aio/src/key_value/aio/wrappers/passthrough_cache/wrapper.py:48-184 | along every run the primary equals the bare store, and every live cached entry holds the primary's current value and expires no later |
| PassthroughRefinement.CachedStoreRefinesPrimary | key-value/key-value-aio/src/key_value/aio/wrappers/passthrough_cache/wrapper.py:48-184 | on every run from an empty cache that may lose entries at any time, every reply refines the bare primary's reply to the same call |
| PassthroughRefinement.AlwaysRefinesIff | key-value/key-value-aio/src/key_value/aio/wrappers/passthrough_cache/wrapper.py:20-184 | the cached store refines its primary on all runs if and only if neither limit was given as a negative number |
| PassthroughRefinement.GetMatchesUnlessEmptyDict | key-value/key-value-aio/src/key_value/aio/wrappers/passthrough_cache/wrapper.py:48-59 | on every run, get answers as the primary if and only if the primary does not hold an empty dict there |
| PassthroughBulk.GetManyMatchesGets | key-value/key-value-aio/src/key_value/aio/wrappers/passthrough_cache/wrapper.py:62-98 | position by position get_many answers as get at the same instant, if and only if the value it serves is not the empty dict |
| PassthroughBulk.TtlManyMatchesTtls | key-value/key-value-aio/src/key_value/aio/wrappers/passthrough_cache/wrapper.py:117-153 | the same for ttl_many and ttl |
| PassthroughBulk.GetManyMatchesGetsInOrder | key-value/key-value-aio/src/key_value/aio/wrappers/passthrough_cache/wrapper.py:62-98 | get_many answers, position by position, as its gets made in order, if and only if the value it serves is not the empty dict |
| PassthroughBulk.TtlManyMatchesTtlsInOrder | key-value/key-value-aio/src/key_value/aio/wrappers/passthrough_cache/wrapper.py:117-153 | ttl_many answers as its ttls made in order, if and only if the value is not the empty dict and, where an earlier one of them has filled the key, its TTL is not above maximum_ttl |
| PassthroughBulk.BulkReadsFillLikeSingleReads | key-value/key-value-aio/src/key_value/aio/wrappers/passthrough_cache/wrapper.py:62-153 | a bulk read leaves both tiers as its single reads made in order leave them, if and only if none of its keys meets the empty dict |
| PassthroughDefaults.ContractsAreNamedCalls | key-value/key-value-aio/src/key_value/aio/wrappers/passthrough_cache/wrapper.py:48-184 | what the methods' contracts say of the cache under exchanged names determines the cache itself |
| PassthroughDefaults.NamedRefinesIff | key-value/key-value-aio/src/key_value/aio/wrappers/passthrough_cache/wrapper.py:48-184 | on all runs of calls that name a collection or none, the cached store refines its primary if and only if the two stores have the same default collection |
| PassthroughInterleaving.PreparedAreOk | key-value/key-value-aio/src/key_value/aio/wrappers/passthrough_cache/wrapper.py:77-96 | what a reader puts into the cache at most d after its read is gone at most L + d after it |
| PassthroughInterleaving.InvHolds | key-value/key-value-aio/src/key_value/aio/wrappers/passthrough_cache/wrapper.py:48-184 | in every interleaving every cached entry and everything a suspended reader holds was live in the primary recently enough |
| PassthroughInterleaving.ServedValuesAreRecent | key-value/key-value-aio/src/key_value/aio/wrappers/passthrough_cache/wrapper.py:35-59 | in every interleaving a value from the cache was live in the primary less than L + d before it was taken, and less than that plus the time since then before the reply; a single read takes it as it replies. L is the larger of maximum_ttl and missing_ttl, 1800 seconds each for None or 0, d the longest time from a call's first primary read to its end. A value from the primary was live at most d before the reply |
| PassthroughAlone.BulkReaderAlone | key-value/key-value-aio/src/key_value/aio/wrappers/passthrough_cache/wrapper.py:62-98 | a bulk read that is not interrupted raises, replies and leaves both tables as get_many on runs of single calls |
| PassthroughAlone.SingleReaderAlone | key-value/key-value-aio/src/key_value/aio/wrappers/passthrough_cache/wrapper.py:48-59 | a single read that is not interrupted does what get does |
| PassthroughAlone.PutterAlone | key-value/key-value-aio/src/key_value/aio/wrappers/passthrough_cache/wrapper.py:156-172 | a put that is not interrupted leaves both tables as put_many does |
| PassthroughAlone.DeleterAlone | key-value/key-value-aio/src/key_value/aio/wrappers/passthrough_cache/wrapper.py:175-184 | a delete that is not interrupted leaves both tables as delete_many does |
| PassthroughAlone.SeenAtTheLastLook | key-value/key-value-aio/src/key_value/aio/wrappers/passthrough_cache/wrapper.py:63-69 | in every interleaving, what a reader has of a key that it asked the cache for more than once is what was there at its last look |
| PassthroughAlone.MissingInOrder | key-value/key-value-aio/src/key_value/aio/wrappers/passthrough_cache/wrapper.py:63-75 | the primary is asked for the missing keys in the order in which they are named first |
| PassthroughFills.PreparedExactly | key-value/key-value-aio/src/key_value/aio/wrappers/passthrough_cache/wrapper.py:77-96 | answers that had not expired when read are all turned into entries, each with its value and its exact expiry |
| PassthroughFills.FillsAreExact | key-value/key-value-aio/src/key_value/aio/wrappers/passthrough_cache/wrapper.py:52-59 | in every interleaving a reader about to fill the cache goes on to do so, with exact copies of its answers, however long it took |
| PassthroughFills.FillsNeverRaiseIff | key-value/key-value-aio/src/key_value/aio/wrappers/passthrough_cache/wrapper.py:38-59 | no fill raises in any interleaving, if and only if neither limit was given as a negative number |
| PassthroughSerial.ExclusiveIsSerial | key-value/key-value-aio/src/key_value/aio/wrappers/passthrough_cache/wrapper.py:48-184 | when no key is read and written at once, every step of a caller is serial |
| PassthroughSerial.StartedTogetherWaitForEver | key-value/key-value-aio/src/key_value/aio/wrappers/passthrough_cache/wrapper.py:156-159 | a reader and a writer that have both started on a key can neither of them take another step of a serial run |
| PassthroughSerial.RunStaysCurrent | key-value/key-value-aio/src/key_value/aio/wrappers/passthrough_cache/wrapper.py:48-184 | on serial runs everything in the cache and in the hands of a reader is the primary's, and what a writer dropped stays out of the cache until it is through |
| PassthroughSerial.SerialReadsAreCurrent | key-value/key-value-aio/src/key_value/aio/wrappers/passthrough_cache/wrapper.py:48-184 | on serial runs the primary stores every value replied with, at the pick and at the reply, live or expired less than d before the pick, and has no live value for any other key asked for |
| PassthroughWitnesses.ReadersWaitingIsNotEnough | key-value/key-value-aio/src/key_value/aio/wrappers/passthrough_cache/wrapper.py:48-59 | for all two values there is a run in which only readers wait, and a read is served the old value: a write overtook a read between look and fill |
| PassthroughWitnesses.WritersWaitingIsNotEnough | key-value/key-value-aio/src/key_value/aio/wrappers/passthrough_cache/wrapper.py:156-159 | the same when only writers wait: a whole read happened between a writer's drop and its write |
| PassthroughWitnesses.CallersWaitingIsNotEnough | key-value/key-value-aio/src/key_value/aio/wrappers/passthrough_cache/wrapper.py:48-59 | the same when both wait and somebody else changes the primary |
| PassthroughWitnesses.AlwaysCurrentIff | key-value/key-value-aio/src/key_value/aio/wrappers/passthrough_cache/wrapper.py:48-184 | of the eight disciplines that impose some of the three conditions, replies are the primary\'s own on all runs if and only if all three are imposed |
| PassthroughAges.OlderRun | key-value/key-value-aio/src/key_value/aio/wrappers/passthrough_cache/wrapper.py:62-98 | for every age below L + d + x a bulk read that replies x after checking the cache serves an older value |
| PassthroughAges.AlwaysWithinIff | key-value/key-value-aio/src/key_value/aio/wrappers/passthrough_cache/wrapper.py:35-153 | an age bounds the values served from the cache, at the reply and on all interleaved runs, if and only if it is at least L + d + x, x the time from the check of the cache to the reply; so L + d is a bound exactly for single reads and bulk reads that reply as they check |
| SetupProtocol.InvHolds | key-value/key-value-aio/src/key_value/aio/stores/base.py:71-91 | the invariant of flags, locks, tables and every task's program counter holds in every reachable state |
| SetupProtocol.HooksSucceedAtMostOnce | key-value/key-value-aio/src/key_value/aio/stores/base.py:71-91 | _setup succeeds at most once, _setup_collection at most once per collection |
| SetupProtocol.HooksNeverOverlap | key-value/key-value-aio/src/key_value/aio/stores/base.py:71-91 | two runs of the same hook never overlap |
| SetupProtocol.NoAccessBeforeSetup | key-value/key-value-aio/src/key_value/aio/stores/base.py:81-119 | no data operation starts before both hooks have succeeded for its collection |
| SetupProtocol.NoPutIsWiped | key-value/key-value-aio/src/key_value/aio/stores/memory/store.py:119-145 | a collection that was not destroyed holds exactly what its data operations make from an empty table: no setup hook wipes a put |
| SetupProtocol.ContentsAreTheLastPuts | key-value/key-value-aio/src/key_value/aio/stores/memory/store.py:119-145 | a collection set up and not destroyed has value v under k, if and only if some performed operation put v there and no later one put or deleted k in it |
| SetupProtocol.StepsPerformed | key-value/key-value-aio/src/key_value/aio/stores/base.py:103-119 | exactly the step of a task that is ready for a data operation on a collection not destroyed performs an operation, its own, and completes the task |
| SetupProtocol.EveryAccessIsPerformedOnce | key-value/key-value-aio/src/key_value/aio/stores/base.py:103-119 | in every reachable state every completed data operation has been performed, and as many have been performed as completed |
| SetupProtocol.DestroysRemove | key-value/key-value-aio/src/key_value/aio/stores/memory/store.py:158-171 | a destroy of the store leaves no collection; a destroy of a collection removes that one and leaves all others as they are |
| SetupProtocol.KeyErrorIffDestroyed | key-value/key-value-aio/src/key_value/aio/stores/memory/store.py:119-171 | a data operation raises KeyError exactly when a destroy has removed its collection |
| SetupProtocol.DestroyedForever | key-value/key-value-aio/src/key_value/aio/stores/memory/store.py:158-171 | a destroyed collection is missing in every continuation |
| SetupProtocol.DestroyedThenKeyError | key-value/key-value-aio/src/key_value/aio/stores/memory/store.py:119-171 | for every collection and any two data operations there is a run in which the first sets it up, another task destroys it and the second raises KeyError |
| SetupProtocol.SetupFailureAllowsRetry | key-value/key-value-aio/src/key_value/aio/stores/base.py:71-79 | a failed _setup frees the lock and sets no flag, and the next waiting task runs the hook again |
| SetupProtocol.CollectionFailureAllowsRetry | key-value/key-value-aio/src/key_value/aio/stores/base.py:81-91 | the same for a collection's hook and lock |
| SetupProtocol.UnblockedStepsDescend | key-value/key-value-aio/src/key_value/aio/stores/base.py:71-91 | every step of an unfinished task that waits for no held lock brings it nearer its end |
| SetupProtocol.BlockedByARunningTask | key-value/key-value-aio/src/key_value/aio/stores/base.py:71-91 | no deadlock: whoever waits, waits for a task that is itself unfinished and not waiting |
| Compounds.Find | key-value/key-value-shared/src/key_value/shared/utils/compound.py:12-16 | the leftmost occurrence of the separator, or that there is none |
| Compounds.SplitUndoesJoin | key-value/key-value-shared/src/key_value/shared/utils/compound.py:5-22 | splitting undoes joining if and only if the separator does not occur in `first` followed by all but the last character of the separator, whatever the key |
| Compounds.DefaultSeparable | key-value/key-value-shared/src/key_value/shared/utils/compound.py:1-22 | for "::" that condition is: the name neither contains "::" nor ends in ":" |
| Compounds.JoinUndoesSplit | key-value/key-value-shared/src/key_value/shared/utils/compound.py:5-22 | exactly the strings that contain the separator split, joining the parts gives the string back, and there are always two parts |
| Compounds.InseparableNamesCollide | key-value/key-value-shared/src/key_value/shared/utils/compound.py:5-22 | every key of an inseparable name is also a key of a shorter, separable one |
| Compounds.UnprefixUndoesPrefix | key-value/key-value-shared/src/key_value/shared/utils/compound.py:40-50 | unprefixing undoes prefixing, for all keys and prefixes |
| Compounds.PrefixUndoesUnprefix | key-value/key-value-shared/src/key_value/shared/utils/compound.py:40-50 | unprefixing succeeds exactly on prefixed keys, and prefixing undoes it |
| Compounds.PrefixesDisjoint | key-value/key-value-shared/src/key_value/shared/utils/compound.py:40-50 | two prefixes share no key if and only if neither, with the separator added, starts the other |
| OrderedDicts.PutDropsOnlyTheOldest | key-value/key-value-aio/src/key_value/aio/stores/simple/store.py:77-85 | with room for one entry a put succeeds, keeps the bound and its own entry, and drops at most one other: the oldest |
| OrderedDicts.PutOrder | key-value/key-value-aio/src/key_value/aio/stores/simple/store.py:80-85 | a new key goes to the end; an overwritten one keeps its place when there is room or it is not the oldest, and else comes back at the end |
| OrderedDicts.PutFailsIff | key-value/key-value-aio/src/key_value/aio/stores/simple/store.py:77-85 | a put raises exactly on an empty store that may hold nothing |
| OrderedDicts.NewKeysQueueUp | key-value/key-value-aio/src/key_value/aio/stores/simple/store.py:77-85 | writing distinct new keys evicts old ones from the front while the new ones queue up behind |
| OrderedDicts.NewKeysAllPresent | key-value/key-value-aio/src/key_value/aio/stores/simple/store.py:77-85 | writing at most max_entries distinct keys not stored before leaves all of them stored, with what was written |
| SimpleStores.StepSimulates | key-value/key-value-aio/src/key_value/aio/stores/simple/store.py:65-104 | one call on the flat dict and on the map of maps it encodes: the same reply, and it still encodes it |
| SimpleStores.FlatStoreSimulatesNestedMap | key-value/key-value-aio/src/key_value/aio/stores/simple/store.py:65-104 | on every run whose collection names are separable the flat store answers every call as a bounded map of maps |
| SimpleStores.InseparableNameIsNotListed | key-value/key-value-aio/src/key_value/aio/stores/simple/store.py:93-99 | for every inseparable name the two differ after two calls |
| SimpleStores.NeverOverfull | key-value/key-value-aio/src/key_value/aio/stores/simple/store.py:77-85 | on every run, whatever the names, at most max_entries entries are held |
| EvictionOrders.OrderIsBySince | key-value/key-value-aio/src/key_value/aio/stores/simple/store.py:76-91 | on every run the keys are held in the order in which each last arrived |
| EvictionOrders.SinceMeans | key-value/key-value-aio/src/key_value/aio/stores/simple/store.py:76-91 | that arrival is the last put that found the key absent, or had to remove it for room; the key has been there ever since |
| EvictionOrders.LongestStoredIsEvicted | key-value/key-value-aio/src/key_value/aio/stores/simple/store.py:80-83 | at every point of every run a put removes another key, if and only if the store is full and that key has been there longest |
| EvictionOrders.FetchedAfterOneCall | key-value/key-value-aio/src/key_value/aio/stores/simple/store.py:65-104 | a put entry is fetched, a removed one is not and the reply says whether it was there, and none is after a clear |
| EvictionOrders.FetchedIsLastPut | key-value/key-value-aio/src/key_value/aio/stores/simple/store.py:65-85 | on every run what is fetched is what was put there last |
| EvictionOrders.ListedIffFetched | key-value/key-value-aio/src/key_value/aio/stores/simple/store.py:93-99 | on runs over separable names exactly the keys that would be fetched are listed, and exactly the collections that have some |
| EvictionOrders.ListedByArrival | key-value/key-value-aio/src/key_value/aio/stores/simple/store.py:93-95 | and the keys are listed in the order in which they arrived |
| SimpleStores.CollectionsIndependent | key-value/key-value-aio/src/key_value/aio/stores/simple/store.py:65-91 | at every point of a run over separable names, no get, put or delete changes a cell of the flat dict but its own, save the eviction of the one oldest entry |
| SimpleStores.InseparableSlotsAreShared | key-value/key-value-aio/src/key_value/aio/stores/simple/store.py:65-85 | every slot of a collection whose name is not separable is written by a put into another collection |
| SimpleStores.SimpleStore.GetManagedEntry | key-value/key-value-aio/src/key_value/aio/stores/simple/store.py:65-74 | a fresh entry with the stored value and expiry, or None |
| SimpleStores.SimpleStore.PutManagedEntry | key-value/key-value-aio/src/key_value/aio/stores/simple/store.py:77-85 | the whole ordered dict after the put, or the error on an empty store without room |
| SimpleStores.SimpleStore.DeleteManagedEntry | key-value/key-value-aio/src/key_value/aio/stores/simple/store.py:88-91 | the whole ordered dict after the removal, and whether there was anything |
| SimpleStores.SimpleStore.GetCollectionKeys | key-value/key-value-aio/src/key_value/aio/stores/simple/store.py:94-95 | the keys of the collection as the flat step lists them |
| SimpleStores.SimpleStore.GetCollectionNames | key-value/key-value-aio/src/key_value/aio/stores/simple/store.py:98-99 | the names of the collections as the flat step lists them |
| SimpleStores.SimpleStore.DeleteStore | key-value/key-value-aio/src/key_value/aio/stores/simple/store.py:102-104 | everything is gone |
| KeyPlacement.CallSimulates | key-value/key-value-aio/src/key_value/aio/wrappers/single_collection/wrapper.py:38-83 | one call through an injective placement of keys: the same reply, and the wrapped table still stands for the callers' own |
| KeyPlacement.SimulatesIffInjective | key-value/key-value-aio/src/key_value/aio/wrappers/single_collection/wrapper.py:38-83 | on all runs callers cannot tell the wrapped store from one of their own, if and only if no two keys in use are placed under the same name |
| KeyWrappers.SingleCollectionSimulatesIff | key-value/key-value-aio/src/key_value/aio/wrappers/single_collection/wrapper.py:31-83 | the wrapper simulates independent collections on all runs over the given names, if and only if the names are pairwise prefix-free once the separator is added |
| KeyWrappers.PrefixKeysShareIff | key-value/key-value-aio/src/key_value/aio/wrappers/prefix_keys/wrapper.py:25-76 | wrappers with the given prefixes can share a store on all runs, if and only if no prefix with "__" added starts another |
| KeyWrappers.SingleCollectionWrapper.constructor | key-value/key-value-aio/src/key_value/aio/wrappers/single_collection/wrapper.py:15-29 | the defaults for the collection and the separator |
| KeyWrappers.SingleCollectionWrapper.Get | key-value/key-value-aio/src/key_value/aio/wrappers/single_collection/wrapper.py:39-41 | is the placed call on the wrapped store |
| KeyWrappers.SingleCollectionWrapper.GetMany | key-value/key-value-aio/src/key_value/aio/wrappers/single_collection/wrapper.py:44-46 | is the placed call on the wrapped store |
| KeyWrappers.SingleCollectionWrapper.Ttl | key-value/key-value-aio/src/key_value/aio/wrappers/single_collection/wrapper.py:49-51 | is the placed call on the wrapped store |
| KeyWrappers.SingleCollectionWrapper.TtlMany | key-value/key-value-aio/src/key_value/aio/wrappers/single_collection/wrapper.py:54-56 | is the placed call on the wrapped store |
| KeyWrappers.SingleCollectionWrapper.Put | key-value/key-value-aio/src/key_value/aio/wrappers/single_collection/wrapper.py:59-61 | is the placed call on the wrapped store, errors included |
| KeyWrappers.SingleCollectionWrapper.PutMany | key-value/key-value-aio/src/key_value/aio/wrappers/single_collection/wrapper.py:64-73 | is the placed call on the wrapped store, errors included |
| KeyWrappers.SingleCollectionWrapper.Delete | key-value/key-value-aio/src/key_value/aio/wrappers/single_collection/wrapper.py:76-78 | is the placed call on the wrapped store |
| KeyWrappers.SingleCollectionWrapper.DeleteMany | key-value/key-value-aio/src/key_value/aio/wrappers/single_collection/wrapper.py:81-83 | is the placed call on the wrapped store, count included |
| KeyWrappers.PrefixKeysWrapper.Get | key-value/key-value-aio/src/key_value/aio/wrappers/prefix_keys/wrapper.py:32-34 | is the placed call on the wrapped store |
| KeyWrappers.PrefixKeysWrapper.GetMany | key-value/key-value-aio/src/key_value/aio/wrappers/prefix_keys/wrapper.py:37-39 | is the placed call on the wrapped store |
| KeyWrappers.PrefixKeysWrapper.Ttl | key-value/key-value-aio/src/key_value/aio/wrappers/prefix_keys/wrapper.py:42-44 | is the placed call on the wrapped store |
| KeyWrappers.PrefixKeysWrapper.TtlMany | key-value/key-value-aio/src/key_value/aio/wrappers/prefix_keys/wrapper.py:47-49 | is the placed call on the wrapped store |
| KeyWrappers.PrefixKeysWrapper.Put | key-value/key-value-aio/src/key_value/aio/wrappers/prefix_keys/wrapper.py:52-54 | is the placed call on the wrapped store, errors included |
| KeyWrappers.PrefixKeysWrapper.PutMany | key-value/key-value-aio/src/key_value/aio/wrappers/prefix_keys/wrapper.py:57-66 | is the placed call on the wrapped store, errors included |
| KeyWrappers.PrefixKeysWrapper.Delete | key-value/key-value-aio/src/key_value/aio/wrappers/prefix_keys/wrapper.py:69-71 | is the placed call on the wrapped store |
| KeyWrappers.PrefixKeysWrapper.DeleteMany | key-value/key-value-aio/src/key_value/aio/wrappers/prefix_keys/wrapper.py:74-76 | is the placed call on the wrapped store, count included |
| Sanitizer.SanitizeCharactersInString | key-value/key-value-shared/src/key_value/shared/utils/sanitize.py:32-59 | the loop keeps allowed characters in order and turns each maximal run of others into one replacement; a lone character that ends in a replaced run is dropped |
| Sanitizer.EmptyExactlyWhen | key-value/key-value-shared/src/key_value/shared/utils/sanitize.py:32-59 | exactly when the result is empty, for replacements of every length |
| Sanitizer.CollapseKeepsAllowed | key-value/key-value-shared/src/key_value/shared/utils/sanitize.py:42-54 | the allowed characters survive, all of them and in order |
| Sanitizer.CollapseByRuns | key-value/key-value-shared/src/key_value/shared/utils/sanitize.py:42-54 | allowed characters are passed on, the run of others behind them gives one replacement, and what follows is treated alike |
| Sanitizer.LengthsRefusedIff | key-value/key-value-shared/src/key_value/shared/utils/sanitize.py:85-91 | lengths are refused exactly when the maximum is below 16 or the fragment longer than half of it |
| Sanitizer.NameLetterByLetter | key-value/key-value-shared/src/key_value/shared/utils/sanitize.py:93-127 | every name in modes ALWAYS and ONLY_IF_CHANGED, letter by letter: the unchanged value, or the bare start of the hash, or the start of the cleaned value, the separator and the start of the hash, with how many characters of each |
| Sanitizer.NameOrFragment | key-value/key-value-shared/src/key_value/shared/utils/sanitize.py:93-127 | a name is the value itself or ends in the fragment of the value's hash |
| Sanitizer.NameShowsTheValue | key-value/key-value-shared/src/key_value/shared/utils/sanitize.py:93-127 | a name shows as much of the cleaned value as separator and fragment leave room for |
| Sanitizer.CollisionsShareFragments | key-value/key-value-shared/src/key_value/shared/utils/sanitize.py:93-127 | two values with the same name have the same hash fragment, or in ONLY_IF_CHANGED one of them is itself the other's name |
| Sanitizer.BoundedExactlyWhen | key-value/key-value-shared/src/key_value/shared/utils/sanitize.py:85-127 | no name exceeds max_length, if and only if the lengths of separator and fragment meet a stated condition |
| Sanitizer.NeverRaisesIffNothingLeft | key-value/key-value-shared/src/key_value/shared/utils/sanitize.py:96-133 | mode NEVER raises exactly when nothing is left of the value, and otherwise keeps its allowed characters, all and in order |
| Sanitizer.NeverDoesNotTruncate | key-value/key-value-shared/src/key_value/shared/utils/sanitize.py:129-133 | names of every length come out of mode NEVER, whatever max_length says |
| Sanitizer.NameOverAlphabet | key-value/key-value-shared/src/key_value/shared/utils/sanitize.py:96-133 | a name is made of allowed characters, the replacement, the separator and characters of the hash |
| Sanitizer.SanitizingIsIdempotent | key-value/key-value-shared/src/key_value/shared/utils/sanitize.py:114-127 | in ONLY_IF_CHANGED, sanitizing a name again changes nothing when the allowed set contains what sanitizing may add and names are bounded |
| AsyncToSync.ExprBecomesSync | scripts/build_sync_library.py:155-158 | a visited expression has no Await left if and only if no await stands directly under an await |
| VisitedNodes.VisitLeavesNodes | scripts/build_sync_library.py:155-158 | a visit takes the outermost await of every chain of awaits out of the sequence of nodes, and leaves every other node where it was |
| VisitedNodes.VisitKeepsNodes | scripts/build_sync_library.py:155-158 | so the nodes other than awaits are the same before and after, in the same order |
| AsyncToSync.StmtBecomesSync | scripts/build_sync_library.py:136-191 | both outcomes of a visit, the returned statements and the node changed in place, are free of async nodes exactly under the stated conditions |
| AsyncToSync.BlockBecomesSync | scripts/build_sync_library.py:136-191 | a translated block has no Await, AsyncFor, AsyncWith or AsyncFunctionDef left, if and only if it has no await directly under an await and no kept guard branch with an async statement or unfit guard directly in it |
| VisitedNodes.VisitLeavesStmt | scripts/build_sync_library.py:136-191 | both outcomes of a visit node by node, for every statement: which awaits, which branch of a guard and which kinds of statement change, and that all else stays where it was |
| VisitedNodes.VisitLeavesBlock | scripts/build_sync_library.py:136-191 | the same of a block |
| VisitedNodes.VisitKeepsBlocks | scripts/build_sync_library.py:136-158 | a visited block without guards has the nodes of the original in their order, but for awaits and the kind of statements |
| AsyncToSync.SyncBlockIsFixed | scripts/build_sync_library.py:136-191 | code without async nodes and guards is left alone |
| AsyncToSync.GuardBecomesKeptBranch | scripts/build_sync_library.py:160-188 | a guard whose kept branch is such code is replaced by exactly that branch |
| VisitedNodes.GuardNodes | scripts/build_sync_library.py:160-188 | which statements are guards, and which branch each keeps, by their first three nodes |
| AsyncToSync.AsyncComprehensionsSurvive | scripts/build_sync_library.py:155-158 | no async comprehension is converted |
| AsyncSimulation.StmtSame | scripts/build_sync_library.py:143-153 | every core statement and its sync form take the same path, with the same world and the same variables under their new names |
| AsyncTranslation.TranslationPreservesRuns | scripts/build_sync_library.py:115-119 | for core programs, every function, arguments, world and length of run: the program renamed and made sync returns or raises the same and leaves the same world; without exception when for and with statements are of the kind of the hooks they meet, and otherwise unless the original meets something that is not what it is used as |
| AsyncTranslation.TranslationIsSync | scripts/build_sync_library.py:136-158 | nothing in the translation is async, and its definitions bear the names they are called by |
| HookNames.AsyncHookSurvivesIff | scripts/build_sync_library.py:203-252 | an object with an async hook, and no sync one beside it, has the sync hook after translation, if and only if the program does not define the hook itself or it is __aenter__ or __aexit__ |
| HookNames.OwnIterationStops | scripts/build_sync_library.py:203-252 | every loop over an object whose class defines its own async iteration stops on a TypeError once translated |
| HookNames.CallReachesIff | scripts/build_sync_library.py:238-269 | a call of a function of the program reaches its definition after translation, if and only if the definition is async or its name is not mapped |
| HookNames.ParameterReachedIff | scripts/build_sync_library.py:238-269 | a use of a parameter is a use of the translated parameter, if and only if the definition is async or the name is not mapped |
| TranslationLimits.OwnIteratorIsLost | scripts/build_sync_library.py:203-252 | a program that iterates over an async iterator of its own returns 1, and stops on a TypeError once translated |
| TranslationLimits.MixedKindsRunOn | scripts/build_sync_library.py:143-147 | an async statement over a sync object stops on a TypeError and runs once translated |
| TranslationLimits.GuardDropsWhatAsyncRuns | scripts/build_sync_library.py:160-188 | of both kinds of guard the dropped branch is the one the async program runs |
| TranslationLimits.GuardKeepsWhatSyncRuns | scripts/build_sync_library.py:160-173 | of an is_async() guard the kept branch is the one a sync program runs |
| TranslationLimits.LateAwaitIsReordered | scripts/build_sync_library.py:155-158 | a coroutine awaited later than it is made runs in another order once translated |
| TranslationWitness.TranslateTranslates | scripts/build_sync_library.py:115-119 | every program whose functions and attributes get distinct names has a translation, linked with counterparts of its libraries |
| TranslationWitness.BothKindsTogether | scripts/build_sync_library.py:143-158 | for any async and any sync class, a program with a loop over each and a method call on each, by one method name, meets all conditions |
| TranslationWitness.BothKindsRunAlike | scripts/build_sync_library.py:143-158 | and runs as its translation, on any two such objects, in any world, for any length of run |
| RenameAsyncToSync.LookupIsIdempotent | scripts/build_sync_library.py:203-228 | no mapped name maps on |
| RenameAsyncToSync.RenamedModuleUnmappedIff | scripts/build_sync_library.py:195-202 | a renamed module path is no mapped name and has no mapped prefix, if and only if it did not start with pymongo.asynchronous.asynchronous |
| RenameAsyncToSync.ModuleRenamingIdempotentIff | scripts/build_sync_library.py:342-347 | renaming a module path twice is renaming it once, if and only if it does not start with pymongo.asynchronous.asynchronous |
| RenameAsyncToSync.RenamedImports | scripts/build_sync_library.py:334-359 | an import is dropped exactly when it takes only alist and anext from acompat; nothing mapped is left in a kept one, with the same exception |
| ImportLaws.ImportedNames | scripts/build_sync_library.py:334-359 | a kept import has exactly the names that hide no builtin, in their order; each name and alias that names_map has becomes its value, any other stays |
| ImportLaws.ImportedModule | scripts/build_sync_library.py:342-347 | and its module path renamed |
| ImportLaws.ReplacedPieces | scripts/build_sync_library.py:344-347 | str.replace puts the new text between the pieces that lay between the occurrences of the old one, found from the left |
| ImportLaws.ModulePieces | scripts/build_sync_library.py:342-347 | a module path that starts with an entry of module_map gets its value wherever the entry occurs in the path |
| ImportLaws.OtherModules | scripts/build_sync_library.py:342-347 | any other path is mapped as a whole by names_map, or stays |
| RenameAsyncToSync.ImportRenamingIdempotentIff | scripts/build_sync_library.py:334-359 | the same for whole from-imports that are kept |
| RenameAsyncToSync.Rename | scripts/build_sync_library.py:361-390 | a renamed expression holds no AsyncGenerator[X, Y] any more |
| RenameAsyncToSync.RenamingIsIdempotent | scripts/build_sync_library.py:361-390 | renaming an expression twice is renaming it once |
| RenameAsyncToSync.GeneratorGetsOneArgument | scripts/build_sync_library.py:372-390 | although its children are visited twice, AsyncGenerator[X, Y], nested or not, gets exactly one argument more |
| RenameStatements.RenamingKeepsGuards | scripts/build_sync_library.py:160-188 | renaming makes no guard and unmakes none, and each keeps the same branch |
| RenamedNodes.RenamePutsNodes | scripts/build_sync_library.py:361-390 | the nodes of a renamed expression are those of the original with their names mapped, and Y a second time in AsyncGenerator[X, Y] |
| RenamedNodes.RenamePutsBlock | scripts/build_sync_library.py:234-269 | the same of a block: variables are mapped, names and parameters of async definitions only, and docstrings of definitions are edited |
| SyncPipeline.SettledIsFixed | scripts/build_sync_library.py:361-390 | an expression without mapped names is renamed to itself |
| SyncPipeline.TranslatedExpressions | scripts/build_sync_library.py:115-119 | no mapped name and no AsyncGenerator[X, Y] is left in any translated expression; no await is left if and only if none stood directly under another |
| SyncPipeline.TranslatingIsIdempotentIff | scripts/build_sync_library.py:115-119 | translating a translated expression again changes nothing, if and only if no await of the original stands directly under an await |
| SyncPipeline.TranslatedBlocks | scripts/build_sync_library.py:115-119 | a block renamed and made sync has no async node left, if and only if the original meets the condition of AsyncToSync.BlockBecomesSync |

## Left out

- Redis, Valkey, Memcached, MongoDB, Elasticsearch and disk stores: clients of libraries that are not shown; the ideal store stands for them.
- The eviction and timers of the cache library below MemoryStore: a collection is a plain table there; the cached runs let the cache store lose any entries between calls.
- JSON encoding, datetime parsing, SHA-256 and Pydantic: values are kept as they are, the hash is an unknown function with digests of 64 characters.
- TTL arguments that are strings, booleans or other objects, and NaN: TTLs are None or real numbers.
- First-use setup inside the Store class: it is the subject of SetupProtocol, where the operations are steps of tasks.
- A clock that moves during a call: in the Store's methods it is read anew for every entry; it stands still during each call of the sequential runs, and moves freely between the steps of the interleaved ones.
- PassthroughCaches.PassthroughCacheWrapper.Get: requires that primary and cache are two stores; one object in both roles is not modelled.
- PassthroughCaches.PassthroughCacheWrapper.GetMany: the same.
- PassthroughCaches.PassthroughCacheWrapper.Ttl: the same.
- PassthroughCaches.PassthroughCacheWrapper.TtlMany: the same.
- PassthroughCaches.PassthroughCacheWrapper.FillUncached: the same.
- PassthroughCaches.PassthroughCacheWrapper.Put: the same.
- PassthroughCaches.PassthroughCacheWrapper.PutMany: the same.
- PassthroughCaches.PassthroughCacheWrapper.Delete: the same.
- PassthroughCaches.PassthroughCacheWrapper.DeleteMany: the same.
- PassthroughInterleaving.ServedValuesAreRecent and PassthroughSerial.SerialReadsAreCurrent: about values, not about the TTL numbers reported beside them.
- Aliasing of dicts between callers and stores: values are immutable.
- `limit` arguments of the enumerations, and the order in which collection names are listed: the names are a set.
- `SingleCollectionWrapper._unprefix_key`: nothing calls it.
- `hash_excess_length`: it only adds easy members.
- StatisticsWrapper, RaiseOnMissingAdapter, PydanticAdapter, PrefixCollectionsWrapper, BaseWrapper: pass-throughs, sums or repeats.
- Task cancellation and the fairness of asyncio locks.
- The generated sync package: a copy of the async code.
- The translator's update of syntax trees in place: trees are values, with one function for what a visit returns and one for what the visited node becomes.
- AsyncTranslation.TranslationPreservesRuns: the core language has one item per `with`, one loop variable per `for`, positional parameters, no try statement, no nested definition, no decorators on definitions and no `is_async` guard (guards have their own lemmas); an await stands directly on a call. A run that meets something that is not what it is used as (a TypeError or AttributeError) is followed no further, though an enclosing `with` may swallow it. The classes that a variable may hold are given, not inferred. Classes keep their names.
- SyncPipeline.TranslatingIsIdempotentIff: on expressions; translating statements again would also edit docstrings again.
- Class bases, annotations, pytest fixtures and type strings in the rename pass; file handling, unparsing, blank lines and path swapping around it.
