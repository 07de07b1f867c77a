# Multi-level bucket cache, modelled in Dafny

This project models the multi-level bucket cache of the Cortex store gateway
(`pkg/storage/tsdb/multilevel_bucket_cache.go`). The cache puts N ordered
cache tiers behind one `Fetch` / `Store` / `Name` interface:

- `Fetch` asks the tiers in order, fastest first. Tiers 0 and 1 get the
  caller's full key list. Each later tier gets the list left after the last
  tier past tier 0 that returned data, which drops the keys hit so far. If
  no such tier returned data, it gets the full list.
- It merges every answer into one hit map.
- It stops early once the hit count reaches the number of keys requested.
- A hit found at tier `i > 0` is planned as a backfill into tier `i - 1`.
- After the loop, every non-empty plan slot is handed to an asynchronous
  processor.
- `Store` hands one write per tier to the same processor.
- A buffer-full rejection is counted in one of two drop counters.

The model keeps the code's own structure:

- `Config`: `MultiLevelBucketCacheConfig` and `Validate`, a pure function
  over a datatype.
- `Naming`: the name-to-metric-fragment table of the constructor, and the
  four metric names the constructor registers.
- `Tiers`: a tier is a `Tier` object with fixed contents. Its `Fetch`
  returns exactly the stored entries among the keys asked for. This is the
  contract assumed of every tier; a failing tier is one that returns
  nothing.
- `Async`: the `AsyncOperationProcessor` modelled as an admission oracle.
  - The attempt with sequence number `t` is admitted exactly when
    `admit(t)`.
  - An admitted write `(tier, items, ttl)` is appended to a log
    `scheduled`.
  - Writes are never executed.
- `Cascade`: the value semantics of `Fetch`'s tier loop.
  - `Step` is one iteration and `Run` the whole loop; `CascadeOf` is the run
    from the initial state.
  - These are set against reference definitions: `Hits` (answers merged in
    tier order), `NextQuery` (the key list the next tier gets) and
    `SlotSpec` (the backfill slot contents).
  - Lemmas state what a Fetch result means.
- `MultiLevel`: the coordinator, as a class.
  - Its fields are the tiers, the processor, the configuration values and
    two `nat` drop counters.
  - `Store`, `Fetch` and the backfill pass are methods with loops.
  - `Fetch` takes the caller's key slice as an `array<Key>`. The missing-key
    list is always a prefix of that array, and it is compacted in place the
    way `missingKeys[:0]` plus `append` does it. The caller's array is
    overwritten as a result, and `Fetch`'s contract says how.
  - Each method is proved against the `Cascade` functions.

A request context is the datatype `Context = Live | Cancelled(at)`.
`ctx.Err()` is non-nil at the check made before tier `i` exactly when the
context is `Cancelled(at)` with `at <= i`. A context never becomes
un-cancelled.

Three behaviours of the code are easy to misread; the model follows the
code:

- **Early stop.** The test `len(hits) == len(keys)` (line 150) runs only
  after a tier that returned data (line 129), and stops the loop when it
  holds. The test is a count, not
  whether every requested key is covered. A tier that returns nothing never
  triggers the test, so an empty key list consults every tier although
  `0 == 0`.
  - For a duplicate-free key list the two tests are the same
    (`Cascade.CountTest`, `Cascade.CascadeDistinct`).
  - With a duplicate key the count is never reached, so an uncancelled
    Fetch consults every tier (`Cascade.CascadeDuplicates`).
- **Drop-counter names.** The two counters are registered with swapped
  names:
  - the counter `Store` increments is named
    `..._backfill_dropped_items_total`;
  - the counter the backfill pass increments is named
    `..._store_dropped_items_total`.

  `Naming.InstrumentsFor` keeps that naming. The counters themselves stay
  distinct fields (`storeDroppedItems`, `backfillDroppedItems`), each
  incremented where the code increments it.
- **Slot contents.** Slot `i - 1` receives the whole hit map as it stands
  after tier `i` answers, including hits from tier 0 and from earlier
  tiers. It does not receive only what tier `i` found (`Cascade.CascadeSlots`).

## Model

| member | source | states |
|---|---|---|
| Config.Validate | pkg/storage/tsdb/multilevel_bucket_cache.go:37-48 | nil exactly when buffer size, concurrency and max backfill items are all positive; otherwise the error of the first failing check, in that order (each error case as an if-and-only-if) |
| Config.SingleViolationErrors | pkg/storage/tsdb/multilevel_bucket_cache.go:37-48 | breaking any single bound of a valid config yields that bound's error, and the three errors are distinct |
| Naming.NameTable | pkg/storage/tsdb/multilevel_bucket_cache.go:61-75 | the three known names map to `chunks_cache`, `metadata_cache`, `parquet_labels_cache` with their help texts; any other name passes through verbatim with an empty help text; a name is known exactly when its fragment differs from it |
| Naming.ItemNameCollides | pkg/storage/tsdb/multilevel_bucket_cache.go:63-74 | the table is not injective: `chunks_cache` and `chunks-cache` get the same fragment |
| Naming.ItemName | pkg/storage/tsdb/multilevel_bucket_cache.go:61-75 | the metric fragment differs from the logical name exactly when the name is one of the three known ones |
| Naming.HelpText | pkg/storage/tsdb/multilevel_bucket_cache.go:61-75 | the help fragment is empty exactly when the name is not one of the three known ones |
| Naming.MetricName | pkg/storage/tsdb/multilevel_bucket_cache.go:82-96 | a metric name starts with the prefix and the fragment, and ends with its suffix right after them |
| Naming.InstrumentsFor | pkg/storage/tsdb/multilevel_bucket_cache.go:81-98 | each of the four registered names is `cortex_store_multilevel_`, then the fragment of the logical name, then its suffix: fetch, backfill, backfill-drop and store-drop. Each help text is its fixed lead followed by the name's help fragment. The drop counters' suffixes and help texts are swapped as the code writes them: the counter Store increments ends in `_backfill_dropped_items_total` and has the backfilling help text |
| Naming.MetricNamesDiffer | pkg/storage/tsdb/multilevel_bucket_cache.go:82-96 | two metric names built from the same fragment with different suffixes differ |
| Naming.InstrumentNamesDistinct | pkg/storage/tsdb/multilevel_bucket_cache.go:81-98 | for every logical name, the four registered metric names are pairwise distinct (the swapped drop-counter names included) |
| Tiers.Tier.Fetch | pkg/storage/tsdb/multilevel_bucket_cache.go:129 | the assumed tier contract: the answer holds exactly the stored entries whose keys were asked for, with the stored values |
| Async.AsyncOperationProcessor.EnqueueAsync | pkg/storage/tsdb/multilevel_bucket_cache.go:106-108 | one attempt: the attempt count grows by one; the result is nil or `ErrAsyncBufferFull` as the oracle decides; the write is logged exactly when admitted |
| Async.AcceptedSnoc | pkg/storage/tsdb/multilevel_bucket_cache.go:106-110 | one more attempt appends its write exactly when admitted, and adds one drop exactly when rejected |
| Async.AcceptedPlusRejected | pkg/storage/tsdb/multilevel_bucket_cache.go:106-110 | every attempt is either scheduled or counted as a drop, never both: the two counts add up to the attempts |
| Async.AcceptedMembers | pkg/storage/tsdb/multilevel_bucket_cache.go:106-110 | a write is scheduled exactly when it is one of the attempts and its attempt was admitted |
| Async.AcceptedInOrder | pkg/storage/tsdb/multilevel_bucket_cache.go:105-111 | admission keeps the tier order of the attempts |
| Async.AllAdmitted | pkg/storage/tsdb/multilevel_bucket_cache.go:106-110 | with room for every attempt, every write is scheduled and nothing is dropped |
| Async.NoneAdmitted | pkg/storage/tsdb/multilevel_bucket_cache.go:106-110 | with the buffer full for every attempt, nothing is scheduled and every attempt is a drop |
| MultiLevel.StoreWrites | pkg/storage/tsdb/multilevel_bucket_cache.go:105-107 | Store's attempt plan: one write per tier, in tier order, each with the given data and TTL |
| MultiLevel.StoreWritesSnoc | pkg/storage/tsdb/multilevel_bucket_cache.go:105-107 | one more tier adds its write at the end of the plan |
| MultiLevel.StoreWritesShape | pkg/storage/tsdb/multilevel_bucket_cache.go:105-107 | Store's attempts: one per tier, in tier order, each carrying the same data and TTL |
| MultiLevel.MultiLevelBucketCache.Store | pkg/storage/tsdb/multilevel_bucket_cache.go:104-112 | exactly one enqueue attempt per tier in tier order; the log grows by the admitted ones; `storeDroppedItems` grows by the rejected ones; nothing else changes |
| MultiLevel.MultiLevelBucketCache.Name | pkg/storage/tsdb/multilevel_bucket_cache.go:177-179 | the name the coordinator was built with |
| MultiLevel.MultiLevelBucketCache.Metrics | pkg/storage/tsdb/multilevel_bucket_cache.go:81-98 | the coordinator's four instruments are those of its name, and their names are pairwise distinct |
| MultiLevel.MultiLevelBucketCache.StoreAttempt | pkg/storage/tsdb/multilevel_bucket_cache.go:106-110 | Store's attempt for tier `i`: the log and `storeDroppedItems` move from the admission outcome of the plan for tiers before `i` to that of the plan including `i` |
| MultiLevel.MultiLevelBucketCache.constructor | pkg/storage/tsdb/multilevel_bucket_cache.go:77-101 | a coordinator over the given tiers with its name, a fresh processor built from buffer size and concurrency, the stored max backfill items and backfill TTL, and zero drop counters |
| MultiLevel.NewMultiLevelBucketCache | pkg/storage/tsdb/multilevel_bucket_cache.go:56-102 | one tier is returned as it is; two or more give a fresh coordinator whose `Name()` is the name passed in, with the configuration's processor settings, an empty log and zero counters |
| MultiLevel.Merge | pkg/storage/tsdb/multilevel_bucket_cache.go:130-132 | the range-and-assign loop: the result holds the keys of both maps, the values of `from` on its keys and the old values elsewhere |
| MultiLevel.CompactMissing | pkg/storage/tsdb/multilevel_bucket_cache.go:136-143 | in-place compaction: the array's prefix becomes the old missing keys minus the hits, in order, and the rest of the array is untouched |
| Cascade.Filter | pkg/storage/tsdb/multilevel_bucket_cache.go:136-141 | the missing-key filter: never longer than its input (membership and order in the three lemmas below) |
| Cascade.FilterMembers | pkg/storage/tsdb/multilevel_bucket_cache.go:137-141 | a key survives the missing-key filter exactly when it was missing and is not a hit |
| Cascade.FilterSnoc | pkg/storage/tsdb/multilevel_bucket_cache.go:137-141 | filtering one more key appends it exactly when it is not a hit |
| Cascade.FilterConcat | pkg/storage/tsdb/multilevel_bucket_cache.go:137-141 | the filter distributes over concatenation, so relative order is kept |
| Cascade.Step | pkg/storage/tsdb/multilevel_bucket_cache.go:129-148 | one consulted tier, as a function on the loop state: the state keeps its shape and key-array length, one more query is recorded, and `data` is the tier's answer for the missing keys |
| Cascade.StepNothing | pkg/storage/tsdb/multilevel_bucket_cache.go:129 | unfolding of `Step`'s branch for an empty answer: a tier that returns nothing changes no hit, key or slot |
| Cascade.StepFirst | pkg/storage/tsdb/multilevel_bucket_cache.go:129-134 | unfolding of `Step`'s branch for tier 0: the first tier's answer is merged, and the missing keys and slots stay as they are |
| Cascade.StepLater | pkg/storage/tsdb/multilevel_bucket_cache.go:129-148 | unfolding of `Step`'s branch for a later tier with hits: a later tier's answer is merged, the missing keys become the filtered prefix of the key array, and slot `i - 1` receives the whole hit map |
| Cascade.Run | pkg/storage/tsdb/multilevel_bucket_cache.go:122-155 | the tier loop from a given state, as a function: cancellation check, `Step`, count test after a tier that returned data; the state keeps its shape and key-array length, and queries are only added |
| Cascade.CascadeOf | pkg/storage/tsdb/multilevel_bucket_cache.go:118-155 | the tier loop of one Fetch from its initial state: at most N queries, N-1 slots, and a key array as long as the caller's |
| MultiLevel.MultiLevelBucketCache.Narrow | pkg/storage/tsdb/multilevel_bucket_cache.go:134-148 | the compaction and slot copy of one iteration: new key array and new slot array, in terms of the filter and the merge |
| MultiLevel.MultiLevelBucketCache.Consult | pkg/storage/tsdb/multilevel_bucket_cache.go:129-148 | one tier consulted through its Fetch; the new hits, key array, missing count and slots are the cascade's `Step` from the old ones |
| MultiLevel.MultiLevelBucketCache.Round | pkg/storage/tsdb/multilevel_bucket_cache.go:122-154 | one loop iteration (slot reset, cancellation check, consult, count test) is one unfolding of the cascade's `Run` |
| MultiLevel.MultiLevelBucketCache.Lookup | pkg/storage/tsdb/multilevel_bucket_cache.go:118-155 | the tier loop's cancellation flag, hit map, final key array and backfill slots are those of `CascadeOf` on the tiers' contents and the caller's keys |
| MultiLevel.MultiLevelBucketCache.Fetch | pkg/storage/tsdb/multilevel_bucket_cache.go:114-175 | a cancelled fetch returns nil and leaves the log and counters unchanged; otherwise it returns the cascade's hit map and makes exactly the backfill attempts of `BackfillWrites` on its slots, logging the admitted ones and counting the rejected ones in `backfillDroppedItems`; the key array ends as the cascade leaves it |
| Cascade.RunCancels | pkg/storage/tsdb/multilevel_bucket_cache.go:126-128 | no check the loop passed saw the context cancelled; a cancelled run stopped at a check that saw it, before the tiers ran out, after a tier that failed the count test |
| Cascade.RunContinues | pkg/storage/tsdb/multilevel_bucket_cache.go:150-153 | the loop goes past a tier only when that tier's answer failed the count test |
| Cascade.RunStopsEarly | pkg/storage/tsdb/multilevel_bucket_cache.go:150-153 | a run that ends uncancelled before the last tier stopped on a tier that returned something and brought the hit count to the key count |
| Cascade.HitsProvenance | pkg/storage/tsdb/multilevel_bucket_cache.go:129-132 | a key is in the merged hit map exactly when some consulted tier returned it, with the value of the last such tier |
| Cascade.HitsGrow | pkg/storage/tsdb/multilevel_bucket_cache.go:129-132 | consulting more tiers never loses a key from the hit map |
| Cascade.KeySetSize | pkg/storage/tsdb/multilevel_bucket_cache.go:150 | a key list has as many distinct keys as entries exactly when it has no duplicates |
| Cascade.CountTest | pkg/storage/tsdb/multilevel_bucket_cache.go:150 | for hits within a duplicate-free key list, `len(hits) == len(keys)` holds exactly when every key is a hit; with a duplicate, `len(hits) < len(keys)` always |
| Cascade.CascadeReached | pkg/storage/tsdb/multilevel_bucket_cache.go:118-155 | the final loop state agrees with the reference definitions: the hits are `Hits` of the queries, each query is `NextQuery` of those before it, and the slots are `SlotSpec` |
| Cascade.CascadeHits | pkg/storage/tsdb/multilevel_bucket_cache.go:119-132 | every returned key was requested; a key is returned exactly when some consulted tier returned it; its value comes from the last tier that returned it |
| Cascade.CascadeQueries | pkg/storage/tsdb/multilevel_bucket_cache.go:118-143 | tiers 0 and 1 are asked for the full key list; after a later tier answers, the next one is asked for the previous list minus the hits, in order; every query is within the keys |
| Cascade.CascadeSlots | pkg/storage/tsdb/multilevel_bucket_cache.go:120-148 | there are N-1 slots; slot `j` is non-empty exactly when tier `j + 1` was consulted and returned something, and then it holds the whole hit map after that tier; slots hold only requested keys |
| Cascade.CascadeGoesOn | pkg/storage/tsdb/multilevel_bucket_cache.go:150-153 | every tier the fetch went past failed the count test |
| Cascade.CascadeEndsEarly | pkg/storage/tsdb/multilevel_bucket_cache.go:150-153 | an uncancelled fetch that did not consult every tier stopped on a tier that passed the count test, with `len(hits) == len(keys)` |
| Cascade.CascadeCancelled | pkg/storage/tsdb/multilevel_bucket_cache.go:126-128 | no tier from the cancellation point on is consulted; a fetch that ends cancelled saw the cancellation exactly at the next tier, after a tier that failed the count test |
| Cascade.CompletesMeaning | pkg/storage/tsdb/multilevel_bucket_cache.go:150-153 | for a duplicate-free key list, passing the count test after a tier is the same as that tier answering and every key being a hit |
| Cascade.CascadeDistinct | pkg/storage/tsdb/multilevel_bucket_cache.go:150-153 | for a duplicate-free key list, the fetch goes past a tier only if that tier returned nothing or a key was still missing, and an uncancelled early stop returns every key |
| Cascade.CascadeDuplicates | pkg/storage/tsdb/multilevel_bucket_cache.go:150-153 | with a duplicate key, fewer hits than keys are returned, and an uncancelled fetch consults every tier |
| Cascade.FirstStep | pkg/storage/tsdb/multilevel_bucket_cache.go:129-134 | the first tier is asked for the whole list; its answer becomes the hit map; keys and slots are untouched |
| Cascade.ServedByFirstTier | pkg/storage/tsdb/multilevel_bucket_cache.go:122-153 | a non-empty, duplicate-free request whose context is live at the check before tier 0, and whose keys the first tier holds in full, is answered by that tier alone: no other tier is consulted, the key array is untouched and every slot is empty |
| MultiLevel.BackfillWrites | pkg/storage/tsdb/multilevel_bucket_cache.go:161-171 | the backfill pass's attempt plan, in tier order |
| MultiLevel.BackfillMembers | pkg/storage/tsdb/multilevel_bucket_cache.go:161-171 | the backfill pass attempts exactly one write per non-empty slot, to that slot's tier with the slot's items and the backfill TTL, in tier order, and never to the last tier |
| MultiLevel.NoBackfill | pkg/storage/tsdb/multilevel_bucket_cache.go:161-164 | when every slot is empty, the backfill pass makes no attempt |
| MultiLevel.FirstTierHitsNoBackfill | pkg/storage/tsdb/multilevel_bucket_cache.go:134-164 | hits found at tier 0 never cause a backfill: when no later consulted tier returned anything, the backfill pass makes no attempt |
| MultiLevel.MultiLevelBucketCache.ScheduleBackfill | pkg/storage/tsdb/multilevel_bucket_cache.go:157-172 | the deferred pass makes exactly the attempts of `BackfillWrites`; the log grows by the admitted ones and `backfillDroppedItems` by the rejected ones |
| MultiLevel.MultiLevelBucketCache.BackfillSlot | pkg/storage/tsdb/multilevel_bucket_cache.go:161-171 | one slot of the pass: an empty slot is skipped, and a non-empty one makes one attempt |
| MultiLevel.MultiLevelBucketCache.EnqueueBackfill | pkg/storage/tsdb/multilevel_bucket_cache.go:166-170 | one more backfill attempt: the log and `backfillDroppedItems` move from the admission outcome of the earlier attempts to that of the attempts plus this one |

## Left out

- Prometheus instrumentation is not modelled: the two latency histograms,
  their bucket boundaries, timers and `promauto` registration (lines 81-98,
  115-116, 158-159). Only the names and help texts of the four metrics are
  kept (`Naming.InstrumentsFor`, `MultiLevelBucketCache.Metrics`). The two
  drop counters are kept as `nat` fields.
- Flag registration (`RegisterFlagsWithPrefix`, lines 50-54) is
  configuration binding only, and is not modelled.
- Processor internals are not modelled: its workers, queue and the
  execution of scheduled writes (concurrency inside a foreign library). The
  oracle `admit` stands for whether the buffer has room at each attempt.
  Scheduled writes are logged and never applied.
- Tier implementations (`cache.Cache`) and TTL semantics are foreign. A
  tier's contents are fixed for the life of the model, because no write is
  ever executed. TTL is an opaque value passed through.
- The `ctx` argument handed to each tier's `Fetch` is not modelled.
  Cancellation acts only through the check before each tier.
- Zero-tier construction is not modelled. In the code it succeeds: line 57
  only tests `len(c) == 1`, and the metrics are registered. `Store` and
  `Name` then work, and the first `Fetch` panics at line 120, where it makes
  a slot array of length -1. The model requires at least one tier for
  `NewMultiLevelBucketCache`, and two for the coordinator.
- `maxBackfillItems` is stored and never consulted, as in the code. No cap
  is modelled.
- Go's map iteration order is not modelled: the copy loops are order-free.
  `Merge` takes keys in an arbitrary order, and the slot copy (lines
  145-147) is stated as map union.
- The error values `errInvalidMax...` and `ErrAsyncBufferFull` are defined
  outside this file. They are modelled as datatype constructors.
- The loop variables captured by the enqueued closures are modelled
  per iteration. These are `c` in `Store` (lines 106-107), and `i` and
  `values` in the backfill pass (lines 166-167). This follows the loop
  semantics of Go 1.22 and later, where each iteration of a `for ... range`
  loop has its own variables. The module's Go version is not part of this
  model. Under the older semantics all closures share one variable, so a
  closure that runs after the loop has moved on sees a later tier or slot.
- The closures are not modelled as code: each scheduled write is recorded
  as its data `(tier, items, ttl)`.
- `Fetch`'s loop and deferred pass are split into helper methods (`Lookup`,
  `Round`, `Consult`, `Narrow`, `ScheduleBackfill`, `BackfillSlot`,
  `EnqueueBackfill`), and `Store`'s loop body into `StoreAttempt`, so that
  each proof stays small. Together they perform the same steps in the same
  order as the single Go function.
- Go's nil map result of a cancelled fetch is `None`, and a returned map is
  `Some(hits)`.
- pkg/storage/tsdb/bucketindex/storage_test.go tests object-store I/O of
  the bucket index, and is not part of this model.
