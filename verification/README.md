# A verified model of market-fetcher

market-fetcher is a caching proxy for cryptocurrency market data. Background
updaters fetch pages of market records and prices, publish what they fetched,
and wake subscribers; readers are answered from the cache alone. The cache must
agree with the provider it stands in for, and the parts must agree with each
other although they run concurrently. This project models the code that carries
those agreements and proves them. `dafny verify dfyconfig.toml` checks
everything.

## What is proved

- **No lost update.** `NotifyProtocol` models one-slot channels, coalescing
  notifications, cancellation and closing as interleaved steps of any number of
  writers and watchers: a closed channel is never sent to and closes once, and
  writers and watchers left to themselves come to rest. `Delivery` says what
  arrives. An update is lost to a watcher by one kind of step only: an emission
  that its context breaks off before this watcher, when nothing else is on its
  way to it. A later publication, an immediate call or the end of the
  registration makes up for that. At rest a watcher has applied the published
  version if and only if every such loss was made up for; at any time what it
  has applied is a version that was published.
- **The tier pipeline, end to end.** `Pipeline` composes the protocol with the
  lazily rebuilt index (`TopIds`), the validated tiers (`TierConfig`) and their
  slices (`TierSlices`): at any time, each of the first n ids of the index that
  the prices service has learned of is fetched by exactly one price tier, although
  the service only holds a truncated copy; at rest that is the published index,
  under the exact condition above.
- **The per-tier machine.** `TierUpdater` proves over all interleavings that a
  stuck tier is launched again, and that a check which declines has a reason;
  `InitialLoad` that the initial-load event fires exactly once, in the right step,
  exactly when tier names are distinct.
- **The chunker.** `Chunks` proves that the greedy split is a maximal legal
  partition with the fewest possible chunks, and that fan-in does not depend on
  the cuts.
- **Chart rounding.** `MarketChart` proves that serving a request from a rounded,
  possibly older, shared copy gives the provider's own answer as of the time of
  that copy. Over all runs this holds for a coin and a currency if and only if
  their cache key cannot be read as that of another coin; `ChartRequests` proves
  the same for requests that overlap in any way.
- **Keys and rates.** `KeyManager` proves the backoff over whole runs of calls, if
  and only if the key is configured once and is not the only Pro key;
  `RateLimiter` that stored limiters always fit the current configuration;
  `CacheKeys` which cache keys can and cannot collide; `Retry` the bounds on
  attempts and waiting.

Where the code does less than one would expect, the project proves exactly when:
a broken-off emission loses an update (`Delivery.NotLostAfter`, with a run in
`Delivery.BrokenOffEmissionLoses`); a watcher on a closed channel calls back
without end when Cancel began before Watch or Unsubscribe was called directly
(`NotifyProtocol.ClosedUnderLiveContext`, `NotifyProtocol.SpinsForever`); a key that
is configured twice, or is the only Pro key, is not spaced
(`KeyManager.BackoffHolds`); the names with which a by-id fetcher overwrites another
family's keys, or another fetcher's (`CacheKeys.CollidesWithTokens` and the lemmas
beside it, `CacheKeys.NamesCollideExactly`); a request whose id:currency has another
colon, with a valid id before it and something after it, can be answered from
another coin's chart (`MarketChart.RepliesAreRight`,
`ChartRequests.OverlappingRepliesAreRight`); overlapping page updates leave cache
and index with different ids (`PageWrites.AgreesExactly`); the day cut is rounded down to a second and can
keep a point too many (`MarketChart.MillisecondProvider`); tripling a huge interval
wraps around (`TierUpdater.MaxUpdateDurationBound`); two tiers of the same name
suppress the initial-load event (`InitialLoad.LaunchedExactlyThen`); the map order
decides whether an id is fetched again (`StaleIds.MixedCopiesDependOnOrder`).

## Conventions

Time is an integer that never decreases: nanoseconds for tiers and keys,
milliseconds for charts. What the outside world does (fetch results, map iteration
order, cancellation, jitter, what an attempt meets) is a parameter. A market record
is either unreadable, readable without an id, or a record with an id. The cache is
a map of expiring entries. Classes mirror the source's structures with their mutable
fields; each method is proved against a function of the old state, and the
theorems are about those functions.

## Model

| member | source | states |
|---|---|---|
| `Events.SubscriptionManager.Subscribe` | market-fetcher/events/subscription.go:89-97 | A new channel is registered, open and empty; every other channel keeps its standing. |
| `Events.SubscriptionManager.Unsubscribe` | market-fetcher/events/subscription.go:99-106 | Removes and closes a registered channel once; a second call changes nothing, so registered and open stay the same thing. |
| `Events.SubscriptionManager.Emit` | market-fetcher/events/subscription.go:109-124 | Unless its context stops it, every registered channel ends with a token, whatever the map order; no token is taken away, and only open channels are sent to. |
| `Events.Subscription.Cancel` | market-fetcher/events/subscription.go:43-50 | However often it is called, the channel is closed exactly once and unregistered; only the first call cancels the context, if Watch has made one. |
| `NotifyProtocol.SafeStep` | market-fetcher/events/subscription.go:43-124 | Every step of any writer, watcher or canceller keeps: registered equals open, closed at most once, an emission only has registered channels ahead. |
| `NotifyProtocol.ChannelsAreSafe` | market-fetcher/events/subscription.go:43-50 | In every reachable state a channel is registered exactly when open, closed at most once under repeated and concurrent cancels, and no emission can send on a closed one. |
| `NotifyProtocol.InternalStepWorks` | market-fetcher/events/subscription.go:109-124 | Every internal step of a writer or watcher strictly lowers the work left, although a notification creates work. |
| `NotifyProtocol.InternalRunsEnd` | market-fetcher/events/subscription.go:55-124 | Any run of internal steps is at most as long as the work at hand, and nothing is left to do exactly when all emissions have ended and all watchers are settled. |
| `NotifyProtocol.ClosedUnderLiveContext` | market-fetcher/events/subscription.go:43-76 | In every reachable state, a watcher whose context lives faces a closed channel exactly when Unsubscribe was called for it directly, or Cancel began before Watch and has run. |
| `NotifyProtocol.SpinsForever` | market-fetcher/events/subscription.go:64-73 | Such a watcher can receive and call back any number of times without any emission, and cannot exit while its context lives. |
| `Delivery.InvStep` | market-fetcher/events/subscription.go:55-124 | Every step keeps the channels safe and the watchers honest: what each has read or applied is the published value of its version. |
| `Delivery.AppliedWasPublished` | market-fetcher/events/subscription.go:55-76 | In every reachable state a watcher has applied nothing but the published value of the version it carries. |
| `Delivery.NotLostAfter` | market-fetcher/events/subscription.go:109-124 | For every step, exactly: afterwards nothing is lost to a watcher unless the step breaks off the only emission that owed it an unread version, or something was lost before and the step does not make up for it. |
| `Delivery.NoLostUpdate` | market-fetcher/events/subscription.go:55-124 | After every run, a registered watcher that last read an old version has a token, is about to read, or is owed a notification, if and only if each broken-off emission that lost it an update was followed by a new emission, an immediate call or the end of its registration. |
| `Delivery.InternalRunKeeps` | market-fetcher/events/subscription.go:55-124 | Internal steps neither lose nor make up for anything, so a loss lasts until one of those steps. |
| `Delivery.RestIsCurrent` | market-fetcher/events/subscription.go:55-76 | At rest, a registered watcher in its loop is at the published version exactly when nothing is lost to it, where a watcher not called back yet is at the version of its subscription; one with an immediate call has applied the value. |
| `Delivery.WatcherCatchesUp` | market-fetcher/events/subscription.go:55-124 | From every reachable state, when the internal steps have run out, a registered watcher that is still in its loop is at the published version if and only if nothing was lost to it before; with an immediate call it has then applied the published value. |
| `Delivery.BrokenOffEmissionLoses` | market-fetcher/events/subscription.go:114-118 | A run that shows such a loss: the watcher is idle and out of date. |
| `Pipeline.OnMarketListChanged` | market-fetcher/coingecko_prices/service.go:116-133 | The prices updater ends with a prefix of the index of all published pages, as long as the largest tier end allows; the index itself is unchanged. |
| `Pipeline.PublishedPages` | market-fetcher/coingecko_markets/service.go:59-79 | Version k of the published value is the result of the first k index operations of the run, whatever other steps are interleaved. |
| `Pipeline.HeldIsIndex` | market-fetcher/coingecko_prices/service.go:116-133 | At any time after its first callback, the prices updater holds the index after the operations it has learned of, cut at the limit. |
| `Pipeline.HeldIsCut` | market-fetcher/coingecko_prices/service.go:116-133 | What it holds is a prefix of that index, as long as the limit allows. |
| `Pipeline.RestIsCurrent` | market-fetcher/coingecko_prices/service.go:116-133 | When a run comes to rest, a subscribed updater still in its loop has learned of all operations, if and only if each loss by a broken-off emission was made up for. |
| `Pipeline.PricesSeeTheIndex` | market-fetcher/coingecko_prices/service.go:96-133 | At any time, every price tier's slice of what the updater holds equals its slice of the whole index that was cut. |
| `Pipeline.EachTopIdHasOneTier` | market-fetcher/coingecko_prices/periodic_updater.go:284-299 | End to end, at any time: with validated tiers covering 1..n, the tiers' slices of the list then held have exactly the first n ids of the index the updater has learned of, each in exactly one slice. |
| `Chunks.ChunkEnd` | market-fetcher/coingecko_common/process_in_chunks.go:29-41 | The inner loop ends the chunk exactly where the greedy first chunk of the rest ends, past an oversized item. |
| `Chunks.ProcessInChunks` | market-fetcher/coingecko_common/process_in_chunks.go:9-64 | Requests the greedy chunks in order; success means all were fetched, an error is that of the last chunk requested and nothing is fetched after it, a cancelled wait stops before the next chunk. |
| `Chunks.EndsUnique` | market-fetcher/coingecko_common/process_in_chunks.go:43-61 | That contract leaves one ending only: calls and answer are determined, and success means exactly that every chunk's fetch succeeds and no wait is cancelled. |
| `Chunks.ChunkMapFetcher` | market-fetcher/coingecko_common/process_in_chunks.go:66-87 | The answer is the chunks' maps merged in order; any error yields no map. |
| `Chunks.ChunkArrayFetcher` | market-fetcher/coingecko_common/process_in_chunks.go:89-108 | The answer is the chunks' lists in order; any error yields no list. |
| `Chunks.MergeInto` | market-fetcher/coingecko_common/process_in_chunks.go:80-84 | Writing one map's keys in any order overrides exactly those keys. |
| `Chunks.FirstChunkIsLegalAndMaximal` | market-fetcher/coingecko_common/process_in_chunks.go:29-41 | The greedy chunk obeys both limits or is a single item, and no longer prefix does. |
| `Chunks.TotalLengthIsFlat` | market-fetcher/coingecko_common/process_in_chunks.go:31-36 | The length a chunk is limited in is that of all its items' characters together. |
| `Chunks.SplitIsMaximalPartition` | market-fetcher/coingecko_common/process_in_chunks.go:24-61 | The chunks are non-empty, legal, concatenate to the input, and none could have taken the next chunk's first item. |
| `Chunks.GreedyStaysAhead` | market-fetcher/coingecko_common/process_in_chunks.go:24-61 | From a position at least as far on, the greedy split needs no more chunks than any legal split of the rest. |
| `Chunks.SplitIsOptimal` | market-fetcher/coingecko_common/process_in_chunks.go:24-61 | No legal split of the same list uses fewer chunks. |
| `Chunks.SplitCount` | market-fetcher/coingecko_common/process_in_chunks.go:24-61 | At least n/limit chunks, rounded up, and exactly that many when the length limit never binds. |
| `Chunks.LastChunkWins` | market-fetcher/coingecko_common/process_in_chunks.go:79-84 | For an arbitrary fetch, a key is answered when some chunk answers it, with the value of the last such chunk. |
| `Chunks.MapFanInIgnoresChunking` | market-fetcher/coingecko_common/process_in_chunks.go:66-87 | For a pointwise fetch the merged map is the function restricted to the items, for all limits. |
| `Chunks.ArrayFanInIgnoresChunking` | market-fetcher/coingecko_common/process_in_chunks.go:89-108 | For a pointwise fetch the array is the image of the items in order, for all limits. |
| `Tokens.ExtractTokenIDs` | market-fetcher/coingecko_markets/cache_utils.go:66-86 | The ids of the usable records, in page order. |
| `Tokens.IdsAreFields` | market-fetcher/coingecko_markets/cache_utils.go:66-86 | The ids are the non-empty id fields at exactly their positions, in order, each as often as it stands there. |
| `Tokens.WellFormedPage` | market-fetcher/coingecko_markets/cache_utils.go:66-86 | A page of well-formed records loses nothing, and its ids match its records one by one. |
| `TopIds.TopIdsManager.UpdatePageIds` | market-fetcher/coingecko_markets/top_ids.go:27-36 | Replaces one page's ids and keeps the dirty-flag invariant. |
| `TopIds.TopIdsManager.UpdatePagesFromPageData` | market-fetcher/coingecko_markets/top_ids.go:39-52 | Replaces the ids of every page of the batch, the last entry for a page winning. |
| `TopIds.TopIdsManager.GetTopIds` | market-fetcher/coingecko_markets/top_ids.go:55-75 | Answers a prefix of the specified index: all of it for a limit that is not positive, else as many ids as the limit allows; rebuilds if and only if that is needed. |
| `TopIds.TopIdsManager.MaxPage` | market-fetcher/coingecko_markets/top_ids.go:130-135 | The highest page number for every map order, zero when none is positive. |
| `TopIds.AppendNew` | market-fetcher/coingecko_markets/top_ids.go:143-150 | Adding a page with the seen map keeps the list equal to the first-occurrence dedup of all pages so far. |
| `TopIds.TopIdsManager.RebuildTopIds` | market-fetcher/coingecko_markets/top_ids.go:123-154 | The rebuilt list is the first-occurrence dedup of pages 1..max in page order. |
| `TopIds.TopIdsManager.Clear` | market-fetcher/coingecko_markets/top_ids.go:157-166 | Leaves no page and a clean, correct, empty list. |
| `TopIds.TopIdsManager.Replay` | market-fetcher/coingecko_markets/top_ids.go:27-75 | Over every sequence of updates, reads, page reads and clears, all reads answer as the specification, which has no flag and no stored list. |
| `TopIds.TopIdsCharacterised` | market-fetcher/coingecko_markets/top_ids.go:123-154 | The index is the one list that holds every id of a positive page, in order of first mention, and it has no duplicates. |
| `TopIds.LastUpdateWins` | market-fetcher/coingecko_markets/top_ids.go:27-52 | After any run from the empty index, a page holds what its last update since the last clear gave it, and only such pages exist. |
| `TopIds.UpdatesCommute` | market-fetcher/coingecko_markets/top_ids.go:27-52 | Updates of different pages commute. |
| `TopIds.UpdateOrderIrrelevant` | market-fetcher/coingecko_markets/top_ids.go:27-75 | Exchanging neighbouring updates of different pages anywhere in a run changes no answer. |
| `TopIds.ConcatBeyond` | market-fetcher/coingecko_markets/top_ids.go:137-152 | Pages beyond the highest add nothing. |
| `TierConfig.SortSlice` | market-fetcher/config/coingecko_prices_config.go:43-48 | A sorted rearrangement, with no promise about equal starts. |
| `TierConfig.CheckSorted` | market-fetcher/config/coingecko_prices_config.go:50-73 | Comparing sorted neighbours accepts exactly the pairwise disjoint well-formed lists, and each error is true of the tiers it names. |
| `TierConfig.ValidateTiers` | market-fetcher/config/coingecko_prices_config.go:37-76 | Accepts exactly the non-empty lists of well-formed, pairwise disjoint tiers; a rejection names a real fault. The markets configuration has the same code. |
| `TierConfig.ValidateTiersById` | market-fetcher/config/fetcher_by_id_config.go:158-191 | The same without the emptiness check. |
| `TierConfig.GoodExtend` | market-fetcher/config/coingecko_prices_config.go:65-72 | In start order, clearing the predecessor is clearing every earlier tier. |
| `TierConfig.GoodUnderPermutation` | market-fetcher/config/coingecko_markets_config.go:50-55 | Being a good list does not depend on the order, so the verdict on the sorted copy is one on the original, whatever the sort does with equal starts. |
| `TierConfig.JustifiedUnderPermutation` | market-fetcher/config/coingecko_markets_config.go:57-81 | An error found in the sorted copy is true of the original list. |
| `TierSlices.PriceTierSlice` | market-fetcher/coingecko_prices/periodic_updater.go:273-299 | For a validated tier the slice is in bounds and holds the ids at positions from..to that exist; exactly when the other outcomes, a panic included, occur. |
| `TierSlices.ByIdTierSlice` | market-fetcher/fetcher_by_id/periodic_updater.go:179-204 | Never panics; the ids at positions from..to that exist, and nothing for an invalid range. |
| `TierSlices.GetMaxTokenLimit` | market-fetcher/coingecko_prices/service.go:96-113 | The largest tier end, or the default when there is none. |
| `TierSlices.GetMaxIdLimit` | market-fetcher/config/fetcher_by_id_config.go:110-121 | The largest tier end, or the default when there is none. |
| `TierSlices.TruncationKeepsSlices` | market-fetcher/coingecko_prices/service.go:96-133 | Cutting the list at the tier limit changes the slice of no tier. |
| `TierSlices.SliceMembers` | market-fetcher/coingecko_prices/periodic_updater.go:284-299 | An id without duplicates is in a tier's slice exactly when the tier covers its position. |
| `TierSlices.SlicesDisjoint` | market-fetcher/coingecko_prices/periodic_updater.go:284-299 | Validated tiers never fetch the same id. |
| `TierSlices.SlicesCover` | market-fetcher/coingecko_prices/periodic_updater.go:284-299 | When the tiers cover 1..n, each of the first n ids is in exactly one slice and no other id in any. |
| `TierSlices.ChainReassembles` | market-fetcher/coingecko_prices/periodic_updater.go:284-299 | Contiguous tiers' slices, one after the other, give back the list up to the last tier's end. |
| `TierSlices.DuplicateIdsShareSlices` | market-fetcher/coingecko_prices/periodic_updater.go:284-299 | With a duplicated id, good tiers do fetch the same id twice: the dedup of the index is needed. |
| `TierUpdater.PeriodicUpdater.CheckTier` | market-fetcher/coingecko_prices/periodic_updater.go:201-241 | Launches a tier that was never updated, or that is due or forced and not marked, or marked but stuck; resets exactly the stuck ones. |
| `TierUpdater.PeriodicUpdater.CheckPriceTiers` | market-fetcher/coingecko_prices/periodic_updater.go:185-255 | Launches the tiers at exactly the positions where the launch rule holds, in order, but none without top ids unless forced. |
| `TierUpdater.PeriodicUpdater.CheckMarketTiers` | market-fetcher/coingecko_markets/periodic_updater.go:147-202 | Launches the tiers at exactly the positions where the launch rule holds, in order. |
| `TierUpdater.LaunchedAreDue` | market-fetcher/coingecko_prices/periodic_updater.go:199-254 | No due tier is left out, none is launched twice or out of order, and no other is launched. |
| `TierUpdater.PeriodicUpdater.FetchAndUpdatePriceTier` | market-fetcher/coingecko_prices/periodic_updater.go:258-353 | Fetches exactly the tier's slice; stores the fetched data and time only on success and otherwise keeps the old; leaves no mark on any path, a panic of the slicing included. |
| `TierUpdater.PeriodicUpdater.FetchAndUpdateMarketTier` | market-fetcher/coingecko_markets/periodic_updater.go:205-284 | Stores the fetched data and time only on success, otherwise keeps the old, and leaves no mark on any path. |
| `TierUpdater.StepKeepsInv` | market-fetcher/coingecko_prices/periodic_updater.go:344-526 | Each setting or clearing of a mark and each commit, of any goroutine at any time, keeps: a mark is not before the last success, and both are recorded events. |
| `TierUpdater.ReachableInv` | market-fetcher/coingecko_markets/periodic_updater.go:251-259 | The invariant holds in every reachable state of every interleaving. |
| `TierUpdater.MaxUpdateDurationBound` | market-fetcher/coingecko_prices/periodic_updater.go:215-219 | With 64-bit wrap-around the stuck bound is between ten minutes and max(10 minutes, 3 intervals), and equals the latter if and only if tripling does not overflow. |
| `TierUpdater.NoTierStalls` | market-fetcher/coingecko_prices/periodic_updater.go:201-254 | After any interleaving, every configured tier whose mark is older than max(10 minutes, 3 intervals) is among those that a check launches, forced or not, for every 64-bit interval. |
| `TierUpdater.DeclinedMeansRecent` | market-fetcher/coingecko_markets/periodic_updater.go:150-200 | After any interleaving, a check that declines points to an update begun within the bound or, unless forced, a success within the last interval. |
| `TierUpdater.LaunchRule` | market-fetcher/coingecko_prices/periodic_updater.go:201-241 | When tripling does not overflow, launching is exactly the documented rule. |
| `InitialLoad.InitialLoadTracker.CheckAndTriggerInitialLoadCompleted` | market-fetcher/coingecko_markets/periodic_updater.go:391-420 | Records the completion and launches exactly when the counting check and the scan over the tiers succeed for the first time. |
| `InitialLoad.NamesCount` | market-fetcher/coingecko_markets/periodic_updater.go:402 | There are as many names as tiers exactly when the names are distinct. |
| `InitialLoad.AfterRun` | market-fetcher/coingecko_markets/periodic_updater.go:391-420 | After any run exactly the tiers that completed are recorded, and the flag is set exactly when names are distinct and all are loaded. |
| `InitialLoad.LaunchedExactlyThen` | market-fetcher/coingecko_markets/periodic_updater.go:391-420 | Over every run, the callback is launched exactly in the step where the last missing tier first completes, if names are distinct, and never otherwise. |
| `InitialLoad.LaunchedAtMostOnce` | market-fetcher/coingecko_markets/periodic_updater.go:401-418 | No run launches the callback twice. |
| `InitialLoad.LaunchedInTheEnd` | market-fetcher/coingecko_markets/periodic_updater.go:401-418 | With distinct names, a run that loads every tier has launched it. |
| `StaleIds.NeededInPrices` | market-fetcher/coingecko_prices/periodic_updater.go:463-482 | The loop that leaves at the first copy decides by the first copy met. |
| `StaleIds.NeededInMarkets` | market-fetcher/coingecko_markets/periodic_updater.go:361-384 | The loop that goes on after a stale copy decides the same. |
| `StaleIds.FindMissingOrStalePrices` | market-fetcher/coingecko_prices/periodic_updater.go:450-486 | The extra ids decided for, in their order, for every map order. |
| `StaleIds.FindMissingOrStaleMarkets` | market-fetcher/coingecko_markets/periodic_updater.go:348-388 | The same selection. |
| `StaleIds.NeededSound` | market-fetcher/coingecko_prices/periodic_updater.go:463-482 | An id without a fresh copy is needed; a needed id has a stale copy or none. |
| `StaleIds.PickIsSubsequence` | market-fetcher/coingecko_prices/periodic_updater.go:460-486 | The selection lists the extra ids at the chosen positions, one by one. |
| `StaleIds.PositionsIncrease` | market-fetcher/coingecko_prices/periodic_updater.go:460-486 | The chosen positions increase, so the selection keeps the order of the extra ids. |
| `StaleIds.EveryChosenPosition` | market-fetcher/coingecko_markets/periodic_updater.go:381-384 | No chosen position is left out. |
| `StaleIds.SelectionSound` | market-fetcher/coingecko_prices/periodic_updater.go:450-486 | For every map order, ids with no fresh copy are selected and ids with only fresh copies are not. |
| `StaleIds.MixedCopiesDependOnOrder` | market-fetcher/coingecko_markets/periodic_updater.go:361-384 | Two orders of the tier map decide differently about an id exactly when it has both a fresh and a stale copy. |
| `KeyManager.APIKeyManager.GetAvailableKeys` | market-fetcher/coingecko_common/api_key_manager.go:98-127 | The Pro keys, all of them if there is one and else those not in backoff, then the Demo keys not in backoff, each with its kind, in configuration order and as often as configured, then the keyless entry; which key is listed as which kind is said for every key. |
| `KeyManager.APIKeyManager.TryWithKeys` | market-fetcher/coingecko_common/utils.go:28-51 | Tries a prefix of the list, each entry once, stops at the first success, and otherwise answers the last error; every failure is marked at its time. |
| `KeyManager.CallIsAttempted` | market-fetcher/coingecko_common/utils.go:18-51 | What a call leaves behind, attempt by attempt: the time all tries took, exactly the failing ones reported in order with their times, each key marked with its last failure, and the last error. |
| `KeyManager.CallIs` | market-fetcher/coingecko_common/utils.go:18-51 | A whole call begins its delay after the previous one, tries the keys on offer at that time in their order, and leaves behind exactly that. |
| `KeyManager.APIKeyManager.Serve` | market-fetcher/coingecko_common/utils.go:18-51 | A whole sequence of calls has the failures, marks and end time that the run function says. |
| `KeyManager.OfferedKeys` | market-fetcher/coingecko_common/api_key_manager.go:98-127 | The list ends with the keyless entry, offers a key exactly when it is configured and rested or the sole Pro key, and repeats only what the configuration repeats. |
| `KeyManager.OfferedEntries` | market-fetcher/coingecko_common/api_key_manager.go:98-127 | A key is listed as a Pro key exactly when it is the only Pro key or a configured Pro key not in backoff, and as a Demo key exactly when it is a configured Demo key not in backoff. |
| `KeyManager.RestedLists` | market-fetcher/coingecko_common/api_key_manager.go:108-122 | The rested keys of one kind are those at exactly the positions not in backoff, in order. |
| `KeyManager.TryOnce` | market-fetcher/coingecko_common/utils.go:28-51 | One call fails at most once with a key listed once and leaves that failure's time recorded; without a failure the record is as before. |
| `KeyManager.CallKeepsSpacing` | market-fetcher/coingecko_common/utils.go:18-51 | One more call keeps all failures of a key a backoff apart. |
| `KeyManager.TryNever` | market-fetcher/coingecko_common/utils.go:28-51 | A call never touches the record of a key it was not offered. |
| `KeyManager.APIKeyManager.ListKeys` | market-fetcher/coingecko_market_chart/api.go:118-122 | The same list, with the keyless entry behind or in front of the others as asked for. |
| `KeyManager.FreeFirstKeys` | market-fetcher/coingecko_market_chart/api.go:118-122 | Either way the same keys are tried, each as often. |
| `KeyManager.BackoffHolds` | market-fetcher/coingecko_common/api_key_manager.go:63-140 | Over every sequence of non-overlapping calls, with or without the keyless entry in front, the failures of a key are a backoff apart, if and only if the configuration lists the key at most once and it is not the only Pro key. |
| `KeyManager.RepeatedKeyIsNotSpaced` | market-fetcher/coingecko_common/api_key_manager.go:98-127 | Every configuration that repeats a key has a run that breaks the spacing. |
| `KeyManager.SoleProKeyIsNotSpaced` | market-fetcher/coingecko_common/api_key_manager.go:104-106 | Every configuration with an only Pro key has a run in which it fails twice at the same time. |
| `KeyManager.PrependFreeKey` | market-fetcher/coingecko_market_chart/api.go:41-48 | The result has the first keyless entry in front and the rest in order, although the caller's array is shifted in place and keeps its old last slot. |
| `KeyManager.MoveToFrontIsPermutation` | market-fetcher/coingecko_market_chart/api.go:41-48 | Nothing is lost or repeated. |
| `RateLimiter.RateLimiterManager.SetConfig` | market-fetcher/coingecko_common/rate_limiter_manager.go:53-76 | Every stored limiter fits the new configuration; exactly those of changed types are new objects, all others keep their identity. |
| `RateLimiter.RateLimiterManager.CreateLimiter` | market-fetcher/coingecko_common/rate_limiter_manager.go:117-126 | Under the write lock an existing limiter is returned as it is, otherwise one that fits the configuration is stored. |
| `RateLimiter.RateLimiterManager.Interfere` | market-fetcher/coingecko_common/rate_limiter_manager.go:53-127 | Any sequence of reconfigurations and creations keeps coherence and loses no limiter. |
| `RateLimiter.RateLimiterManager.GetLimiterForKey` | market-fetcher/coingecko_common/rate_limiter_manager.go:105-127 | Whatever runs between the two locks, the limiter returned is the stored one and fits the configuration at that time. |
| `RateLimiter.RateLimiterManager.GetLimiterForURL` | market-fetcher/coingecko_common/rate_limiter_manager.go:79-102 | No limiter exactly for keyless requests to other hosts; otherwise one with the rate and burst of the winning key type. |
| `RateLimiter.ParseInvertsMapKey` | market-fetcher/coingecko_common/rate_limiter_manager.go:129-163 | The type is recovered from the map key of every key string. |
| `RateLimiter.MapKeyInjective` | market-fetcher/coingecko_common/rate_limiter_manager.go:129-144 | Map keys determine type and key. |
| `RateLimiter.DefaultBurstIsLeast` | market-fetcher/coingecko_common/rate_limiter_manager.go:189-212 | The default burst is the least positive whole number that is at least the rate. |
| `RateLimiter.RatesMean` | market-fetcher/coingecko_common/rate_limiter_manager.go:165-205 | Each kind of key has the rate of its own setting, in requests per minute, or its own default, and its configured burst if that is positive. |
| `CacheKeys.FamiliesDisjoint` | market-fetcher/coingecko_markets/utils.go:66-79 | No key belongs to two of the token, page, page-ids, price and chart families. |
| `CacheKeys.TokenKeyInjective` | market-fetcher/coingecko_markets/utils.go:59-69 | Token keys determine the id, and extracting it inverts building the key. |
| `CacheKeys.PageKeyInjective` | market-fetcher/coingecko_markets/utils.go:72-79 | Page and page-ids keys determine the page number, through decimal printing, negative numbers included. |
| `CacheKeys.PriceKeyInjective` | market-fetcher/coingecko_prices/service.go:173-175 | Price keys determine the id. |
| `CacheKeys.ByIdKeyInjective` | market-fetcher/config/fetcher_by_id_config.go:106-108 | One fetcher's keys determine the id, whatever its name. |
| `CacheKeys.NamesCollideExactly` | market-fetcher/config/fetcher_by_id_config.go:102-108 | Two fetchers can share a key exactly when their names are equal or one continues the other's name and separator. |
| `CacheKeys.CollidesWithTokens` | market-fetcher/config/fetcher_by_id_config.go:102-108 | For every name: a fetcher reaches the token keys exactly when its name followed by a colon begins with their prefix. |
| `CacheKeys.CollidesWithPrices` | market-fetcher/config/fetcher_by_id_config.go:102-108 | It reaches the price keys exactly when it is called price or its name followed by a colon begins with their prefix. |
| `CacheKeys.CollidesWithCharts` | market-fetcher/config/fetcher_by_id_config.go:102-108 | It reaches the chart keys exactly when its name followed by a colon begins with their prefix. |
| `CacheKeys.PagesAreSafe` | market-fetcher/config/fetcher_by_id_config.go:102-108 | It never reaches a page or page-ids key. |
| `CacheKeys.ColonFreeNames` | market-fetcher/config/fetcher_by_id_config.go:102-108 | Without a colon only the names markets, price and market_chart collide with a family. |
| `CacheKeys.ChartKeyParts` | market-fetcher/coingecko_market_chart/service.go:109-119 | For days and intervals of valid requests, two chart keys agree exactly when days, interval and the text of id, colon and currency agree. |
| `CacheKeys.ChartKeyInjective` | market-fetcher/coingecko_market_chart/service.go:109-119 | Chart keys determine id, currency, days and interval for every id, when the currencies have no colon. |
| `CacheKeys.TwinExactly` | market-fetcher/coingecko_market_chart/service.go:109-119 | A request shares its key with another id exactly when its own id or currency has a colon. |
| `ChartData.FilterDataPoints` | market-fetcher/coingecko_market_chart/strip_response_utils.go:100-121 | The points from the cutoff on, all of them, once each and in order, or the last few when a minimum is asked for and missed. |
| `ChartData.FilterChart` | market-fetcher/coingecko_market_chart/strip_response_utils.go:60-98 | Cuts every field that is a list of points and leaves the others alone, for every map order. |
| `ChartData.FilterByDataKeys` | market-fetcher/coingecko_market_chart/strip_response_utils.go:33-58 | Keeps, unchanged, exactly the fields that some stretch of the filter between commas or ends trims to, or all when no filter is given. |
| `ChartData.StripMarketChartResponse` | market-fetcher/coingecko_market_chart/strip_response_utils.go:12-31 | Keeps exactly the fields the filter names, and of their points exactly those not older than the day cut, judged by the original parameters; without a numeric day count it keeps all points. |
| `ChartData.FilterNamesMean` | market-fetcher/coingecko_market_chart/strip_response_utils.go:38-45 | A field is among the parsed names exactly when some stretch of the filter between commas or ends trims to it and it is not empty. |
| `ChartData.KeepIsSince` | market-fetcher/coingecko_market_chart/strip_response_utils.go:105-110 | The kept points are those at exactly the positions not older than the cutoff, in order. |
| `ChartData.CutoffMeans` | market-fetcher/coingecko_market_chart/strip_response_utils.go:67 | The cutoff lies whole days of 24 hours before the second now is in. |
| `ChartData.KeepTwice` | market-fetcher/coingecko_market_chart/strip_response_utils.go:100-121 | Cutting twice keeps, in order, what lies in both windows. |
| `MarketChart.ParseDataFilters` | market-fetcher/coingecko_market_chart/types.go:24-40 | Exactly the non-empty names that a stretch of the filter trims to; a blank filter has none. |
| `Strings.TrimSpaceMeans` | market-fetcher/coingecko_market_chart/types.go:25-35 | Trimming takes away white space at both ends, all of it there, and nothing else. |
| `MarketChart.Validate` | market-fetcher/coingecko_market_chart/types.go:42-88 | Accepts exactly requests with a non-blank id, days that are empty, max or 1..365, and known interval and field names. |
| `MarketChart.RoundingLaws` | market-fetcher/coingecko_market_chart/roundup_request_utils.go:12-38 | Rounding only widens, is idempotent, and keeps the granularity and with it the lifetime class, for every threshold. |
| `MarketChart.BucketOfDays` | market-fetcher/coingecko_market_chart/roundup_request_utils.go:12-38 | The rounded day count is the threshold for counts up to it and 365 for those beyond; nothing else of the request changes. |
| `MarketChart.SameBucketExactly` | market-fetcher/coingecko_market_chart/service.go:66-69 | Two valid requests that differ in day count and data filter only have the same key exactly when their day counts are on the same side of the threshold. |
| `MarketChart.DefaultsShare` | market-fetcher/coingecko_market_chart/service.go:58-63 | An empty currency is fetched as usd, and empty days as 30. |
| `MarketChart.CopyIsShared` | market-fetcher/coingecko_market_chart/service.go:65-90 | After a fetch, every request of the bucket is answered from that very copy while it lives, whatever is asked in between, even when its own fetch would fail. |
| `MarketChart.SharedExactlyWhileItLives` | market-fetcher/coingecko_market_chart/service.go:145-181 | Such a request is answered exactly until the lifetime of its side of the threshold has passed. |
| `MarketChart.RoundingPreservesAnswer` | market-fetcher/coingecko_market_chart/service.go:49-100 | With a provider whose series depends on coin, currency, interval and granularity, a rounded copy fetched at t0 and cut at t1 equals the provider's own reply at t1 without what is newer than t0. |
| `MarketChart.MillisecondProvider` | market-fetcher/coingecko_market_chart/strip_response_utils.go:67 | Against a provider that counts in milliseconds, this holds exactly when no point falls into the part of a second that is cut away. |
| `MarketChart.MillisecondMismatch` | market-fetcher/coingecko_market_chart/strip_response_utils.go:67 | At every time that is not a whole second there is a series for which it fails. |
| `MarketChart.TracedStep` | market-fetcher/coingecko_market_chart/service.go:70-90 | Every request keeps: each cached copy is the provider's answer to some fetched request with this key, with the lifetime of its days. |
| `MarketChart.MarketChartService.MarketChart` | market-fetcher/coingecko_market_chart/service.go:49-100 | Reply and cache of one request, errors included, are those of the functions the theorems below are about. |
| `MarketChart.MarketChartService.Serve` | market-fetcher/coingecko_market_chart/service.go:49-100 | So are the replies and the cache of every sequence of requests. |
| `MarketChart.UnambiguousIsRight` | market-fetcher/coingecko_market_chart/service.go:49-100 | After any run, whatever was asked before, a request whose key cannot be read as another coin's is answered with the provider's reply as of now, or as of a time no older than the request's own lifetime. |
| `MarketChart.PlainIsUnambiguous` | market-fetcher/coingecko_market_chart/service.go:109-119 | An id and a currency without a colon are such a request. |
| `MarketChart.WrongCoin` | market-fetcher/coingecko_market_chart/service.go:70-90 | Every ambiguous coin and currency has a run in which the reply is cut from another coin's chart. |
| `MarketChart.RepliesAreRight` | market-fetcher/coingecko_market_chart/service.go:49-119 | Replies for a coin and a currency are right after all runs if and only if no other colon of id:currency has a valid id before it and something after it. |
| `ChartRequests.InvStep` | market-fetcher/coingecko_market_chart/service.go:49-100 | Every lookup, fetch, store and cut of any request, in any order with those of others, keeps: each cached copy was fetched for some request with its key and stored later, with the lifetime of its days, and each request holds a copy that it may use. |
| `ChartRequests.LookedUp` | market-fetcher/coingecko_market_chart/service.go:73-77 | A live copy is usable for every unambiguous request that finds it, whichever request stored it. |
| `ChartRequests.ReplyIsRight` | market-fetcher/coingecko_market_chart/service.go:49-100 | After any run of overlapping requests, the reply to an unambiguous request is the provider's own, as of a fetch since the request arrived, or of a copy stored within the request's own lifetime before its lookup. |
| `ChartRequests.AloneIsAnswer` | market-fetcher/coingecko_market_chart/service.go:49-100 | A request that no other overlaps has the reply and leaves the cache that MarketChart has for one request. |
| `ChartRequests.OverlappingRepliesAreRight` | market-fetcher/coingecko_market_chart/service.go:49-119 | Over all runs of overlapping requests, replies for a coin and a currency are right if and only if no other colon of id:currency has a valid id before it and something after it. |
| `MarketChart.ReplyIsStripped` | market-fetcher/coingecko_market_chart/service.go:55-99 | Stripping by the original parameters, with empty ones defaulted only for the fetch, gives that reply. |
| `MarketChart.OriginMatches` | market-fetcher/coingecko_market_chart/service.go:109-119 | A fetched request with the key of an unambiguous one differs from it at most in the data filter. |
| `Tokens.RecordIffListed` | market-fetcher/coingecko_markets/cache_utils.go:10-86 | The ids a page lists for the index are exactly those whose records it caches. |
| `Tokens.LastRecordMeans` | market-fetcher/coingecko_markets/cache_utils.go:10-34 | The record kept for an id is the last one that carries it. |
| `Tokens.LastInPagesMeans` | market-fetcher/coingecko_markets/service.go:61-66 | Over several pages it is that of the last page which has one. |
| `Tokens.ParsedIsReadable` | market-fetcher/coingecko_markets/service.go:266-272 | The records of a page that are answered are all but the malformed ones, in order. |
| `Markets.ParseTokens` | market-fetcher/coingecko_markets/cache_utils.go:10-34 | The last record of each id is stored under the id's key, and nothing else. |
| `Markets.ParsePages` | market-fetcher/coingecko_markets/cache_utils.go:37-63 | Each page of the batch is stored with its last data, and its last ids if it has any, under its two keys; nothing else is written. |
| `Markets.LastIdsMeans` | market-fetcher/coingecko_markets/cache_utils.go:50-58 | The ids kept for a page are those of its last entry that has any. |
| `Markets.MarketsService.CacheTokensByID` | market-fetcher/coingecko_markets/service.go:148-163 | The last record of each id in the batch is cached with the configured lifetime; no other id and no other key family changes. |
| `Markets.MarketsService.CacheTokensPage` | market-fetcher/coingecko_markets/service.go:166-181 | The batch's pages and their ids are cached; no other page and no other key family changes. |
| `Markets.MarketsService.HandleTierPagesUpdate` | market-fetcher/coingecko_markets/service.go:59-79 | Page cache and index change together and agree page by page afterwards; the last record of every id in the batch is cached under its own key, and no other id changes. |
| `PageWrites.AgreesExactly` | market-fetcher/coingecko_markets/service.go:59-79 | After overlapping calls, whatever the order of their writes, cache and index agree on a page exactly when the last write of the page to each gives it the same ids, or neither was written. |
| `PageWrites.UndisturbedCallAgrees` | market-fetcher/coingecko_markets/service.go:59-79 | A call that no other overlaps leaves its pages in agreement, whatever came before. |
| `PageWrites.OverlapDisagrees` | market-fetcher/coingecko_markets/service.go:59-79 | Two calls with different ids for a page have an order in which cache and index end up different. |
| `Markets.MarketsService.MarketsByPage` | market-fetcher/coingecko_markets/service.go:241-290 | The records of the live pages of the range in page order; full or miss status exactly when all or none are live; an error exactly for an invalid range. |
| `Markets.ReadPages` | market-fetcher/coingecko_markets/service.go:252-289 | The loop's records and status for any range. |
| `Markets.MarketsService.GetMaxTokenLimit` | market-fetcher/coingecko_markets/service.go:293-319 | The last page any tier loads, times the page size, or the default. |
| `Markets.MarketsService.TopMarkets` | market-fetcher/coingecko_markets/service.go:331-373 | With servable pages, exactly min(limit, total of the needed pages) records for the limit capped at the last loaded page, whose deduplicated ids are a prefix of the full index; a page size of zero panics. |
| `Markets.MarketsService.TopMarketIds` | market-fetcher/coingecko_markets/service.go:376-387 | A prefix of the index, as long as the limit allows, with the default for a limit that is not positive. |
| `Markets.MarketsService.RecordsMatchIndex` | market-fetcher/coingecko_markets/service.go:241-290 | Servable pages answer one record per index entry, with the same ids in the same order. |
| `Markets.MarketsService.TopRecords` | market-fetcher/coingecko_markets/service.go:331-373 | The cut records' deduplicated ids begin the index. |
| `Markets.CeilPages` | market-fetcher/coingecko_markets/service.go:354-357 | The number of pages asked for is the least that holds the limit. |
| `Retry.ExecuteRequest` | market-fetcher/coingecko_common/http_client_with_retries.go:74-151 | At most the allowed attempts, one status report per attempt and one retry report per attempt after the first, stopping at once at a success, a non-retryable status or a limiter failure, and the verdict of the last attempt. |
| `Retry.ReportMeans` | market-fetcher/coingecko_common/http_client_with_retries.go:99-144 | Success is reported for a read body of status 200, rate_limited for 429, 500, 502, 503 and 504, and an error for everything else. |
| `Retry.AttemptsMean` | market-fetcher/coingecko_common/http_client_with_retries.go:77-147 | All attempts but the last met a transport failure or one of those statuses, the last one did not unless it is the last allowed, and the answer is the last one's. |
| `Retry.MakesUnique` | market-fetcher/coingecko_common/http_client_with_retries.go:77-147 | What the attempts meet determines how many are made. |
| `Retry.WaitBound` | market-fetcher/coingecko_common/http_client_with_retries.go:153-162 | n attempts wait at least base(2^(n-1) - 1) and, for more than one, strictly less than 1.5 times that. |
| `Retry.ExhaustedRequest` | market-fetcher/coingecko_common/http_client_with_retries.go:74-151 | A request that only meets transport failures and retryable statuses makes exactly the allowed attempts and waits within the bound. |
| `Retry.JitterExists` | market-fetcher/coingecko_common/http_client_with_retries.go:160 | A jitter can be drawn without a panic, already for the first retry, exactly when the base is at least two. |

## Left out

- JSON, HTTP transport, URL building, headers, handlers, metrics, logging, YAML loading and the test API: input and output around the modelled logic.
- Strings are sequences of characters; the length limit of the chunker counts bytes, so for non-ASCII ids read the characters as bytes. `Atoi` knows ASCII digits.
- Nil and empty slices and maps are not told apart.
- Days have 24 hours, as for a process that runs on UTC; `AddDate` in a zone with daylight saving is not modelled.
- Provider: finer data for the shortest windows than for others below the threshold, which the configuration does not know, is not modelled; what it answers outside its window, and samples it revises later, are not modelled; `MarketChart.RoundingPreservesAnswer` assumes whole seconds, and `MarketChart.MillisecondProvider` gives the exact condition otherwise.
- `MarketChart.ReplyIsStripped`: a request without days is answered with the whole rounded copy, because the cut is judged by the original empty value; no 30-day cut is promised. Failures of encoding a chart for the cache are not modelled.
- `Retry.ExecuteRequest`: durations are unbounded integers; the float64 product and its overflow for very large backoffs, and a missing status handler, are not modelled.
- `Markets.MarketsService.TopMarkets`: says nothing about the reply for a negative configured page size, which no configuration is meant to have.
- `Markets.MarketsService.GetMaxTokenLimit`: the overflow of pages times page size is not modelled, and a missing configuration is not either.
- `RateLimiter.RateOf`: an exact rational where the source divides in float64; the token bucket itself is not part of this model, nor are key types other than the three that exist.
- `Events.Channel`: a channel is its open flag and its token; blocking receivers belong to `NotifyProtocol`, where a second `Watch` of the same subscription is not modelled.
- `NotifyProtocol`: stopping the markets service clears the index without emitting, which reads as a publication whose emission is broken off at once.
- `TierUpdater.PeriodicUpdater`: fetching the missing extra ids and the callbacks after a commit are not modelled; that at most one update of a tier is in flight is not claimed, because launching and marking are separate steps.
- `StaleIds.FindMissingOrStalePrices`: half the lifetime is an input, so its computation from the configuration is not modelled.
- The by-id updater's own tier state: it stores the last update while its mark is still set, so the stall invariant is false of it; only its slicing and configuration are modelled.
- `GetTotalTokenCount`, `GetStats` and `GetDuplicateStats` of the index, which count the stored lists even while the flag is dirty.
- `Markets.MarketsService.HandleTierPagesUpdate`: one undisturbed call; overlapping calls are the subject of `PageWrites`, which leaves out the tokens by id and the lifetimes.
- Token list, coins list, leaderboard, platform filtering, response stripping of prices, page fetching and the scheduler: easier than what is here.
