# meme-aggregator in Dafny

A model of the core of the meme-coin token aggregator. Each poll it fetches token records from two upstream sources: DexScreener, with three keyword searches, and GeckoTerminal, with one token page.

- Every upstream GET goes through a retry loop with exponential backoff.
- Each source's payload is normalised into a common token record.
- The records are merged by token address under a field-by-field policy.
- The merged list is published into an in-memory snapshot cache.
- Each published record's price is diffed against the previous poll, and a `price_updates` message is produced when some price moved.
- A REST listing serves the cache with search, an optional whitelisted sort and clamped pagination.
- A health summary reports the number of cached records.

Modules follow the source files:

| module | file | models |
|---|---|---|
| `Common` | `common.dfy` | Option/Result, `Math.max`/`Math.min` |
| `Text` | `text.dfy` | `trim`, `toLowerCase`, `toUpperCase`, `includes` (ASCII) |
| `Tokens` | `tokens.dfy` | the normalised token record |
| `Retry` | `retry.dfy` | `getWithRetry` |
| `Sources` | `sources.dfy` | `fetchDexScreener`, `fetchGeckoTerminal` |
| `Merge` | `merge.dfy` | `mergeByAddress` |
| `TokenCache` | `cache.dfy` | `cache`, `getTokens`, `setTokens` |
| `Aggregator` | `aggregator.dfy` | `refreshTokens` |
| `Server` | `server.dfy` | `pollOnce`, the connection snapshot |
| `Api` | `api.dfy` | `/health`, `/tokens` |

Modelling choices:

- **Upstream answers.** An upstream endpoint is a function from the attempt index to that attempt's outcome: a response payload or an HTTP error with an optional status. The retry loop consumes that function. It returns the result, the number of attempts and the list of waits it would sleep.
- **The loops.** The retry loop is a method with a `while` loop. The DexScreener query loop, its push loop, the merge loop and the price-diff loop are methods with `for` loops. Each is proved equal to a recursive specification function, and the properties are lemmas about those functions.
- **The cache** is a class with two fields.
- **The poll loop's memory.** The module-level `lastSnapshot` of the poll loop is the field of a `Poller` class.
- **The sort.** The listing copies the searched list into a fresh array and sorts that array in place.
- **Numbers** are `real` and exact. Strings are `seq<char>`, and `""` stands for a field that is missing or empty; JavaScript's `||` treats those alike.
- **The clock.** `Date.now()` is the parameter `now`.

Behaviour of the code worth knowing:

- **All sources down.** When both sources are rejected, `refreshTokens` still calls `setTokens([])`. The published list is then empty rather than the previous one (`Aggregator.AllSourcesDown`).
- **Price merge.** `price_sol` and `price_1hr_change` are merged by "first non-zero in input order". The result therefore depends on the order of the input (`Merge.PriceIsOrderSensitive`). The max fields do not depend on it (`Merge.ScaleIsOrderInsensitive`).
- **Provenance.** `_source` provenance is a comma-joined string that keeps duplicates and order, not a set.
- **A failing DexScreener query.** One DexScreener query that still fails after its retries rejects the whole DexScreener source. The records of earlier queries are discarded with it (`Sources.DexSearchFailureRejects`).

## Model

| member | source | states |
|---|---|---|
| Retry.IsRetryable | src/services/aggregator.js:17-18 | an error is retryable when it has no status (or status 0), a status of at least 500, or status 429; any other status below 500 is not |
| Retry.GetWithRetry | src/services/aggregator.js:9-25 | the `while (true)` attempt loop returns exactly the run given by the specification `Run`: its result, its attempt count and its waits |
| Retry.StopStep | src/services/aggregator.js:13-19 | a success, a non-retryable error or the fourth failure ends the run at that attempt with the waits slept so far |
| Retry.RetryStep | src/services/aggregator.js:19-22 | a retryable failure with retries left sleeps 500·2^(attempt−1) ms and goes on with the next attempt |
| Retry.RunFromShape | src/services/aggregator.js:11-23 | attempts stay within 1..4, the waits are the backoffs of the retries taken, every attempt before the last is a retryable failure, and the last attempt is a success, a non-retryable error, or the fourth failure |
| Retry.RunFrom | src/services/aggregator.js:11-23 | the run after f retryable failures makes between f+1 and 4 attempts in all, sleeps one wait per further failure, and returns the outcome of its last attempt |
| Retry.Run | src/services/aggregator.js:9-25 | the specification of one `getWithRetry` call: 1 to 4 attempts and one wait fewer than attempts |
| Retry.RunBounds | src/services/aggregator.js:16-22 | at most MAX_RETRIES+1 = 4 attempts; one wait fewer than attempts; wait k is 500·2^k ms |
| Retry.BackoffSchedule | src/services/aggregator.js:5-6 | the schedule of the three retries is 500, 1000, 2000 ms |
| Retry.Backoff | src/services/aggregator.js:21 | the wait after the first failure is 500 ms, and no wait is shorter |
| Retry.BackoffDoubles | src/services/aggregator.js:21 | each retry waits twice as long as the one before it |
| Retry.SucceedsAfterFailures | src/services/aggregator.js:13-22 | f ≤ 3 retryable failures followed by a success return that data after f+1 attempts and exactly f waits |
| Retry.FirstSuccessReturns | src/services/aggregator.js:13-14 | a first successful attempt returns its data at once, with no wait |
| Retry.FatalErrorFailsFast | src/services/aggregator.js:19 | a non-retryable first error is rethrown after one attempt and no wait |
| Retry.FatalAfterFailures | src/services/aggregator.js:16-22 | a non-retryable error after f retryable failures is rethrown after f+1 attempts and f waits |
| Retry.RetriesExhausted | src/services/aggregator.js:19 | four retryable failures rethrow the fourth error after the waits 500, 1000, 2000 |
| Retry.TwoServiceUnavailableThenSuccess | src/services/aggregator.js:11-23 | 503, 503, then success: three attempts, waits 500 and 1000 |
| Retry.NotFoundPropagates | src/services/aggregator.js:18-19 | a 404 is thrown on the first attempt without any retry |
| Sources.DisplayName | src/services/aggregator.js:49 | `token_name` is never empty: the name, else the symbol, else "Unknown" |
| Sources.Take | src/services/aggregator.js:40 | `slice(0, n)`: the first min(length, n) records |
| Sources.NormalizeDexPair | src/services/aggregator.js:47-59 | a DexScreener record carries the pair's base address, a non-empty name and the tag "dexscreener" |
| Sources.HasBaseAddress | src/services/aggregator.js:43-44 | the negation of the `!base?.address` skip: `baseToken` present with a non-empty address; that exactly such pairs are pushed is proved by `Sources.DexTokensSpec` and `Sources.PushPairs` |
| Sources.DexTokens | src/services/aggregator.js:40-60 | the records pushed for the pairs of one search are no more than the pairs, all addressed |
| Sources.AddressedPairs | src/services/aggregator.js:44 | the pairs with a base address, in order: exactly the input pairs that have one |
| Sources.PairsOf | src/services/aggregator.js:39 | the `Array.isArray` fallback: the response's `pairs`, or none; what the pairs then yield is bounded by `Sources.DexFromBounds` |
| Sources.DexTokensSpec | src/services/aggregator.js:40-60 | the pairs loop yields exactly one record per pair with a base address, in pair order, and no other record; every one is addressed, named and tagged |
| Sources.PushPairs | src/services/aggregator.js:40-60 | the inner loop appends to `all` exactly the records of the pairs with a base address, in pair order |
| Sources.DexFromStep | src/services/aggregator.js:33-61 | a successful query appends its records and the loop goes on with the remaining queries |
| Sources.DexFrom | src/services/aggregator.js:33-61 | on success, at most 20·n records in all for n searches, every one addressed; a first search that fails rejects the whole source with its error |
| Sources.DexQueryTokens | src/services/aggregator.js:39-60 | what one search contributes: at most 20 records, all addressed |
| Sources.DexScreener | src/services/aggregator.js:28-63 | the specification of `fetchDexScreener`: on success at most 60 records, all addressed |
| Sources.FetchDexScreener | src/services/aggregator.js:28-63 | the loop over the three queries returns exactly the specification `DexScreener` |
| Sources.DexFromBounds | src/services/aggregator.js:33-61 | on success, for n searches, at most 20·n records in all, every one with an address, a non-empty name and the tag "dexscreener" |
| Sources.DexScreenerBounds | src/services/aggregator.js:30-44 | on success at most 60 records, all with a non-empty address, a non-empty name and the tag "dexscreener" |
| Sources.DexSearchFailureRejects | src/services/aggregator.js:33-37 | the first query that fails after its retries rejects the whole source with that error |
| Sources.GeckoAddress | src/services/aggregator.js:78 | the address falls back from `address` to `token_address` to `id`, and is empty exactly when all three are |
| Sources.NormalizeGecko | src/services/aggregator.js:77-89 | a GeckoTerminal record carries that address, a non-empty name and the tag "geckoterminal" |
| Sources.KeepAddressed | src/services/aggregator.js:90 | the filter keeps exactly the records with a non-empty address, all of them addressed and no more than the input; order and multiplicity are fixed by the two lemmas below |
| Sources.KeepAddressedAppend | src/services/aggregator.js:90 | the filter distributes over concatenation, so it keeps the input order and each occurrence |
| Sources.KeepAddressedSingleton | src/services/aggregator.js:90 | a single record is kept exactly when its address is non-empty |
| Sources.EntriesOf | src/services/aggregator.js:72 | the `Array.isArray` fallback: the response's `data`, or none; what the entries then yield is stated by `Sources.GeckoTokensBounds` |
| Sources.GeckoTokens | src/services/aggregator.js:72-90 | the records of one token page: at most 50, all addressed |
| Sources.GeckoTerminal | src/services/aggregator.js:66-91 | the specification of `fetchGeckoTerminal`: a request that fails after its retries rejects the source with its error; on success at most 50 records, all addressed |
| Sources.FetchGeckoTerminal | src/services/aggregator.js:66-91 | the adapter returns exactly the specification `GeckoTerminal` |
| Sources.GeckoTokensBounds | src/services/aggregator.js:74-90 | at most 50 records, all addressed, named and tagged; every one of the first 50 entries with an address is kept |
| Merge.Occurrences | src/services/aggregator.js:96-97 | the records of one address, in input order |
| Merge.FirstOccurrences | src/services/aggregator.js:100-101 | every key is an address that occurs in the list |
| Merge.IndexOf | src/services/aggregator.js:100 | the index of the first record with that address, or the list's length when there is none |
| Merge.MergeGroup | src/services/aggregator.js:100-117 | the fold of one address's occurrences keeps the address of its first occurrence |
| Merge.MergeSpec | src/services/aggregator.js:94-121 | one record per key of `FirstOccurrences`, the i-th carrying the i-th key as its address, so every record is addressed |
| Merge.MergeGroupSnoc | src/services/aggregator.js:100-117 | a new address seeds its entry with a copy of the record; a known one combines the entry with the record |
| Merge.AbsorbStep | src/services/aggregator.js:96-118 | one iteration of the loop (skip an empty key, seed a new one, combine a known one) keeps the map equal to the fold of each address's records so far |
| Merge.BuildEntries | src/services/aggregator.js:95-119 | the loop's `Map` holds, for every non-empty address in first-occurrence order, the fold of that address's records |
| Merge.MergeByAddress | src/services/aggregator.js:94-121 | the method returns exactly the specification `MergeSpec`: the merged record of each distinct non-empty address, in first-occurrence order |
| Merge.MergeGroupAddress | src/services/aggregator.js:101-106 | the merged record keeps its address |
| Merge.MergeGroupMax | src/services/aggregator.js:110-113 | market cap, volume, liquidity and transaction count are the maximum over the address's records |
| Merge.Combine | src/services/aggregator.js:105-117 | one combination step keeps the address, takes the maximum of each scale field (attained by one side), keeps the earlier price, price change, name, ticker and protocol unless it is 0 or empty, and joins the sources with a comma |
| Merge.MergeGroupFirstNonZero | src/services/aggregator.js:109-114 | price and 1h price change are the first non-zero value in input order, or 0 if all are 0 |
| Merge.MergeGroupFirstNonEmpty | src/services/aggregator.js:107-115 | name, ticker and protocol are the first non-empty value in input order |
| Merge.JoinSourcesSnoc | src/services/aggregator.js:116 | each merge step appends "," and the new record's source |
| Merge.MergeGroupSources | src/services/aggregator.js:116 | `_source` is the comma-join of all the address's sources, in input order |
| Merge.OccurrencesSpec | src/services/aggregator.js:96-97 | a record is among an address's occurrences exactly when it is in the list with that address |
| Merge.OccurrencesAppend | src/services/aggregator.js:96 | the occurrences of a concatenation are the concatenated occurrences |
| Merge.FirstOccurrencesSpec | src/services/aggregator.js:96-101 | the keys are exactly the non-empty addresses that occur, ordered by first occurrence |
| Merge.FirstOccurrencesDistinct | src/services/aggregator.js:98-101 | the keys are pairwise distinct and non-empty |
| Merge.MergeSpecShape | src/services/aggregator.js:96-120 | one output record per distinct non-empty address; no empty address; no duplicate; first-occurrence order |
| Merge.MergedRecordGroup | src/services/aggregator.js:100-117 | every output record is the fold of the non-empty group of records with its address |
| Merge.MergedRecordScale | src/services/aggregator.js:110-113 | every output record's scale figure is the maximum over the input records with its address, and is attained by one of them |
| Merge.MergedRecordPolicy | src/services/aggregator.js:105-117 | every output record follows the field policy over its address's records: max, first non-zero, first non-empty, joined sources |
| Merge.NoOccurrences | src/services/aggregator.js:96-97 | an address that no record carries has no occurrences |
| Merge.OccurrencesAround | src/services/aggregator.js:96-101 | a record among records of other addresses is the only occurrence of its address |
| Merge.OccurrencesOfUnique | src/services/aggregator.js:100-101 | with distinct addresses each address occurs once |
| Merge.FirstOccurrencesOfDistinct | src/services/aggregator.js:96-101 | with distinct non-empty addresses the keys are the input's addresses in order |
| Merge.MergeDistinctIsIdentity | src/services/aggregator.js:94-121 | merging a list without duplicate or empty addresses returns it unchanged |
| Merge.MergeIdempotent | src/services/aggregator.js:94-121 | merging a merged list changes nothing |
| Merge.ScaleIsOrderInsensitive | src/services/aggregator.js:110-113 | the max fields do not depend on the order of an address's records |
| Merge.PriceIsOrderSensitive | src/services/aggregator.js:109 | the merged price does depend on that order: [1.0, 2.0] gives 1.0 and [2.0, 1.0] gives 2.0 |
| Merge.TwoSourcesScenario | src/services/aggregator.js:105-117 | A `{price 1.0, volume 100}` then B `{price 0, volume 250}` for ADDR1: price 1.0, volume 250, source "A,B" |
| TokenCache.Cache.constructor | src/utils/cache.js:2-5 | before any publication: no items and timestamp 0 |
| TokenCache.Cache.GetTokens | src/utils/cache.js:7-9 | a read of both fields that modifies nothing |
| TokenCache.Cache.SetTokens | src/utils/cache.js:11-14 | replaces both fields, with `now` as the timestamp, and changes nothing else |
| TokenCache.PublishThenRead | src/utils/cache.js:7-14 | a read after a publication returns exactly the published items and time |
| Aggregator.Settled | src/services/aggregator.js:131-132 | the `status === "fulfilled"` pick: the value of a fulfilled source, else nothing; its effect on the joined list is proved by `Aggregator.JoinOrder` and `Aggregator.AllSourcesDown` |
| Aggregator.Refreshed | src/services/aggregator.js:130-136 | the list one refresh publishes: every record has a non-empty address |
| Aggregator.RefreshTokens | src/services/aggregator.js:124-138 | publishes the merge of both settled sources at `now` and returns the published length |
| Aggregator.JoinOrder | src/services/aggregator.js:130-133 | DexScreener records come before GeckoTerminal records; a rejected source contributes nothing |
| Aggregator.AllSourcesDown | src/services/aggregator.js:125-136 | with both sources rejected the published list is empty |
| Aggregator.RefreshedShape | src/services/aggregator.js:124-137 | the published list has at most 110 records, all addressed, no address twice |
| Server.DetectChanges | src/server.js:47-59 | the `for` loop returns exactly the specification change list and `nextSnapshot` |
| Server.ChangesOf | src/server.js:47-59 | the change list of one poll has at most one entry per item |
| Server.ChangesSound | src/server.js:50-57 | every entry is for an address present in the previous map whose price differs; it carries the new price of such an item, and delta is new minus previous |
| Server.ChangesComplete | src/server.js:50-57 | every item whose address was known with a different price has its entry |
| Server.ChangesAppend | src/server.js:49-58 | entries appear in the order of the items |
| Server.ChangeFor | src/server.js:50-57 | an item yields at most one entry, and one exactly when its address was known with a different price; the entry has the item's address and price and a delta that takes the previous price to the new one |
| Server.PriceMap | src/server.js:48-51 | every item's address is a key of the new map, and the last item's price is the one kept for its address |
| Server.PriceMapSpec | src/server.js:48-51 | the new map has exactly the items' addresses as keys, so vanished addresses are dropped, each with the price of its last item |
| Server.PriceMapOfDistinct | src/server.js:51 | for distinct addresses, as published, every item's own price is remembered |
| Server.PriceMoveScenario | src/server.js:49-58 | previous ADDR1 = 1.0, now ADDR1 = 1.2 and a new ADDR2: the single entry ADDR1, 1.2, delta 0.2 |
| Server.Poller.constructor | src/server.js:39 | no price is remembered at start-up |
| Server.Poller.PollOnce | src/server.js:41-64 | refreshes the cache, replaces the remembered map by the new prices, and broadcasts the change list exactly when it is non-empty |
| Server.OnConnection | src/server.js:32-35 | the connection snapshot reports the cached timestamp and item count |
| Api.Health | src/routes/api.js:11-18 | `count` is the number of cached records, with the cached timestamp |
| Api.NormalizeQuery | src/routes/api.js:33 | the normalised query is no longer than the raw one and has no upper-case letter |
| Api.MatchesQuery | src/routes/api.js:36-38 | every record matches the empty query, and a record that matches has a name, ticker or address at least as long as the query |
| Api.FilterMatching | src/routes/api.js:35-39 | keeps exactly the records whose lower-cased name, ticker or address contains the query |
| Api.Search | src/routes/api.js:33-40 | an empty trimmed query keeps every record in order; otherwise a record is kept exactly when it matches |
| Api.EmptyQueryMatchesAll | src/routes/api.js:34 | every record matches the empty query, so skipping the filter for it changes nothing |
| Api.FilterMatchingAppend | src/routes/api.js:35 | the filter distributes over concatenation, so it keeps the input order |
| Api.FilterMatchingSingleton | src/routes/api.js:35-39 | a single record is kept exactly when it matches |
| Api.LowerTrimStart | src/routes/api.js:33 | lower-casing commutes with trimming leading whitespace |
| Api.LowerTrimEnd | src/routes/api.js:33 | lower-casing commutes with trimming trailing whitespace |
| Api.NormalizeQueryIgnoresCase | src/routes/api.js:33 | raw queries equal up to case normalise to the same query |
| Api.SearchIgnoresQueryCase | src/routes/api.js:33-40 | the search result does not depend on the case of the query |
| Api.ParseSortKey | src/routes/api.js:43-53 | a sort key is recognised exactly when it is one of the six whitelisted names |
| Api.KeyNameRoundTrip | src/routes/api.js:43-50 | each whitelisted name is recognised as its own key |
| Api.IsAscending | src/routes/api.js:52-57 | ascending exactly when `dir`, lower-cased, is "asc"; missing means "desc" |
| Api.SortInPlace | src/routes/api.js:53-59 | the sorted copy is a permutation of the input, non-decreasing on the key for "asc" and non-increasing otherwise |
| Api.InsertLast | src/routes/api.js:54-58 | one insertion pass extends the sorted prefix by one and keeps the multiset |
| Api.SortedCopy | src/routes/api.js:53-59 | sorting a copy yields a permutation of the same length in the comparator's order |
| Api.ClampPageSize | src/routes/api.js:62 | pageSize lies in 1..200, defaults to 50, and keeps an in-range value |
| Api.ClampPage | src/routes/api.js:63 | page is at least 1, defaults to 1, and keeps a value of at least 1 |
| Api.PageStart | src/routes/api.js:65 | the first index of a page is never negative |
| Api.PageSlice | src/routes/api.js:65-67 | the page has min(pageSize, max(0, total − start)) records, taken in order from start = (page−1)·pageSize |
| Api.PagesPrefix | src/routes/api.js:65-67 | consecutive pages tile the list: the first n pages are its first n·pageSize records |
| Api.PageBeyondEnd | src/routes/api.js:65-67 | a page that starts past the end is empty |
| Api.ListTokens | src/routes/api.js:27-77 | `total` is the searched length; page and pageSize are clamped; without a whitelisted key the page comes from the searched list in its order, with one, from a sorted permutation of it; the cache is not modified, which here follows from the cache holding a value |
| Api.ListedRecordsMatch | src/routes/api.js:30-67 | every listed record is a cached record that matches the normalised query |

## Left out

- HTTP: `axios.get`, its URLs, query parameters and 10 s timeout are not modelled. Each endpoint is a function from the attempt index to the outcome.
- Sleeping: `setTimeout` is not modelled; the waits are returned as a list of milliseconds.
- Concurrency: `Promise.allSettled` is not modelled; each source's outcome is a settled `Result`, and the two sources are independent inputs.
- Transport: Express routing, `res.json`/`res.status`, the `/refresh` route, the WebSocket server, `broadcast`/`send`, `server.listen` and `dotenv` are transport and bootstrap. The model returns the message values instead.
- Scheduling: `setInterval` and `POLL_MS` are not modelled. The source has no guard against overlapping polls, and neither does the model; one poll is one method call.
- Poller.PollOnce: the `catch` branch (log and keep `lastSnapshot`) has no input in the model. `refreshTokens` settles both sources and so never rejects, and a failure of the cache itself has no counterpart.
- Numbers: JavaScript coercion (`Number(x ?? 0) || 0`), NaN and floating-point rounding are not modelled. Numeric fields are exact reals, and missing values are already 0.
- DexScreener numbers: the market cap fdv/1e9 and the transaction count buys + sells are computed exactly, without float rounding.
- Query parameters: non-integer or non-numeric `page`/`pageSize` (NaN) are not modelled. A missing or empty parameter is `None`.
- Text: `trim`, `toLowerCase` and `toUpperCase` act on ASCII only; full Unicode case mapping and whitespace are not modelled.
- Api.SortInPlace: states sortedness and permutation only. The relative order of records with equal keys is not stated, although `Array.prototype.sort` is stable.
- Api.ListTokens: with a whitelisted key it states that the page comes from some sorted permutation of the searched list, for the same reason.
- Aliasing of the cached array: `getTokens` hands out the cache's own array, and the listing leaves the cache untouched only because it sorts `items.slice()`. The model's cache holds a `seq<Token>` value, so `Api.ListTokens` cannot modify the cache whether or not it copies. That guarantee therefore follows from the value model and does not rest on the copy made in `Api.SortedCopy`.
- `readTokens` is `getTokens` and is modelled by `TokenCache.Cache.GetTokens`.
