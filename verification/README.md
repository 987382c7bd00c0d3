# FRED read-through cache, modelled in Dafny

This project models the core of a small client for the FRED economic-data
API. It has three parts:

- **`FREDDatabase`** (database.py): the SQLite cache store.
  - Three entity tables: releases, series, observations.
  - A `cache_metadata` table of keys with expiry times.
  - Upserts by natural id.
  - A delete-then-insert replacement of a series' observations.
  - `LIMIT`-bounded reads, with observations latest date first.
- **`FREDAPICached`** (fred_api_cached.py): four read-through fetchers and
  a composite "release with observations" call.
  - Each fetcher serves from the cache when it is not forced to refresh, its
    key is fresh and the cached read is not empty.
  - Otherwise it asks the remote.
  - A non-empty record list is written through to the store.
  - The key is stamped for 24 hours whether or not the data write succeeded.
- **`FREDAPISecure`** (fred_api_secure.py): the same endpoints without a
  cache, and the "release observations workaround". The workaround fans out
  one observations request per series of a release.

The model is functional. `Store` is an immutable value: the three tables are
sequences in the order SQLite scans them without `ORDER BY`, which is rowid
order. A release's `INTEGER PRIMARY KEY` is its rowid, so releases are kept
in ascending id order. Series and observations have a separate rowid and are
kept in insertion order. The metadata table is a map keyed by cache key.
Every database operation is a pure function from a store to a store and an
outcome. Several things become parameters of the model:

- the clock: an integer `now`, in seconds;
- the HTTP round trip: an uninterpreted function from endpoint and
  parameters to an optional decoded JSON object;
- storage failures: a fault oracle that says whether the data write or the
  metadata write made for a cache key fails at commit.

JSON is a datatype with integers only. A reply is a `map<string, Json>`.

Modules, in dependency order:

- `Wrappers`, `JsonValues`, `Text`, `Seqs`: option type, JSON values,
  Python's `str(int)` and code-point string order, SQLite `LIMIT` and
  order-preserving selection.
- `Requests`: `make_request`'s parameter handling and the per-endpoint
  parameters.
- `Records`, `DateOrder`: rows, dict projections, `ORDER BY date DESC`.
- `CacheStore`, `StoreLaws`: `FREDDatabase` and laws over several of its
  calls.
- `CacheKeys`: the cache-key formats and their (non-)injectivity.
- `CachedApi`, `CacheLaws`: the four cached fetchers, cut from one template
  over an `Endpoint` datatype, and laws over several calls.
- `Composite`, `SecureApi`, `CachedComposite`: the combined result, the
  uncached client with its workaround, and the cached composite.

Behaviour the model keeps as the code has it:

- **Null entries on insert.** The ORM leaves an attribute set to `None` out
  of the INSERT, so a null entry in a new row's item takes the column default,
  like an absent one: a null `press_release` is stored as False and a null
  `popularity` as 0. An update writes the null
  (`Records.NewReleaseRoundTrip`, `Records.MergeReleaseIsDictUpdate`).
- **Mutated caller dicts.** `store_series` and `store_observations` write
  `release_id` and `series_id` into the caller's dicts. So the reply a
  fetcher returns after writing through carries those entries.
- **Release-info cache path.** It reads only the first row of the releases
  table, which holds the smallest stored id. A release with a larger id than
  some stored release is therefore never served from the cache, since writes
  never make the smallest id larger (`CacheLaws.ReleaseInfoRepeatMisses`).
  The smallest id is served from the cache (`CacheLaws.ReleaseInfoHitAfterMiss`).
- **Cached `count`.** A cached series list's `count` is the number of rows
  read. The composite reports it as `total_series_in_release`
  (`CachedComposite.CachedCompositeMetadata`).
- **Unkeyed realtime filters.** The observations key ignores the realtime
  filters. Requests that differ only in those filters share a cache entry
  (`CacheLaws.RealtimeFiltersShareCache`).
- **Key collisions.** The observations key is not injective when an id or a
  date contains `_` (`CacheKeys.ObservationsKeyCollision`). It is injective
  otherwise (`CacheKeys.ObservationsKeyInjective`).
- **Observation windows leak across keys.** The cached observations read
  ignores every filter (`CacheLaws.ObservationsReadIgnoresFilters`). A
  filtered miss replaces all of the series' stored rows with its window, so
  any other fresh key for the series is then served that window
  (`CacheLaws.FilteredWindowServesOtherKeys`).
- **Composite stops early.** The composite stops as soon as the release reply
  or the series reply is missing or an empty dict. A series reply with an
  empty list (`{"seriess": [], "count": 0}`) does not stop it. Otherwise it keeps, in list order,
  exactly the series whose observations reply holds observations.

## Model

| member | source | states |
|---|---|---|
| Requests.NewApi | fred_api_secure.py:17-22 | a client exists exactly when the key is present and non-empty, and it carries that key |
| Requests.MakeParams | fred_api_secure.py:24-30 | the sent parameters are the caller's plus `api_key` and `file_type`; the key is always the client's, the format defaults to json, every other parameter passes unchanged |
| Requests.MakeParamsIdempotent | fred_api_secure.py:29-30 | building the parameters a second time changes nothing |
| Requests.CallerKeyOverridden | fred_api_secure.py:29-30 | a caller's own `api_key` never reaches the remote; a caller's own `file_type` always does |
| Requests.Request | fred_api_secure.py:24-42 | the recorded call is the endpoint with the built parameters, and the answer is the remote's reply to exactly that call |
| Requests.Forward | fred_api_secure.py:66-69 | the forwarded parameters are the base ones plus exactly the listed names the caller supplied, with the caller's values |
| Requests.SeriesObservationsParams | fred_api_secure.py:59-69 | an observations request carries the series, the limit and exactly the supplied date filters |
| Requests.OtherKeywordsDropped | fred_api_secure.py:59-71 | a keyword outside the four date filters makes no difference to the request |
| SecureApi.GetReleases | fred_api_secure.py:44-46 | one `releases` request with the limit, key and json format, answered by the remote |
| SecureApi.GetReleaseInfo | fred_api_secure.py:48-50 | one `release` request with the release id, key and format |
| SecureApi.GetReleaseSeries | fred_api_secure.py:52-57 | one `release/series` request with the release id, limit, key and format |
| SecureApi.GetSeriesObservations | fred_api_secure.py:59-71 | one `series/observations` request with the series id, limit, key, format and exactly the supplied date filters |
| SecureApi.Replies | fred_api_secure.py:102-106 | the fan-out's replies are, position by position, the remote's answers for each listed series' id with no date filters |
| SecureApi.Workaround | fred_api_secure.py:73-112 | a result exactly when both the release reply and the series reply arrive as non-empty dicts (an empty series list still gives a result); then the first release, metadata from the series reply without a `cached` entry, and an order-preserving selection of the series list holding exactly those whose reply has observations (all of them, in order, when every reply does) |
| Composite.MetadataOf | fred_api_cached.py:208-213 | the metadata is the reply's `count` (0 when absent), the list length, the per-series limit, and in the cached client the reply's `cached` flag (False when absent) |
| Composite.ToObject | fred_api_cached.py:205-214 | the returned dict has exactly `release`, `series` and `metadata`, and the metadata dict has `cached` exactly when the client records it |
| Composite.WithObservations | fred_api_cached.py:223-225 | the copied series keeps every entry it had, gains the reply's observations, and in the cached client the reply's `cached` flag |
| Composite.Keep | fred_api_cached.py:222-226 | a series contributes exactly when its reply is present and has observations |
| Composite.SelectionOfUsable | fred_api_cached.py:217-226 | keeping the usable replies in order yields an order-preserving selection in which a series appears exactly when its reply is usable, and the whole list when every reply is |
| Composite.Assemble | fred_api_secure.py:90-112 | the assembled result is the first release, the metadata of the series reply, and the order-preserving selection of enriched series |
| CacheKeys.FilterSuffix | fred_api_cached.py:148-150 | a keyed filter adds `_{param}_{value}` exactly when supplied, nothing otherwise |
| CacheKeys.ReleasesKeyInjective | fred_api_cached.py:52 | two limits share a releases key exactly when they are equal |
| CacheKeys.ReleaseKeyInjective | fred_api_cached.py:82 | two release ids share a release key exactly when they are equal |
| CacheKeys.SeriesKeyInjective | fred_api_cached.py:112 | a series key determines both its release id and its limit |
| CacheKeys.KeyKindsDisjoint | fred_api_cached.py:52-150 | keys of the four fetchers never collide, whatever their arguments |
| CacheKeys.ObservationsKeyIgnoresOtherFilters | fred_api_cached.py:145-150 | requests agreeing on series, limit and the two observation-date filters share a key, whatever else they pass |
| CacheKeys.RealtimeFiltersNotKeyed | fred_api_cached.py:145-173 | adding realtime filters, which are forwarded to the remote, leaves the key unchanged |
| CacheKeys.ObservationStartChangesKey | fred_api_cached.py:148-150 | supplying `observation_start` always changes (lengthens) the key |
| CacheKeys.ObservationsKeyInjective | fred_api_cached.py:145-150 | with no `_` in the series id or filter values, the key determines series, limit and both keyed filters |
| CacheKeys.ObservationsKeyCollision | fred_api_cached.py:145-150 | a series id containing `_limit_…_observation_start_…` produces the same key as a different series queried from a crafted start date |
| Text.IntToStringRoundTrip | fred_api_cached.py:52 | the decimal text of an integer, as an f-string prints it, reads back as that integer |
| Text.IntToStringInjective | fred_api_cached.py:82 | distinct integers print differently |
| Text.IntToStringHasNoUnderscore | fred_api_cached.py:112 | a printed integer never contains the key separator `_` |
| Records.MergeReleaseIsDictUpdate | database.py:150-155 | updating a release overwrites exactly the columns the item names, keeps the rest and `created_at`, and sets `updated_at` |
| Records.NewReleaseRoundTrip | database.py:156-159 | a new release shows the item's value for each column it names with a non-null value, and the column default (`press_release` False) for an absent or null one; an item with exactly the release columns and a non-null `press_release` comes back unchanged |
| Records.MergeSeriesIsDictUpdate | database.py:194-199 | updating a series overwrites exactly the named columns, including the release association |
| Records.NewSeriesRoundTrip | database.py:200-203 | a new series shows the item's non-null values and the defaults (`popularity` and `group_popularity` 0) for absent or null entries, and takes the item's `release_id` |
| Records.ObservationRoundTrip | fred_api_cached.py:263-270 | an observation item with its four public fields comes back unchanged from the cache, including the "." missing value |
| DateOrder.InsertByDate | database.py:216-218 | inserting a row into a date-descending sequence keeps it descending and adds exactly that row |
| DateOrder.SortByDateDesc | database.py:216-218 | the sort is a date-descending permutation of its input |
| CacheStore.EmptyStoreValid | database.py:126-129 | a fresh database meets the key and NOT NULL constraints |
| CacheStore.UpsertRelease | database.py:143-159 | one upsert succeeds exactly when the item has an integer id and is acceptable; afterwards that id holds the merged or new row and every other id is untouched |
| CacheStore.UpsertReleases | database.py:143-159 | after the loop every item's id holds a row stamped now, ids outside the batch are untouched, and ids stay unique |
| CacheStore.StoreReleases | database.py:139-166 | the write reports success exactly when no fault occurs and every upsert succeeds; on failure the store is unchanged; other tables never change |
| CacheStore.UpsertSeries | database.py:183-203 | one series upsert, reading the id before tagging: an item without an id fails untagged; otherwise the caller's item is tagged and the row merged or created |
| CacheStore.UpsertSeriesBatch | database.py:183-203 | after the loop every item's id holds a row stamped now, and ids outside the batch are untouched |
| CacheStore.UpsertSeriesBatchItems | database.py:190-192 | the caller's items are each left alone or tagged with the release, and all are tagged when the loop completes |
| CacheStore.StoreSeries | database.py:179-210 | the series write succeeds exactly when no fault occurs and every upsert succeeds; rolled back on failure; the caller's items tagged as the loop left them |
| CacheStore.RowsOfExcept | database.py:226-229 | the delete removes exactly the series' observation rows |
| CacheStore.TagObservations | database.py:232-235 | each caller item is left alone or tagged with the series; the rows can be built exactly when every item is a dict naming only known columns, and then every item is tagged |
| CacheStore.StoreObservations | database.py:222-242 | success exactly when no fault occurs and every item is a buildable, dated dict; then the series' rows are exactly the new ones and every other series' rows are unchanged; on failure the store is unchanged |
| CacheStore.UpdateCacheMetadata | database.py:244-278 | the stamp adds or refreshes one key with the given time to live and count; an existing key keeps its type; every other key is unchanged |
| CacheStore.GetReleases | database.py:131-137 | up to `limit` rows of the table (all of them for a negative limit), the smallest ids first and in ascending order |
| CacheStore.SeriesOfRelease | database.py:172-174 | exactly the series rows associated with the release |
| CacheStore.GetSeries | database.py:168-177 | up to `limit` series, filtered by release only when the release id is truthy, and all matching rows when the limit allows |
| CacheStore.GetObservations | database.py:212-220 | up to `limit` of the series' rows, date-descending, and no row left out is later than any row returned |
| StoreLaws.UpsertReleasesDistinct | database.py:143-161 | with distinct ids, the batch succeeds exactly when each item would be accepted on its own, and each id then holds the upsert of its item against the table before the batch |
| StoreLaws.UpsertSeriesDistinct | database.py:183-205 | the same for series, with each item tagged |
| StoreLaws.StoredSeriesAssociation | database.py:190-203 | a stored series is associated with the argument release when that is truthy, otherwise with the item's own `release_id`, otherwise with what the row had (NULL for a new row) |
| StoreLaws.SecondSeriesWriteWins | database.py:194-199 | storing the same series twice adds no second row: the row is the first write's row merged with the second item |
| StoreLaws.StoredObservationsReadBack | database.py:212-242 | after a successful store the series reads back as exactly the stored rows (as a multiset), date-descending, as many as the limit allows; every other series reads as before |
| StoreLaws.SecondBatchReplacesFirst | database.py:226-229 | of two successful stores for one series only the second batch remains |
| StoreLaws.FreshUntilExpiry | database.py:280-297 | a key stamped at `now` is valid at `t` exactly when `t` is before `now` plus its time to live |
| StoreLaws.DefaultTtlIsOneDay | database.py:244-256 | with the default time to live the key stays valid for exactly one day |
| StoreLaws.StampIsLocal | database.py:251-271 | a never-stamped key is not valid, and stamping one key leaves every other key's validity unchanged |
| CacheStore.InsertedReleaseTable | database.py:156-159 | a new release row goes to its place in id order: the table stays ordered and unique, the new id holds the row, and every other id is untouched |
| StoreLaws.UpsertReleasesLeastFirst | database.py:139-162 | after a successful batch the first row holds the least id among the stored rows and the batch, so the first id never grows |
| StoreLaws.SeriesBatchAssociated | database.py:188-203 | after a successful associating write, every item's row, a repeated id included, is associated with the release |
| CachedApi.WriteRecords | fred_api_cached.py:134-138 | the write-through touches only its endpoint's table, leaves the metadata alone, rolls back on failure, and returns the caller's dicts as left (tagged or untouched for series) |
| CachedApi.Fetched | fred_api_cached.py:125-141 | the remote path makes exactly one request; it returns something exactly when the reply is a non-empty dict; when nothing is written through the store is unchanged and the reply comes back with `cached: False` |
| CachedApi.FetchedWritesThrough | fred_api_cached.py:134-141 | on write-through, the reply comes back with the written dicts, the tables are what the write left, and the key is stamped whether or not the data write succeeded |
| CachedApi.GetCached | fred_api_cached.py:110-141 | no request is made exactly on a hit (not forced, fresh key, non-empty read); a hit returns the cached listing and leaves the store alone; a miss is the remote path |
| CacheLaws.CachedRowsReadTables | fred_api_cached.py:115-123 | the cached read depends on the tables only, not on the metadata |
| CacheLaws.CachedRowsFromTables | fred_api_cached.py:84-93 | the cached read returns, as dicts, the releases with the smallest ids, the release's series, or the series' latest observations, as many as the limit allows; release info returns the first row only when it is the requested release |
| CacheLaws.HitAfterMiss | fred_api_cached.py:50-78 | after a miss that writes a non-empty list through without faults, the next unforced call within a day makes no request and leaves the store alone |
| CacheLaws.StampedAfterMiss | fred_api_cached.py:71-75 | after a miss that writes through, the key is fresh for exactly one day, counts the records, and no other key changes |
| CacheLaws.StaleRowsAfterFailedWrite | fred_api_cached.py:179-186 | when the data write fails but the stamp lands, the tables are unchanged and for a day the fetcher serves the old cached rows without a request |
| CacheLaws.ForcedRefreshAsks | fred_api_cached.py:54-55 | a forced refresh makes exactly one request |
| CacheLaws.ReleaseInfoRepeatMisses | fred_api_cached.py:84-105 | while a smaller id than the release's is stored, every release-info call asks the remote, and a write never makes the first row's id larger |
| CacheLaws.ReleaseInfoHitAfterMiss | fred_api_cached.py:84-105 | when no smaller id is stored and a faultless miss writes the release with no smaller id, the next unforced call within a day is that release's row from the cache, without a request |
| CacheLaws.RealtimeFiltersShareCache | fred_api_cached.py:143-175 | requests differing only in realtime filters are served from the cache together, with the same listing |
| CacheLaws.ObservationsReadIgnoresFilters | fred_api_cached.py:152-160 | requests differing in any filters read the same cached rows: the series' latest observations up to the limit |
| CacheLaws.FilteredWindowServesOtherKeys | database.py:222-235 | a faultless filtered miss replaces the series' stored rows with exactly its window, and any other fresh key for the series is then served that window without a request |
| CachedComposite.InfoPayloadShaped | fred_api_cached.py:195-206 | whatever the release-info fetcher returns, from cache or remote, has a first release |
| CachedComposite.SeriesPayloadShaped | fred_api_cached.py:200-218 | whatever the series fetcher returns lists dicts with string ids |
| CachedComposite.ObservationsPayloadUsable | fred_api_cached.py:221-222 | an observations fetch yields observations on a hit or when the remote supplies them, and under a forced refresh exactly when the remote does |
| CachedComposite.FanOut | fred_api_cached.py:217-226 | the loop runs one fetch per series id, threading the store, and keeps the store consistent |
| CachedComposite.FanOutPayloadAt | fred_api_cached.py:217-221 | the i-th payload is the fetch of the i-th id on the store the earlier fetches left |
| CachedComposite.FanOutCalls | fred_api_cached.py:217-221 | when each fetch makes the request its id names, the loop makes those requests, one per id, in list order |
| CachedComposite.SeriesIds | fred_api_cached.py:217-218 | the ids the loop visits are the listed series' ids, in order |
| CachedComposite.ObservationsLoopArrivals | fred_api_cached.py:216-226 | a series whose remote reply has observations gets observations; under a forced refresh exactly those series do |
| CachedComposite.ObservationsLoopForcedCalls | fred_api_cached.py:216-221 | under a forced refresh the loop asks the remote once per series, in list order |
| CachedComposite.Combine | fred_api_cached.py:188-228 | a result exactly when both the release and the series stages return something; stopping early keeps the store and requests made so far; otherwise the first release, the metadata, the order-preserving selection of enriched series, and the stages' stores and requests in turn |
| CachedComposite.GetReleaseObservationsCached | fred_api_cached.py:188-202 | a result exactly when both cached fetchers return something; a missing release or series list stops with the store and requests made so far |
| CachedComposite.CachedCompositeSelects | fred_api_cached.py:204-228 | the result is the first release, metadata with the series list's `cached` flag, and the selection of series that received observations in the loop; the requests are the three stages' in turn |
| CachedComposite.SeriesPayloadFlags | fred_api_cached.py:115-141 | a cached series list is marked cached and counts its own rows; a remote one is marked not cached |
| CachedComposite.CachedCompositeMetadata | fred_api_cached.py:208-213 | when the series list comes from the cache, the metadata says cached and its `total_series_in_release` is the number of rows read; otherwise not cached |
| CachedComposite.CachedCompositeForcedEarlyCalls | fred_api_cached.py:194-202 | a forced refresh asks for the release first, and stops there or after the series request when a stage returns nothing |
| CachedComposite.CachedCompositeForcedCalls | fred_api_cached.py:194-221 | when both stages return, a forced refresh asks for the release, its series, then each listed series' observations in order |

## Left out

- I/O: logging with `print`, the HTTP transport, the environment variables and the `.env` file. The remote is a parameter.
- Concurrency: `async`/`await` and SQLAlchemy sessions. Each call is one atomic transition on an immutable store.
- The clock is a parameter `now`, in whole seconds, fixed for the duration of one request. The source reads it several times per call.
- `get_database_stats`, `clear_cache`, `init_database` beyond an empty store, `main`, and the demonstration scripts main.py and run.py. They are reporting or placeholders outside the cache logic.
- SQLite type affinity and Python value types: column values are kept as the JSON values given. Release ids must be JSON integers, and series ids and observation dates must be strings; any other item fails the write. Floating-point values are not modelled.
- Read failures of the store: only commit failures of writes are modelled, through the fault oracle.
- Duplicate ids within one batch are upserted item by item against the table the previous items left, as the session's autoflush does. The laws about batches assume distinct ids.
- Shape errors: the `KeyError`/`IndexError` the composites raise on a malformed reply (no first release, a series without an id) are excluded by preconditions on the remote's replies.
- CachedApi.GetCached: keyword arguments of the observations fetcher are strings only.
- CachedComposite.GetReleaseObservationsCached: the per-series loop is modelled through a fetcher function value that threads the store, so its contract speaks of that loop rather than of each fetch directly.
- CacheStore.GetReleases: the ascending id order is the order SQLite scans a rowid table in; SQL itself leaves the order open without `ORDER BY`.
- CachedApi.GetCached: an answered reply whose record entry is present but is not a list (`"releases": {"a": 1}`) is excluded by a precondition. The source's store write then fails, and the key is still stamped with the entry's `len()`, after which the reply is returned with `cached: False`.
- CachedApi.Fetched: the same exclusion of a record entry that is not a list.
- Records.ObservationColumns: an observation item may name the `id` and `created_at` columns, and a release or series item its `created_at` and `updated_at`, since the constructors accept every mapped column. The model rejects such an item on insert and ignores those entries on update, because it keeps no observation row ids and takes timestamps from the clock.
- CacheStore.GetObservations: rows with equal dates come back in table order, one of the orders SQL allows; no contract relies on it.
