/** `get_release_observations_cached` (fred_api_cached.py): the release
    through the cached release-info fetcher, its series through the cached
    series fetcher, then one cached observations fetch per listed series,
    each against the store the previous fetches left. */
module CachedComposite {
  import opened Wrappers
  import opened JsonValues
  import opened Seqs
  import opened Records
  import opened CacheStore
  import opened Requests
  import opened Composite
  import opened CachedApi
  import opened CacheLaws

  // ---------------------------------------------------------------- shapes

  /** The listed series are dicts whose ids are strings. */
  predicate StringIds(items: seq<Json>) {
    forall i | 0 <= i < |items| :: items[i].JObj? && "id" in items[i].fields && items[i].fields["id"].JStr?
  }

  /** A series list the composite can iterate: `series_data['seriess']`
      is a list of dicts with string ids. */
  predicate HasSeriesIds(data: Object) {
    HasSeriesList(data) && StringIds(SeriesList(data))
  }

  function SeriesIdOf(item: Json): string
    requires item.JObj? && "id" in item.fields && item.fields["id"].JStr?
  {
    item.fields["id"].s
  }

  /** Whatever the series id, an observations reply for this limit lists
      its records. */
  ghost predicate ObservationsListed(c: Client, obsLimit: int) {
    forall sid: string :: ListedReply(Reply(c.api, Observations(sid, obsLimit, map[])).answer, "observations")
  }

  /** The remote replies the composite indexes into have the shapes it
      expects: a non-empty release list, a series list of dicts with string
      ids, and observations as lists. */
  ghost predicate RepliesShaped(c: Client, releaseId: int, seriesLimit: int, obsLimit: int) {
    && (Answered(Reply(c.api, ReleaseInfo(releaseId)).answer) ==>
          HasFirstRelease(Reply(c.api, ReleaseInfo(releaseId)).answer.value))
    && (Answered(Reply(c.api, ReleaseSeries(releaseId, seriesLimit)).answer) ==>
          HasSeriesIds(Reply(c.api, ReleaseSeries(releaseId, seriesLimit)).answer.value))
    && ObservationsListed(c, obsLimit)
  }

  // ----------------------------------------------------- per-fetch shapes

  /** What the release-info fetcher returns, from the cache or the remote,
      has a first release. */
  lemma InfoPayloadShaped(c: Client, st: Store, releaseId: int, force: bool, now: int)
    requires Valid(st)
    requires Answered(Reply(c.api, ReleaseInfo(releaseId)).answer) ==>
      HasFirstRelease(Reply(c.api, ReleaseInfo(releaseId)).answer.value)
    ensures var f := GetCached(c, st, ReleaseInfo(releaseId), force, now);
      f.payload.Some? ==> HasFirstRelease(f.payload.value)
  {
    var e := ReleaseInfo(releaseId);
    var f := GetCached(c, st, e, force, now);
    if !Hit(st, e, force, now) && f.payload.Some? {
      var data := Reply(c.api, e).answer.value;
      if WritesThrough(Reply(c.api, e).answer, "releases") {
        FetchedWritesThrough(c, st, e, now);
        assert data["releases" := JArr(data["releases"].items)] == data;
      }
    }
  }

  /** What the series fetcher returns, from the cache or the remote, lists
      dicts with string ids: a cached row's dict shows its id, and
      `store_series` only adds a release to the caller's dicts. */
  lemma SeriesPayloadShaped(c: Client, st: Store, releaseId: int, limit: int, force: bool, now: int)
    requires Valid(st)
    requires Answered(Reply(c.api, ReleaseSeries(releaseId, limit)).answer) ==>
      HasSeriesIds(Reply(c.api, ReleaseSeries(releaseId, limit)).answer.value)
    ensures var f := GetCached(c, st, ReleaseSeries(releaseId, limit), force, now);
      f.payload.Some? ==> HasSeriesIds(f.payload.value)
  {
    var e := ReleaseSeries(releaseId, limit);
    if Hit(st, e, force, now) {
      CachedSeriesShaped(st, releaseId, limit);
    } else if WritesThrough(Reply(c.api, e).answer, "seriess") {
      FetchedSeriesShaped(c, st, releaseId, limit, now);
    }
  }

  /** A cached series row's dict shows its id, a string. */
  lemma CachedSeriesShaped(st: Store, releaseId: int, limit: int)
    ensures StringIds(ObjectsToJson(CachedRows(st, ReleaseSeries(releaseId, limit))).items)
  {
    var rows := CachedRows(st, ReleaseSeries(releaseId, limit));
    var list := ObjectsToJson(rows).items;
    forall i | 0 <= i < |list|
      ensures list[i].JObj? && "id" in list[i].fields && list[i].fields["id"].JStr?
    {
      assert "id" in SeriesDictColumns;
    }
  }

  /** Written through, the series list keeps its string ids: the write
      leaves each dict as it was or adds its release. */
  lemma FetchedSeriesShaped(c: Client, st: Store, releaseId: int, limit: int, now: int)
    requires Valid(st)
    requires WritesThrough(Reply(c.api, ReleaseSeries(releaseId, limit)).answer, "seriess")
    requires HasSeriesIds(Reply(c.api, ReleaseSeries(releaseId, limit)).answer.value)
    ensures HasSeriesIds(Fetched(c, st, ReleaseSeries(releaseId, limit), now).payload.value)
  {
    var e := ReleaseSeries(releaseId, limit);
    FetchedWritesThrough(c, st, e, now);
    var records := RecordList(Reply(c.api, e).answer, "seriess");
    var w := WriteRecords(st, e, records, now, c.faults(CacheKey(e), DataWrite));
    TaggedKeepsIds(records, w.items, Some(releaseId));
  }

  /** Tagging series dicts with a release keeps their string ids. */
  lemma TaggedKeepsIds(records: seq<Json>, items: seq<Json>, releaseId: Option<int>)
    requires StringIds(records) && |items| == |records|
    requires forall j | 0 <= j < |records| :: items[j] == records[j] || items[j] == TaggedSeriesItem(records[j], releaseId)
    ensures StringIds(items)
  {
    forall j | 0 <= j < |items|
      ensures items[j].JObj? && "id" in items[j].fields && items[j].fields["id"].JStr?
    {
      if AssociatesRelease(releaseId) {
        assert "release_id" != "id";
      }
    }
  }

  /** An observations reply that arrives with observations. */
  predicate ObservationsArrive(c: Client, seriesId: string, obsLimit: int) {
    var reply := Reply(c.api, Observations(seriesId, obsLimit, map[])).answer;
    Answered(reply) && "observations" in reply.value
  }

  /** The observations fetcher returns observations whenever the remote
      would, and on a hit; under a forced refresh exactly when the remote
      does. */
  lemma ObservationsPayloadUsable(c: Client, st: Store, seriesId: string, obsLimit: int, force: bool, now: int)
    requires Valid(st) && ObservationsListed(c, obsLimit)
    ensures var f := GetCached(c, st, Observations(seriesId, obsLimit, map[]), force, now);
      && (Hit(st, Observations(seriesId, obsLimit, map[]), force, now) || ObservationsArrive(c, seriesId, obsLimit) ==> Usable(f.payload))
      && (force ==> (Usable(f.payload) <==> ObservationsArrive(c, seriesId, obsLimit)))
  {
    var e := Observations(seriesId, obsLimit, map[]);
    assert ListedReply(Reply(c.api, e).answer, "observations");
    if WritesThrough(Reply(c.api, e).answer, "observations") {
      FetchedWritesThrough(c, st, e, now);
    }
  }

  // --------------------------------------------------------------- fan-out

  /** The payloads of a run of fetches, the store they leave and the
      requests they make, in order. */
  datatype Threaded = Threaded(payloads: seq<Option<Object>>, store: Store, calls: seq<Call>)

  /** A fetcher, by series id, that can run on any consistent store and
      leaves one behind. */
  ghost predicate Threadable(fetch: (Store, string) --> Fetch) {
    forall s: Store, sid: string | Valid(s) :: fetch.requires(s, sid) && Valid(fetch(s, sid).store)
  }

  /** The loop over the series list: one fetch per series id, in list
      order, each on the store the previous one left. */
  function FanOut(fetch: (Store, string) --> Fetch, st: Store, ids: seq<string>): (r: Threaded)
    requires Valid(st) && Threadable(fetch)
    ensures Valid(r.store)
    ensures |r.payloads| == |ids|
    decreases |ids|
  {
    if |ids| == 0 then Threaded([], st, [])
    else
      var f := fetch(st, ids[0]);
      var rest := FanOut(fetch, f.store, ids[1..]);
      Threaded([f.payload] + rest.payloads, rest.store, f.calls + rest.calls)
  }

  /** The store the first `i` fetches of the loop leave. */
  function StoreAfter(fetch: (Store, string) --> Fetch, st: Store, ids: seq<string>, i: nat): (s: Store)
    requires Valid(st) && Threadable(fetch) && i <= |ids|
    ensures Valid(s)
  {
    FanOut(fetch, st, ids[..i]).store
  }

  /** The `i`-th payload is what the fetch of the `i`-th id returns on the
      store the fetches before it left. */
  lemma {:induction false} FanOutPayloadAt(fetch: (Store, string) --> Fetch, st: Store, ids: seq<string>, i: nat)
    requires Valid(st) && Threadable(fetch) && i < |ids|
    ensures FanOut(fetch, st, ids).payloads[i] == fetch(StoreAfter(fetch, st, ids, i), ids[i]).payload
    decreases i
  {
    if i == 0 {
      assert ids[..0] == [];
    } else {
      var f := fetch(st, ids[0]);
      FanOutPayloadAt(fetch, f.store, ids[1..], i - 1);
      assert ids[..i][0] == ids[0] && ids[..i][1..] == ids[1..][..i - 1];
      assert ids[1..][i - 1] == ids[i];
    }
  }

  /** When every fetch makes exactly the request its id names, the loop
      makes those requests, one per id, in list order. */
  lemma {:induction false} FanOutCalls(fetch: (Store, string) --> Fetch, st: Store, ids: seq<string>, call: string -> Call)
    requires Valid(st) && Threadable(fetch)
    requires forall s: Store, sid: string | Valid(s) :: fetch(s, sid).calls == [call(sid)]
    ensures |FanOut(fetch, st, ids).calls| == |ids|
    ensures forall i | 0 <= i < |ids| :: FanOut(fetch, st, ids).calls[i] == call(ids[i])
    decreases |ids|
  {
    if |ids| > 0 {
      var f := fetch(st, ids[0]);
      FanOutCalls(fetch, f.store, ids[1..], call);
      var calls := FanOut(fetch, st, ids).calls;
      assert calls == [call(ids[0])] + FanOut(fetch, f.store, ids[1..]).calls;
      forall i | 1 <= i < |ids|
        ensures calls[i] == call(ids[i])
      {
        assert ids[1..][i - 1] == ids[i];
      }
    }
  }

  // ------------------------------------------------------ observations loop

  /** `get_series_observations_cached(series_id, obs_limit, force_refresh)`
      as the composite's loop calls it: no date filters. */
  function ObservationsFetcher(c: Client, obsLimit: int, force: bool, now: int): (Store, string) --> Fetch
    requires ObservationsListed(c, obsLimit)
  {
    (s: Store, sid: string) requires Valid(s) => GetCached(c, s, Observations(sid, obsLimit, map[]), force, now)
  }

  lemma ObservationsFetcherThreadable(c: Client, obsLimit: int, force: bool, now: int)
    requires ObservationsListed(c, obsLimit)
    ensures Threadable(ObservationsFetcher(c, obsLimit, force, now))
  {
  }

  /** The ids of the listed series. */
  function SeriesIds(items: seq<Json>): (ids: seq<string>)
    requires StringIds(items)
    ensures |ids| == |items|
    ensures forall i | 0 <= i < |items| :: ids[i] == SeriesIdOf(items[i])
  {
    seq(|items|, i requires 0 <= i < |items| => SeriesIdOf(items[i]))
  }

  /** A series whose remote reply carries observations gets observations,
      from the cache or the remote; under a forced refresh it gets them
      exactly when the remote supplies them. */
  lemma ObservationsLoopArrivals(c: Client, st: Store, ids: seq<string>, obsLimit: int, force: bool, now: int)
    requires Valid(st) && ObservationsListed(c, obsLimit)
    ensures Threadable(ObservationsFetcher(c, obsLimit, force, now))
    ensures var r := FanOut(ObservationsFetcher(c, obsLimit, force, now), st, ids);
      && (forall i | 0 <= i < |ids| :: ObservationsArrive(c, ids[i], obsLimit) ==> Usable(r.payloads[i]))
      && (force ==> forall i | 0 <= i < |ids| :: Usable(r.payloads[i]) <==> ObservationsArrive(c, ids[i], obsLimit))
  {
    var fetch := ObservationsFetcher(c, obsLimit, force, now);
    ObservationsFetcherThreadable(c, obsLimit, force, now);
    forall i | 0 <= i < |ids|
      ensures ObservationsArrive(c, ids[i], obsLimit) ==> Usable(FanOut(fetch, st, ids).payloads[i])
      ensures force ==> (Usable(FanOut(fetch, st, ids).payloads[i]) <==> ObservationsArrive(c, ids[i], obsLimit))
    {
      FanOutPayloadAt(fetch, st, ids, i);
      ObservationsPayloadUsable(c, StoreAfter(fetch, st, ids, i), ids[i], obsLimit, force, now);
    }
  }

  /** The observations requests for a list of series ids, in order. */
  function ObservationsCalls(c: Client, ids: seq<string>, obsLimit: int): (calls: seq<Call>)
    ensures |calls| == |ids|
    ensures forall i | 0 <= i < |ids| :: calls[i] == Reply(c.api, Observations(ids[i], obsLimit, map[])).call
  {
    seq(|ids|, i requires 0 <= i < |ids| => Reply(c.api, Observations(ids[i], obsLimit, map[])).call)
  }

  /** Under a forced refresh the loop asks the remote once per series, in
      list order. */
  lemma ObservationsLoopForcedCalls(c: Client, st: Store, ids: seq<string>, obsLimit: int, now: int)
    requires Valid(st) && ObservationsListed(c, obsLimit)
    ensures Threadable(ObservationsFetcher(c, obsLimit, true, now))
    ensures FanOut(ObservationsFetcher(c, obsLimit, true, now), st, ids).calls == ObservationsCalls(c, ids, obsLimit)
  {
    ObservationsFetcherThreadable(c, obsLimit, true, now);
    var call := (sid: string) => Reply(c.api, Observations(sid, obsLimit, map[])).call;
    FanOutCalls(ObservationsFetcher(c, obsLimit, true, now), st, ids, call);
  }

  // ------------------------------------------------------------- composite

  /** A fetcher that can run on any consistent store and leaves one
      behind. */
  ghost predicate Staged(fetch: Store --> Fetch) {
    forall s: Store {:trigger fetch.requires(s)} | Valid(s) :: fetch.requires(s) && Valid(fetch(s).store)
  }

  /** Whatever it returns has a first release. */
  ghost predicate GivesRelease(fetch: Store --> Fetch) {
    forall s: Store {:trigger fetch.requires(s)} | Valid(s) && fetch.requires(s) ::
      fetch(s).payload.Some? ==> HasFirstRelease(fetch(s).payload.value)
  }

  /** Whatever it returns lists dicts with string ids. */
  ghost predicate GivesSeriesIds(fetch: Store --> Fetch) {
    forall s: Store {:trigger fetch.requires(s)} | Valid(s) && fetch.requires(s) ::
      fetch(s).payload.Some? ==> HasSeriesIds(fetch(s).payload.value)
  }

  /** The composite's outcome: its result, the store afterwards and the
      requests it made, in order. */
  datatype Composed = Composed(result: Option<ReleaseObservations>, store: Store, calls: seq<Call>)

  /** The composite over its three fetchers: the release, then its series
      list, then the observations of each listed series, each on the store
      the previous stage left. Nothing unless both the release and the
      series list are returned; otherwise the first release, the series
      that received observations in list order, and metadata carrying the
      series list's `cached` flag. */
  function Combine(info: Store --> Fetch, series: Store --> Fetch, obs: (Store, string) --> Fetch,
                   st: Store, obsLimit: int): (r: Composed)
    requires Valid(st) && Staged(info) && Staged(series) && Threadable(obs)
    requires GivesRelease(info) && GivesSeriesIds(series)
    ensures Valid(r.store)
    ensures r.result.Some? <==> info(st).payload.Some? && series(info(st).store).payload.Some?
    ensures info(st).payload.None? ==> r.store == info(st).store && r.calls == info(st).calls
    ensures info(st).payload.Some? && series(info(st).store).payload.None? ==>
      r.store == series(info(st).store).store && r.calls == info(st).calls + series(info(st).store).calls
    ensures r.result.Some? ==>
      var i := info(st);
      var s := series(i.store);
      var items := SeriesList(s.payload.value);
      var fan := FanOut(obs, s.store, SeriesIds(items));
      && r.result.value.release == FirstRelease(i.payload.value)
      && r.result.value.metadata == MetadataOf(s.payload.value, obsLimit, true)
      && SelectedInOrder(items, fan.payloads, r.result.value.series, true)
      && r.store == fan.store
      && r.calls == i.calls + s.calls + fan.calls
  {
    var i := info(st);
    if i.payload.None? then Composed(None, i.store, i.calls)
    else
      var s := series(i.store);
      if s.payload.None? then Composed(None, s.store, i.calls + s.calls)
      else
        var fan := FanOut(obs, s.store, SeriesIds(SeriesList(s.payload.value)));
        var result := Assemble(i.payload.value, s.payload.value, fan.payloads, obsLimit, true);
        Composed(Some(result), fan.store, i.calls + s.calls + fan.calls)
  }

  /** `get_release_info_cached(release_id, force_refresh)`. */
  function InfoFetcher(c: Client, releaseId: int, force: bool, now: int): Store --> Fetch
    requires ListedReply(Reply(c.api, ReleaseInfo(releaseId)).answer, "releases")
  {
    (s: Store) requires Valid(s) => GetCached(c, s, ReleaseInfo(releaseId), force, now)
  }

  /** `get_release_series_cached(release_id, series_limit, force_refresh)`. */
  function SeriesFetcher(c: Client, releaseId: int, seriesLimit: int, force: bool, now: int): Store --> Fetch
    requires ListedReply(Reply(c.api, ReleaseSeries(releaseId, seriesLimit)).answer, "seriess")
  {
    (s: Store) requires Valid(s) => GetCached(c, s, ReleaseSeries(releaseId, seriesLimit), force, now)
  }

  lemma InfoFetcherGivesRelease(c: Client, releaseId: int, force: bool, now: int)
    requires Answered(Reply(c.api, ReleaseInfo(releaseId)).answer) ==>
      HasFirstRelease(Reply(c.api, ReleaseInfo(releaseId)).answer.value)
    ensures Staged(InfoFetcher(c, releaseId, force, now)) && GivesRelease(InfoFetcher(c, releaseId, force, now))
  {
    forall s: Store | Valid(s)
      ensures var f := GetCached(c, s, ReleaseInfo(releaseId), force, now);
        f.payload.Some? ==> HasFirstRelease(f.payload.value)
    {
      InfoPayloadShaped(c, s, releaseId, force, now);
    }
  }

  lemma SeriesFetcherGivesIds(c: Client, releaseId: int, seriesLimit: int, force: bool, now: int)
    requires Answered(Reply(c.api, ReleaseSeries(releaseId, seriesLimit)).answer) ==>
      HasSeriesIds(Reply(c.api, ReleaseSeries(releaseId, seriesLimit)).answer.value)
    ensures Staged(SeriesFetcher(c, releaseId, seriesLimit, force, now))
    ensures GivesSeriesIds(SeriesFetcher(c, releaseId, seriesLimit, force, now))
  {
    forall s: Store | Valid(s)
      ensures var f := GetCached(c, s, ReleaseSeries(releaseId, seriesLimit), force, now);
        f.payload.Some? ==> HasSeriesIds(f.payload.value)
    {
      SeriesPayloadShaped(c, s, releaseId, seriesLimit, force, now);
    }
  }

  /** `get_release_observations_cached(release_id, series_limit,
      obs_limit, force_refresh)`: the composite over the three cached
      fetchers. */
  function GetReleaseObservationsCached(c: Client, st: Store, releaseId: int, seriesLimit: int, obsLimit: int,
                                        force: bool, now: int): (r: Composed)
    requires Valid(st) && RepliesShaped(c, releaseId, seriesLimit, obsLimit)
    ensures Valid(r.store)
    ensures var info := GetCached(c, st, ReleaseInfo(releaseId), force, now);
      var series := GetCached(c, info.store, ReleaseSeries(releaseId, seriesLimit), force, now);
      && (r.result.Some? <==> info.payload.Some? && series.payload.Some?)
      && (info.payload.None? ==> r == Composed(None, info.store, info.calls))
      && (info.payload.Some? && series.payload.None? ==> r == Composed(None, series.store, info.calls + series.calls))
  {
    InfoFetcherGivesRelease(c, releaseId, force, now);
    SeriesFetcherGivesIds(c, releaseId, seriesLimit, force, now);
    ObservationsFetcherThreadable(c, obsLimit, force, now);
    Combine(InfoFetcher(c, releaseId, force, now), SeriesFetcher(c, releaseId, seriesLimit, force, now),
            ObservationsFetcher(c, obsLimit, force, now), st, obsLimit)
  }

  /** The composite's result: the first release of the release-info
      payload, metadata from the series payload, and the series that
      received observations, an order-preserving selection of the series
      list by the observations loop's payloads (which
      `ObservationsLoopArrivals` relates to the remote's replies). The store
      and the requests are those of the three stages in turn. */
  lemma CachedCompositeSelects(c: Client, st: Store, releaseId: int, seriesLimit: int, obsLimit: int,
                               force: bool, now: int)
    requires Valid(st) && RepliesShaped(c, releaseId, seriesLimit, obsLimit)
    ensures var r := GetReleaseObservationsCached(c, st, releaseId, seriesLimit, obsLimit, force, now);
      var info := GetCached(c, st, ReleaseInfo(releaseId), force, now);
      var series := GetCached(c, info.store, ReleaseSeries(releaseId, seriesLimit), force, now);
      r.result.Some? ==>
        && HasFirstRelease(info.payload.value) && HasSeriesIds(series.payload.value)
        && Threadable(ObservationsFetcher(c, obsLimit, force, now))
        && var items := SeriesList(series.payload.value);
           var fan := FanOut(ObservationsFetcher(c, obsLimit, force, now), series.store, SeriesIds(items));
           && r.result.value.release == FirstRelease(info.payload.value)
           && r.result.value.metadata == MetadataOf(series.payload.value, obsLimit, true)
           && SelectedInOrder(items, fan.payloads, r.result.value.series, true)
           && r.store == fan.store
           && r.calls == info.calls + series.calls + fan.calls
  {
    InfoFetcherGivesRelease(c, releaseId, force, now);
    SeriesFetcherGivesIds(c, releaseId, seriesLimit, force, now);
    ObservationsFetcherThreadable(c, obsLimit, force, now);
    var info := GetCached(c, st, ReleaseInfo(releaseId), force, now);
    assert InfoFetcher(c, releaseId, force, now)(st) == info;
    var series := GetCached(c, info.store, ReleaseSeries(releaseId, seriesLimit), force, now);
    assert SeriesFetcher(c, releaseId, seriesLimit, force, now)(info.store) == series;
    SeriesPayloadShaped(c, info.store, releaseId, seriesLimit, force, now);
  }

  /** The flags of a series list: from the cache it is marked cached and
      its `count` is the number of rows read; from the remote it is marked
      not cached. */
  lemma SeriesPayloadFlags(c: Client, st: Store, releaseId: int, limit: int, force: bool, now: int)
    requires Valid(st)
    requires Answered(Reply(c.api, ReleaseSeries(releaseId, limit)).answer) ==>
      HasSeriesIds(Reply(c.api, ReleaseSeries(releaseId, limit)).answer.value)
    ensures var f := GetCached(c, st, ReleaseSeries(releaseId, limit), force, now);
      f.payload.Some? ==>
        && HasSeriesIds(f.payload.value)
        && (Hit(st, ReleaseSeries(releaseId, limit), force, now) ==>
              && GetOr(f.payload.value, "cached", JBool(false)) == JBool(true)
              && GetOr(f.payload.value, "count", JInt(0)) == JInt(|SeriesList(f.payload.value)|))
        && (!Hit(st, ReleaseSeries(releaseId, limit), force, now) ==>
              GetOr(f.payload.value, "cached", JBool(false)) == JBool(false))
  {
    var e := ReleaseSeries(releaseId, limit);
    SeriesPayloadShaped(c, st, releaseId, limit, force, now);
    if !Hit(st, e, force, now) && WritesThrough(Reply(c.api, e).answer, "seriess") {
      FetchedWritesThrough(c, st, e, now);
    }
  }

  /** When the series list comes from the cache, the composite's metadata
      says so, and its `total_series_in_release` is the number of cached
      rows read rather than the release's own total; a list from the remote
      is marked not cached. */
  lemma CachedCompositeMetadata(c: Client, st: Store, releaseId: int, seriesLimit: int, obsLimit: int,
                                force: bool, now: int)
    requires Valid(st) && RepliesShaped(c, releaseId, seriesLimit, obsLimit)
    ensures var r := GetReleaseObservationsCached(c, st, releaseId, seriesLimit, obsLimit, force, now);
      var info := GetCached(c, st, ReleaseInfo(releaseId), force, now);
      r.result.Some? ==>
        && (Hit(info.store, ReleaseSeries(releaseId, seriesLimit), force, now) ==>
              && r.result.value.metadata.cached == Some(JBool(true))
              && r.result.value.metadata.totalSeriesInRelease == JInt(r.result.value.metadata.seriesReturned))
        && (!Hit(info.store, ReleaseSeries(releaseId, seriesLimit), force, now) ==>
              r.result.value.metadata.cached == Some(JBool(false)))
  {
    CachedCompositeSelects(c, st, releaseId, seriesLimit, obsLimit, force, now);
    var info := GetCached(c, st, ReleaseInfo(releaseId), force, now);
    SeriesPayloadFlags(c, info.store, releaseId, seriesLimit, force, now);
  }

  /** A forced refresh asks the remote for the release first, and stops
      there when the release does not arrive, or after asking for its
      series when the list does not. */
  lemma CachedCompositeForcedEarlyCalls(c: Client, st: Store, releaseId: int, seriesLimit: int, obsLimit: int, now: int)
    requires Valid(st) && RepliesShaped(c, releaseId, seriesLimit, obsLimit)
    ensures var r := GetReleaseObservationsCached(c, st, releaseId, seriesLimit, obsLimit, true, now);
      var info := GetCached(c, st, ReleaseInfo(releaseId), true, now);
      var series := GetCached(c, info.store, ReleaseSeries(releaseId, seriesLimit), true, now);
      && (info.payload.None? ==> r.calls == [Reply(c.api, ReleaseInfo(releaseId)).call])
      && (info.payload.Some? && series.payload.None? ==>
            r.calls == [Reply(c.api, ReleaseInfo(releaseId)).call, Reply(c.api, ReleaseSeries(releaseId, seriesLimit)).call])
  {
    if GetCached(c, st, ReleaseInfo(releaseId), true, now).payload.None? {
      ForcedRefreshAsks(c, st, ReleaseInfo(releaseId), now);
    } else {
      ForcedStagesCalls(c, st, releaseId, seriesLimit, obsLimit, now);
    }
  }

  /** Forced, the release and series stages ask the remote once each. */
  lemma ForcedStagesCalls(c: Client, st: Store, releaseId: int, seriesLimit: int, obsLimit: int, now: int)
    requires Valid(st) && RepliesShaped(c, releaseId, seriesLimit, obsLimit)
    ensures var info := GetCached(c, st, ReleaseInfo(releaseId), true, now);
      GetCached(c, st, ReleaseInfo(releaseId), true, now).calls
        + GetCached(c, info.store, ReleaseSeries(releaseId, seriesLimit), true, now).calls
      == [Reply(c.api, ReleaseInfo(releaseId)).call, Reply(c.api, ReleaseSeries(releaseId, seriesLimit)).call]
  {
    var info := GetCached(c, st, ReleaseInfo(releaseId), true, now);
    ForcedRefreshAsks(c, st, ReleaseInfo(releaseId), now);
    ForcedRefreshAsks(c, info.store, ReleaseSeries(releaseId, seriesLimit), now);
  }

  /** When both the release and its series list arrive, a forced refresh
      asks the remote for the release, its series, and each listed series'
      observations, in list order. */
  lemma CachedCompositeForcedCalls(c: Client, st: Store, releaseId: int, seriesLimit: int, obsLimit: int, now: int)
    requires Valid(st) && RepliesShaped(c, releaseId, seriesLimit, obsLimit)
    ensures var r := GetReleaseObservationsCached(c, st, releaseId, seriesLimit, obsLimit, true, now);
      var info := GetCached(c, st, ReleaseInfo(releaseId), true, now);
      var series := GetCached(c, info.store, ReleaseSeries(releaseId, seriesLimit), true, now);
      r.result.Some? ==>
        && HasSeriesIds(series.payload.value)
        && r.calls == [Reply(c.api, ReleaseInfo(releaseId)).call, Reply(c.api, ReleaseSeries(releaseId, seriesLimit)).call]
                      + ObservationsCalls(c, SeriesIds(SeriesList(series.payload.value)), obsLimit)
  {
    CachedCompositeSelects(c, st, releaseId, seriesLimit, obsLimit, true, now);
    var info := GetCached(c, st, ReleaseInfo(releaseId), true, now);
    var series := GetCached(c, info.store, ReleaseSeries(releaseId, seriesLimit), true, now);
    if info.payload.Some? && series.payload.Some? {
      ForcedStagesCalls(c, st, releaseId, seriesLimit, obsLimit, now);
      ObservationsLoopForcedCalls(c, series.store, SeriesIds(SeriesList(series.payload.value)), obsLimit, now);
    }
  }
}
