/** Laws of the cached client over several calls: what a miss leaves for
    the next call, what a failed write leaves, and where the cache answers
    for a request other than the one it stored. */
module CacheLaws {
  import opened Wrappers
  import opened JsonValues
  import opened Seqs
  import opened Records
  import opened CacheStore
  import opened StoreLaws
  import opened CacheKeys
  import opened Requests
  import opened CachedApi

  /** The number of rows the cached path asks the store for. */
  function ReadLimit(e: Endpoint): int {
    match e
    case Releases(limit) => limit
    case ReleaseInfo(_) => 1
    case ReleaseSeries(_, limit) => limit
    case Observations(_, limit, _) => limit
  }

  /** The one day a stamped key stays fresh. */
  const Day: int := DefaultTtlHours * SecondsPerHour

  // ---------------------------------------------------------- cached reads

  /** The cached read depends on the tables only, not on the metadata. */
  lemma CachedRowsReadTables(s1: Store, s2: Store, e: Endpoint)
    requires s1.releases == s2.releases && s1.series == s2.series && s1.observations == s2.observations
    ensures CachedRows(s1, e) == CachedRows(s2, e)
  {
  }

  /** The cached read returns up to the limit's worth of the endpoint's
      rows, as dicts: the releases with the smallest ids, the release's
      series (all series when the release id is 0), the series' latest
      observations; release info returns the table's first row, the
      smallest id, or nothing. */
  lemma CachedRowsFromTables(st: Store, e: Endpoint)
    ensures e.Releases? ==>
      && |CachedRows(st, e)| == LimitCount(e.limit, |st.releases|)
      && forall i | 0 <= i < |CachedRows(st, e)| :: CachedRows(st, e)[i] == ReleaseToDict(st.releases[i])
    ensures e.ReleaseInfo? ==>
      && |CachedRows(st, e)| <= 1
      && (|CachedRows(st, e)| == 1 <==> |st.releases| > 0 && st.releases[0].id == e.releaseId)
      && (|CachedRows(st, e)| == 1 ==> CachedRows(st, e)[0] == ReleaseToDict(st.releases[0]))
    ensures e.ReleaseSeries? && e.releaseId != 0 ==>
      |CachedRows(st, e)| == LimitCount(e.limit, |SeriesOfRelease(st.series, e.releaseId)|)
    ensures e.ReleaseSeries? && e.releaseId == 0 ==>
      |CachedRows(st, e)| == LimitCount(e.limit, |st.series|)
    ensures e.ReleaseSeries? ==>
      forall i | 0 <= i < |CachedRows(st, e)| :: CachedRows(st, e)[i] == SeriesToDict(GetSeries(st, Some(e.releaseId), e.limit)[i])
    ensures e.Observations? ==>
      && |CachedRows(st, e)| == LimitCount(e.limit, |RowsOf(st.observations, e.seriesId)|)
      && forall i | 0 <= i < |CachedRows(st, e)| ::
           CachedRows(st, e)[i] == ObservationToDict(GetObservations(st, e.seriesId, e.limit)[i])
  {
    match e
    case Releases(limit) =>
      var r := GetReleases(st, limit);
      assert r == st.releases[..|r|];
    case ReleaseInfo(rid) =>
      var r := GetReleases(st, 1);
      assert r == st.releases[..|r|];
    case ReleaseSeries(rid, limit) =>
    case Observations(sid, limit, _) =>
  }

  // ------------------------------------------------------ after a miss

  /** A successful write of a non-empty list is read back: the cached read
      is not empty unless its limit is 0. */
  lemma WrittenRowsReadBack(st: Store, e: Endpoint, records: seq<Json>, now: int)
    requires Valid(st) && !e.ReleaseInfo? && |records| > 0 && ReadLimit(e) != 0
    requires WriteRecords(st, e, records, now, false).ok
    ensures |CachedRows(WriteRecords(st, e, records, now, false).store, e)| > 0
  {
    var w := WriteRecords(st, e, records, now, false);
    CachedRowsFromTables(w.store, e);
    match e
    case Releases(limit) => ReleasesReadBack(st, records, now);
    case ReleaseSeries(rid, limit) => SeriesReadBack(st, records, rid, now);
    case Observations(sid, limit, _) =>
  }

  lemma ReleasesReadBack(st: Store, records: seq<Json>, now: int)
    requires Valid(st) && |records| > 0
    requires StoreReleases(st, records, now, false).ok
    ensures |StoreReleases(st, records, now, false).store.releases| > 0
  {
    var w := StoreReleases(st, records, now, false);
    assert LookupRelease(w.store.releases, ReleaseItemId(records[0]).value).Some?;
  }

  lemma SeriesReadBack(st: Store, records: seq<Json>, releaseId: int, now: int)
    requires Valid(st) && |records| > 0
    requires StoreSeries(st, records, Some(releaseId), now, false).ok
    ensures var out := StoreSeries(st, records, Some(releaseId), now, false).store.series;
      if releaseId != 0 then |SeriesOfRelease(out, releaseId)| > 0 else |out| > 0
  {
    var out := UpsertSeriesBatch(st.series, records, Some(releaseId), now).rows.value;
    assert StoreSeries(st, records, Some(releaseId), now, false).store.series == out;
    if releaseId != 0 {
      SeriesBatchAssociated(st.series, records, Some(releaseId), now);
      var row := LookupSeries(out, SeriesItemId(records[0]).value).value;
      assert row in out;
    } else {
      assert LookupSeries(out, SeriesItemId(records[0]).value).Some?;
    }
  }

  /** After a miss that writes its records through without a fault, the
      next call, unforced and within a day, is served from the cache
      without a request. Release info is left out: see
      `ReleaseInfoRepeatMisses`. */
  lemma HitAfterMiss(c: Client, st: Store, e: Endpoint, force: bool, now: int, t: int)
    requires Valid(st)
    requires ListedReply(Reply(c.api, e).answer, ListKey(e))
    requires WritesThrough(Reply(c.api, e).answer, ListKey(e))
    requires !c.faults(CacheKey(e), DataWrite) && !c.faults(CacheKey(e), MetadataWrite)
    requires WriteRecords(st, e, RecordList(Reply(c.api, e).answer, ListKey(e)), now, false).ok
    requires !e.ReleaseInfo? && ReadLimit(e) != 0
    requires !Hit(st, e, force, now)
    requires t < now + Day
    ensures var f := GetCached(c, st, e, force, now);
      && Hit(f.store, e, false, t)
      && GetCached(c, f.store, e, false, t).calls == []
      && GetCached(c, f.store, e, false, t).store == f.store
  {
    var records := RecordList(Reply(c.api, e).answer, ListKey(e));
    var w := WriteRecords(st, e, records, now, false);
    var f := Fetched(c, st, e, now);
    FetchedWritesThrough(c, st, e, now);
    WrittenRowsReadBack(st, e, records, now);
    CachedRowsReadTables(f.store, w.store, e);
  }

  /** The key is stamped whatever the data write reported: it is fresh
      for exactly one day from `now`, counts the records (1 for release
      info), and no other key changes. */
  lemma StampedAfterMiss(c: Client, st: Store, e: Endpoint, now: int, t: int)
    requires Valid(st)
    requires ListedReply(Reply(c.api, e).answer, ListKey(e))
    requires WritesThrough(Reply(c.api, e).answer, ListKey(e))
    requires !c.faults(CacheKey(e), MetadataWrite)
    ensures var f := Fetched(c, st, e, now);
      var records := RecordList(Reply(c.api, e).answer, ListKey(e));
      && (IsCacheValid(f.store, CacheKey(e), t) <==> t < now + Day)
      && f.store.meta[CacheKey(e)].lastFetched == now
      && f.store.meta[CacheKey(e)].dataCount == (if e.ReleaseInfo? then 1 else |records|)
      && f.store.meta.Keys == st.meta.Keys + {CacheKey(e)}
      && forall k | k in st.meta && k != CacheKey(e) :: f.store.meta[k] == st.meta[k]
  {
    FetchedWritesThrough(c, st, e, now);
  }

  /** When the data write fails but the stamp lands, the tables are as
      before and for a day the fetcher serves what the cache held before
      the miss, without asking the remote, whenever that read is not
      empty. */
  lemma StaleRowsAfterFailedWrite(c: Client, st: Store, e: Endpoint, now: int, t: int)
    requires Valid(st)
    requires ListedReply(Reply(c.api, e).answer, ListKey(e))
    requires WritesThrough(Reply(c.api, e).answer, ListKey(e))
    requires !c.faults(CacheKey(e), MetadataWrite)
    requires !WriteRecords(st, e, RecordList(Reply(c.api, e).answer, ListKey(e)), now, c.faults(CacheKey(e), DataWrite)).ok
    requires t < now + Day
    ensures var f := Fetched(c, st, e, now);
      && f.store.releases == st.releases && f.store.series == st.series && f.store.observations == st.observations
      && CachedRows(f.store, e) == CachedRows(st, e)
      && (|CachedRows(st, e)| > 0 ==>
            GetCached(c, f.store, e, false, t) == Fetch(Some(CachedPayload(e, CachedRows(st, e))), f.store, []))
  {
    var f := Fetched(c, st, e, now);
    FetchedWritesThrough(c, st, e, now);
    CachedRowsReadTables(f.store, st, e);
  }

  /** A forced refresh always asks the remote, exactly once. */
  lemma ForcedRefreshAsks(c: Client, st: Store, e: Endpoint, now: int)
    requires Valid(st)
    requires ListedReply(Reply(c.api, e).answer, ListKey(e))
    ensures GetCached(c, st, e, true, now).calls == [Reply(c.api, e).call]
  {
  }

  // ------------------------------------------------------------ release info

  /** The release table a release-info miss leaves: as it was, or the
      committed upsert of the reply's records. */
  lemma ReleaseInfoFetchedTable(c: Client, st: Store, releaseId: int, now: int)
    requires Valid(st)
    requires ListedReply(Reply(c.api, ReleaseInfo(releaseId)).answer, "releases")
    ensures var f := Fetched(c, st, ReleaseInfo(releaseId), now);
      || f.store.releases == st.releases
      || (&& WritesThrough(Reply(c.api, ReleaseInfo(releaseId)).answer, "releases")
          && var records := RecordList(Reply(c.api, ReleaseInfo(releaseId)).answer, "releases");
          && UpsertReleases(st.releases, records, now).Some?
          && f.store.releases == UpsertReleases(st.releases, records, now).value)
  {
    var e := ReleaseInfo(releaseId);
    if WritesThrough(Reply(c.api, e).answer, "releases") {
      FetchedWritesThrough(c, st, e, now);
    }
  }

  /** The release-info read is empty while the first row is another
      release. */
  lemma ReleaseInfoReadMisses(st: Store, releaseId: int)
    requires |st.releases| > 0 && st.releases[0].id != releaseId
    ensures CachedRows(st, ReleaseInfo(releaseId)) == []
  {
    CachedRowsFromTables(st, ReleaseInfo(releaseId));
  }

  /** The release-info cache only ever looks at the table's first row,
      which holds the smallest stored id, and a write never makes that id
      larger: while a smaller id than this release's is stored, every call
      for this release asks the remote, however often it is repeated and
      whatever the replies write. */
  lemma ReleaseInfoRepeatMisses(c: Client, st: Store, releaseId: int, force: bool, now: int, t: int)
    requires Valid(st)
    requires ListedReply(Reply(c.api, ReleaseInfo(releaseId)).answer, "releases")
    requires |st.releases| > 0 && st.releases[0].id < releaseId
    ensures var f := GetCached(c, st, ReleaseInfo(releaseId), force, now);
      && f.calls == [Reply(c.api, ReleaseInfo(releaseId)).call]
      && |f.store.releases| > 0 && f.store.releases[0].id <= st.releases[0].id
      && GetCached(c, f.store, ReleaseInfo(releaseId), false, t).calls == [Reply(c.api, ReleaseInfo(releaseId)).call]
  {
    var e := ReleaseInfo(releaseId);
    ReleaseInfoReadMisses(st, releaseId);
    var f := Fetched(c, st, e, now);
    ReleaseInfoFetchedTable(c, st, releaseId, now);
    if f.store.releases != st.releases {
      UpsertReleasesLeastFirst(st.releases, RecordList(Reply(c.api, e).answer, "releases"), now);
    }
    ReleaseInfoReadMisses(f.store, releaseId);
  }

  /** The release-info cache does serve a release whose id is the smallest
      the table holds: when no smaller id is stored, and a miss writes
      through without a fault a reply holding this release and no smaller
      id, the next call, unforced and within a day, is that release's row
      from the cache, without a request. */
  lemma ReleaseInfoHitAfterMiss(c: Client, st: Store, releaseId: int, force: bool, now: int, t: int)
    requires Valid(st)
    requires ListedReply(Reply(c.api, ReleaseInfo(releaseId)).answer, "releases")
    requires WritesThrough(Reply(c.api, ReleaseInfo(releaseId)).answer, "releases")
    requires !c.faults(CacheKey(ReleaseInfo(releaseId)), DataWrite) && !c.faults(CacheKey(ReleaseInfo(releaseId)), MetadataWrite)
    requires var records := RecordList(Reply(c.api, ReleaseInfo(releaseId)).answer, "releases");
      && StoreReleases(st, records, now, false).ok
      && InReleaseBatch(records, releaseId)
      && forall j | 0 <= j < |records| :: ReleaseItemId(records[j]).Some? && ReleaseItemId(records[j]).value >= releaseId
    requires forall j | 0 <= j < |st.releases| :: st.releases[j].id >= releaseId
    requires !Hit(st, ReleaseInfo(releaseId), force, now)
    requires t < now + Day
    ensures var f := GetCached(c, st, ReleaseInfo(releaseId), force, now);
      && |f.store.releases| > 0 && f.store.releases[0].id == releaseId
      && GetCached(c, f.store, ReleaseInfo(releaseId), false, t).calls == []
      && GetCached(c, f.store, ReleaseInfo(releaseId), false, t).payload ==
         Some(CachedPayload(ReleaseInfo(releaseId), [ReleaseToDict(LookupRelease(f.store.releases, releaseId).value)]))
  {
    var e := ReleaseInfo(releaseId);
    var records := RecordList(Reply(c.api, e).answer, "releases");
    var f := Fetched(c, st, e, now);
    FetchedWritesThrough(c, st, e, now);
    var out := UpsertReleases(st.releases, records, now).value;
    assert f.store.releases == out;
    LeastReleaseFirst(st.releases, records, releaseId, now);
    ReleaseInfoReadHits(f.store, releaseId);
  }

  /** The release-info read is the first row when that row is the
      release. */
  lemma ReleaseInfoReadHits(st: Store, releaseId: int)
    requires ReleaseTable(st.releases)
    requires |st.releases| > 0 && st.releases[0].id == releaseId
    ensures CachedRows(st, ReleaseInfo(releaseId)) == [ReleaseToDict(LookupRelease(st.releases, releaseId).value)]
  {
    CachedRowsFromTables(st, ReleaseInfo(releaseId));
    LookupReleaseAt(st.releases, 0);
  }

  /** The upsert of a batch that holds `releaseId` and no smaller id, over
      a table with no smaller id, puts that release first. */
  lemma LeastReleaseFirst(rows: seq<Release>, batch: seq<Json>, releaseId: int, now: int)
    requires ReleaseTable(rows) && UpsertReleases(rows, batch, now).Some?
    requires InReleaseBatch(batch, releaseId)
    requires forall j | 0 <= j < |batch| :: ReleaseItemId(batch[j]).Some? && ReleaseItemId(batch[j]).value >= releaseId
    requires forall j | 0 <= j < |rows| :: rows[j].id >= releaseId
    ensures var out := UpsertReleases(rows, batch, now).value;
      |out| > 0 && out[0].id == releaseId
  {
    var out := UpsertReleases(rows, batch, now).value;
    UpsertReleasesLeastFirst(rows, batch, now);
    var k :| 0 <= k < |batch| && ReleaseItemId(batch[k]) == Some(releaseId);
  }

  // ------------------------------------------------------------ observations

  /** Requests that differ only in their realtime filters share a key, so
      the cache answers one with what it holds for the other: whichever is
      served from the cache, both are, with the same listing, although the
      remote would be asked for different windows. */
  lemma RealtimeFiltersShareCache(c: Client, st: Store, seriesId: string, limit: int, kwargs: map<string, string>,
                                  start: string, end: string, now: int)
    requires Valid(st)
    requires ListedReply(Reply(c.api, Observations(seriesId, limit, kwargs)).answer, "observations")
    requires ListedReply(Reply(c.api, Observations(seriesId, limit, kwargs["realtime_start" := start]["realtime_end" := end])).answer,
                         "observations")
    ensures var plain := GetCached(c, st, Observations(seriesId, limit, kwargs), false, now);
      var windowed := GetCached(c, st, Observations(seriesId, limit, kwargs["realtime_start" := start]["realtime_end" := end]), false, now);
      && (plain.calls == [] <==> windowed.calls == [])
      && (plain.calls == [] ==> plain == windowed)
  {
    RealtimeFiltersNotKeyed(seriesId, limit, kwargs, start, end);
  }
  /** The cached observations read takes only the series and the limit:
      two requests that differ in their filters read the same rows. */
  lemma ObservationsReadIgnoresFilters(st: Store, seriesId: string, limit: int, k1: map<string, string>, k2: map<string, string>)
    ensures CachedRows(st, Observations(seriesId, limit, k1)) == CachedRows(st, Observations(seriesId, limit, k2))
    ensures CachedRows(st, Observations(seriesId, limit, k1)) == Dicts(GetObservations(st, seriesId, limit), ObservationToDict)
  {
  }

  /** A filtered miss replaces every stored observation of the series with
      the window it fetched, so any other request for the series whose key
      is fresh (another date window, or none) is then served that window
      from the cache, without a request. */
  lemma FilteredWindowServesOtherKeys(c: Client, st: Store, seriesId: string, limit: int,
                                      k1: map<string, string>, k2: map<string, string>, force: bool, now: int, t: int)
    requires Valid(st)
    requires ListedReply(Reply(c.api, Observations(seriesId, limit, k1)).answer, "observations")
    requires ListedReply(Reply(c.api, Observations(seriesId, limit, k2)).answer, "observations")
    requires WritesThrough(Reply(c.api, Observations(seriesId, limit, k1)).answer, "observations")
    requires !c.faults(CacheKey(Observations(seriesId, limit, k1)), DataWrite)
    requires !c.faults(CacheKey(Observations(seriesId, limit, k1)), MetadataWrite)
    requires StoreObservations(st, RecordList(Reply(c.api, Observations(seriesId, limit, k1)).answer, "observations"),
                               seriesId, now, false).ok
    requires limit != 0
    requires !Hit(st, Observations(seriesId, limit, k1), force, now)
    requires CacheKey(Observations(seriesId, limit, k2)) != CacheKey(Observations(seriesId, limit, k1))
    requires IsCacheValid(st, CacheKey(Observations(seriesId, limit, k2)), t)
    ensures var f := GetCached(c, st, Observations(seriesId, limit, k1), force, now);
      var w := StoreObservations(st, RecordList(Reply(c.api, Observations(seriesId, limit, k1)).answer, "observations"),
                                 seriesId, now, false);
      && multiset(GetObservations(f.store, seriesId, -1)) == multiset(NewObservations(w.items, seriesId, now))
      && GetCached(c, f.store, Observations(seriesId, limit, k2), false, t) ==
         Fetch(Some(CachedPayload(Observations(seriesId, limit, k2),
                                  Dicts(GetObservations(f.store, seriesId, limit), ObservationToDict))), f.store, [])
  {
    var e1 := Observations(seriesId, limit, k1);
    var e2 := Observations(seriesId, limit, k2);
    var records := RecordList(Reply(c.api, e1).answer, "observations");
    var f := Fetched(c, st, e1, now);
    var w := StoreObservations(st, records, seriesId, now, false);
    ObservationsMissLeaves(c, st, seriesId, limit, k1, CacheKey(e2), now, t);
    StoredObservationsReadBack(st, records, seriesId, now, limit);
    StoredObservationsReadBack(st, records, seriesId, now, -1);
    CachedRowsReadTables(f.store, w.store, e2);
  }

  /** What a faultless observations miss that writes through leaves: the
      observations table of the committed write, and every other key as
      fresh as it was. */
  lemma ObservationsMissLeaves(c: Client, st: Store, seriesId: string, limit: int, k1: map<string, string>,
                               other: string, now: int, t: int)
    requires Valid(st)
    requires WritesThrough(Reply(c.api, Observations(seriesId, limit, k1)).answer, "observations")
    requires !c.faults(CacheKey(Observations(seriesId, limit, k1)), DataWrite)
    requires !c.faults(CacheKey(Observations(seriesId, limit, k1)), MetadataWrite)
    requires other != CacheKey(Observations(seriesId, limit, k1))
    ensures var f := Fetched(c, st, Observations(seriesId, limit, k1), now);
      var records := RecordList(Reply(c.api, Observations(seriesId, limit, k1)).answer, "observations");
      && f.store.observations == StoreObservations(st, records, seriesId, now, false).store.observations
      && IsCacheValid(f.store, other, t) == IsCacheValid(st, other, t)
  {
    var e1 := Observations(seriesId, limit, k1);
    var records := RecordList(Reply(c.api, e1).answer, "observations");
    FetchedWritesThrough(c, st, e1, now);
    assert WriteRecords(st, e1, records, now, false) == StoreObservations(st, records, seriesId, now, false);
    StampIsLocal(st, CacheKey(e1), other, CacheType(e1), StampCount(e1, records), DefaultTtlHours, now, t);
  }
}
