/** Laws relating several store operations: what a batch upsert leaves when
    its ids are distinct, what a reader sees after a write, and how a cache
    entry ages. */
module StoreLaws {
  import opened Wrappers
  import opened JsonValues
  import opened Seqs
  import opened Records
  import opened DateOrder
  import opened CacheStore

  // ------------------------------------------------------- batch upserts

  /** Every item names an id and no id repeats. */
  predicate DistinctReleaseIds(batch: seq<Json>) {
    && (forall j | 0 <= j < |batch| :: ReleaseItemId(batch[j]).Some?)
    && (forall i, j | 0 <= i < j < |batch| :: ReleaseItemId(batch[i]) != ReleaseItemId(batch[j]))
  }

  /** With distinct ids the items of a batch do not interact: the batch
      commits exactly when each item would be accepted against the table as
      it was, and each id ends with the row that item alone would give. */
  lemma {:induction false} UpsertReleasesDistinct(rows: seq<Release>, batch: seq<Json>, now: int)
    requires ReleaseTable(rows) && DistinctReleaseIds(batch)
    ensures UpsertReleases(rows, batch, now).Some? <==> AllReleasesAccepted(rows, batch, now)
    ensures UpsertReleases(rows, batch, now).Some? ==>
      forall j | 0 <= j < |batch| ::
        var id := ReleaseItemId(batch[j]).value;
        LookupRelease(UpsertReleases(rows, batch, now).value, id) ==
          Some(ReleaseUpserted(LookupRelease(rows, id), id, batch[j].fields, now))
    decreases |batch|
  {
    if |batch| > 0 {
      var tail := batch[1..];
      match UpsertRelease(rows, batch[0], now)
      case None =>
      case Some(rows1) =>
        ReleaseDistinctTail(rows, rows1, batch, now);
        UpsertReleasesDistinct(rows1, tail, now);
        var r := UpsertReleases(rows1, tail, now);
        if r.Some? {
          forall j | 0 <= j < |batch|
            ensures var id := ReleaseItemId(batch[j]).value;
              LookupRelease(r.value, id) == Some(ReleaseUpserted(LookupRelease(rows, id), id, batch[j].fields, now))
          {
            if j > 0 {
              assert batch[j] == tail[j - 1];
            }
          }
        }
    }
  }

  /** Every item names an id and would be accepted against `rows` on its
      own. */
  predicate AllReleasesAccepted(rows: seq<Release>, batch: seq<Json>, now: int) {
    forall j | 0 <= j < |batch| ::
      ReleaseItemId(batch[j]).Some?
      && ReleaseAccepted(LookupRelease(rows, ReleaseItemId(batch[j]).value), ReleaseItemId(batch[j]).value, batch[j].fields, now)
  }

  /** After the first item of a distinct batch is upserted, the rest of the
      batch is distinct, does not name the first id, and sees its own ids as
      they were; so it is accepted against the new table exactly when it was
      against the old one. */
  lemma ReleaseDistinctTail(rows: seq<Release>, rows1: seq<Release>, batch: seq<Json>, now: int)
    requires ReleaseTable(rows) && DistinctReleaseIds(batch) && |batch| > 0
    requires UpsertRelease(rows, batch[0], now) == Some(rows1)
    ensures DistinctReleaseIds(batch[1..])
    ensures !InReleaseBatch(batch[1..], ReleaseItemId(batch[0]).value)
    ensures forall j | 0 <= j < |batch| - 1 ::
      LookupRelease(rows1, ReleaseItemId(batch[1..][j]).value) == LookupRelease(rows, ReleaseItemId(batch[1..][j]).value)
    ensures AllReleasesAccepted(rows, batch, now) <==> AllReleasesAccepted(rows1, batch[1..], now)
  {
    var tail := batch[1..];
    assert forall j | 0 <= j < |tail| :: tail[j] == batch[j + 1];
    forall j | 0 <= j < |tail|
      ensures ReleaseItemId(tail[j]) != ReleaseItemId(batch[0])
    {
      assert ReleaseItemId(batch[0]) != ReleaseItemId(batch[j + 1]);
    }
  }

  predicate DistinctSeriesIds(batch: seq<Json>) {
    && (forall j | 0 <= j < |batch| :: SeriesItemId(batch[j]).Some?)
    && (forall i, j | 0 <= i < j < |batch| :: SeriesItemId(batch[i]) != SeriesItemId(batch[j]))
  }

  /** The series counterpart of `UpsertReleasesDistinct`, with every item
      tagged with the release before it is merged or inserted. */
  lemma {:induction false} UpsertSeriesDistinct(rows: seq<Series>, batch: seq<Json>, releaseId: Option<int>, now: int)
    requires SeriesTable(rows) && DistinctSeriesIds(batch)
    ensures UpsertSeriesBatch(rows, batch, releaseId, now).rows.Some? <==> AllSeriesAccepted(rows, batch, releaseId, now)
    ensures UpsertSeriesBatch(rows, batch, releaseId, now).rows.Some? ==>
      forall j | 0 <= j < |batch| ::
        var id := SeriesItemId(batch[j]).value;
        LookupSeries(UpsertSeriesBatch(rows, batch, releaseId, now).rows.value, id) ==
          Some(SeriesUpserted(LookupSeries(rows, id), id, TagSeries(batch[j].fields, releaseId), now))
    decreases |batch|
  {
    if |batch| > 0 {
      var tail := batch[1..];
      var step := UpsertSeries(rows, batch[0], releaseId, now);
      match step.rows
      case None =>
      case Some(rows1) =>
        SeriesDistinctTail(rows, rows1, batch, releaseId, now);
        UpsertSeriesDistinct(rows1, tail, releaseId, now);
        var r := UpsertSeriesBatch(rows1, tail, releaseId, now);
        if r.rows.Some? {
          forall j | 0 <= j < |batch|
            ensures var id := SeriesItemId(batch[j]).value;
              LookupSeries(r.rows.value, id) == Some(SeriesUpserted(LookupSeries(rows, id), id, TagSeries(batch[j].fields, releaseId), now))
          {
            if j > 0 {
              assert batch[j] == tail[j - 1];
            }
          }
        }
    }
  }

  /** Every item names an id and would be accepted against `rows` on its
      own. */
  predicate AllSeriesAccepted(rows: seq<Series>, batch: seq<Json>, releaseId: Option<int>, now: int) {
    forall j | 0 <= j < |batch| ::
      SeriesItemId(batch[j]).Some?
      && SeriesAccepted(LookupSeries(rows, SeriesItemId(batch[j]).value), SeriesItemId(batch[j]).value,
                        TagSeries(batch[j].fields, releaseId), now)
  }

  /** After the first item of a distinct batch is upserted, the rest of the
      batch is distinct, does not name the first id, and sees its own ids as
      they were; so it is accepted against the new table exactly when it was
      against the old one. */
  lemma SeriesDistinctTail(rows: seq<Series>, rows1: seq<Series>, batch: seq<Json>, releaseId: Option<int>, now: int)
    requires SeriesTable(rows) && DistinctSeriesIds(batch) && |batch| > 0
    requires UpsertSeries(rows, batch[0], releaseId, now).rows == Some(rows1)
    ensures DistinctSeriesIds(batch[1..])
    ensures !InSeriesBatch(batch[1..], SeriesItemId(batch[0]).value)
    ensures forall j | 0 <= j < |batch| - 1 ::
      LookupSeries(rows1, SeriesItemId(batch[1..][j]).value) == LookupSeries(rows, SeriesItemId(batch[1..][j]).value)
    ensures AllSeriesAccepted(rows, batch, releaseId, now) <==> AllSeriesAccepted(rows1, batch[1..], releaseId, now)
  {
    var tail := batch[1..];
    assert forall j | 0 <= j < |tail| :: tail[j] == batch[j + 1];
    forall j | 0 <= j < |tail|
      ensures SeriesItemId(tail[j]) != SeriesItemId(batch[0])
    {
      assert SeriesItemId(batch[0]) != SeriesItemId(batch[j + 1]);
    }
  }

  /** The release a stored series ends up associated with: the argument
      when it is truthy, otherwise the item's own `release_id`, otherwise
      what the row had (NULL for a new row). */
  lemma StoredSeriesAssociation(existing: Option<Series>, id: string, fields: Object, releaseId: Option<int>, now: int)
    requires existing.Some? ==> existing.value.id == id
    requires "id" in fields ==> fields["id"] == JStr(id)
    ensures SeriesUpserted(existing, id, TagSeries(fields, releaseId), now).releaseId ==
      if AssociatesRelease(releaseId) then JInt(releaseId.value)
      else Pick(fields, "release_id", if existing.Some? then existing.value.releaseId else JNull)
  {
    var tagged := TagSeries(fields, releaseId);
    match existing {
      case Some(row) =>
        MergeSeriesIsDictUpdate(row, tagged, now);
      case None =>
        NewSeriesRoundTrip(id, tagged, now);
    }
  }

  /** Storing the same series twice leaves one row, reflecting the second
      write on top of the first. */
  lemma SecondSeriesWriteWins(st: Store, first: Json, second: Json, releaseId: Option<int>, now1: int, now2: int)
    requires Valid(st)
    requires SeriesItemId(first).Some? && SeriesItemId(first) == SeriesItemId(second)
    requires StoreSeries(st, [first], releaseId, now1, false).ok
    requires StoreSeries(StoreSeries(st, [first], releaseId, now1, false).store, [second], releaseId, now2, false).ok
    ensures var id := SeriesItemId(first).value;
      var mid := StoreSeries(st, [first], releaseId, now1, false).store;
      var last := StoreSeries(mid, [second], releaseId, now2, false).store;
      && SeriesTable(last.series)
      && LookupSeries(mid.series, id).Some?
      && LookupSeries(last.series, id) == Some(MergeSeries(LookupSeries(mid.series, id).value, TagSeries(second.fields, releaseId), now2))
      && |last.series| == |mid.series|
  {
    var id := SeriesItemId(first).value;
    var mid := StoreSeries(st, [first], releaseId, now1, false).store;
    UpsertSeriesDistinct(st.series, [first], releaseId, now1);
    UpsertSeriesDistinct(mid.series, [second], releaseId, now2);
    var k := FindSeries(mid.series, id);
    assert UpsertSeriesBatch(mid.series, [second], releaseId, now2).rows
        == UpsertSeries(mid.series, second, releaseId, now2).rows;
  }

  // ---------------------------------------------------------- observations

  /** After `store_observations` commits, the series reads back as exactly
      the stored batch, latest date first, and no other series changes. */
  lemma StoredObservationsReadBack(st: Store, batch: seq<Json>, seriesId: string, now: int, limit: int)
    requires Valid(st)
    requires StoreObservations(st, batch, seriesId, now, false).ok
    ensures var w := StoreObservations(st, batch, seriesId, now, false);
      var all := GetObservations(w.store, seriesId, -1);
      && multiset(all) == multiset(NewObservations(w.items, seriesId, now))
      && DescendingByDate(all)
      && |GetObservations(w.store, seriesId, limit)| == LimitCount(limit, |batch|)
    ensures var w := StoreObservations(st, batch, seriesId, now, false);
      forall other | other != seriesId ::
        GetObservations(w.store, other, limit) == GetObservations(st, other, limit)
  {
    var w := StoreObservations(st, batch, seriesId, now, false);
    var rows := RowsOf(w.store.observations, seriesId);
    assert multiset(GetObservations(w.store, seriesId, -1)) == multiset(SortByDateDesc(rows));
  }

  /** Two successful stores for one series: only the second batch remains. */
  lemma SecondBatchReplacesFirst(st: Store, a: seq<Json>, b: seq<Json>, seriesId: string, now1: int, now2: int)
    requires Valid(st)
    requires StoreObservations(st, a, seriesId, now1, false).ok
    requires StoreObservations(StoreObservations(st, a, seriesId, now1, false).store, b, seriesId, now2, false).ok
    ensures var mid := StoreObservations(st, a, seriesId, now1, false);
      var last := StoreObservations(mid.store, b, seriesId, now2, false);
      && RowsOf(last.store.observations, seriesId) == NewObservations(last.items, seriesId, now2)
      && |RowsOf(last.store.observations, seriesId)| == |b|
      && forall other | other != seriesId :: RowsOf(last.store.observations, other) == RowsOf(st.observations, other)
  {
  }

  // ---------------------------------------------------------------- freshness

  /** A key stamped at `now` with a time to live of `ttlHours` is valid at
      every time before `now + ttlHours` hours and at none from then on:
      validity is a strict comparison, so the entry expires at the instant
      `expires_at` is reached. */
  lemma FreshUntilExpiry(st: Store, key: string, cacheType: string, count: int, ttlHours: int, now: int, t: int)
    ensures var w := UpdateCacheMetadata(st, key, cacheType, count, ttlHours, now, false);
      w.ok && (IsCacheValid(w.store, key, t) <==> t < now + ttlHours * SecondsPerHour)
  {
  }

  /** With the default time to live the entry lasts exactly a day. */
  lemma DefaultTtlIsOneDay(st: Store, key: string, cacheType: string, count: int, now: int)
    ensures var w := UpdateCacheMetadata(st, key, cacheType, count, DefaultTtlHours, now, false);
      && IsCacheValid(w.store, key, now + 86399)
      && !IsCacheValid(w.store, key, now + 86400)
  {
  }

  /** A key that was never stamped is never valid, and stamping one key
      leaves the freshness of every other key as it was. */
  lemma StampIsLocal(st: Store, key: string, other: string, cacheType: string, count: int, ttlHours: int, now: int, t: int)
    requires other != key
    ensures other !in st.meta ==> !IsCacheValid(st, other, t)
    ensures var w := UpdateCacheMetadata(st, key, cacheType, count, ttlHours, now, false);
      IsCacheValid(w.store, other, t) == IsCacheValid(st, other, t)
  {
    var w := UpdateCacheMetadata(st, key, cacheType, count, ttlHours, now, false);
    assert other in w.store.meta <==> other in st.meta;
  }

  // ------------------------------------------------------------- first row

  /** After a successful upsert batch the first release row, the one an
      unordered `limit(1)` returns, holds the least id among the rows that
      were stored and the ids of the batch: the first id never grows, and
      a smaller id in the batch takes the first place. */
  lemma UpsertReleasesLeastFirst(rows: seq<Release>, batch: seq<Json>, now: int)
    requires ReleaseTable(rows)
    requires UpsertReleases(rows, batch, now).Some?
    ensures var out := UpsertReleases(rows, batch, now).value;
      && (forall j | 0 <= j < |rows| :: |out| > 0 && out[0].id <= rows[j].id)
      && (forall j | 0 <= j < |batch| :: |out| > 0 && out[0].id <= ReleaseItemId(batch[j]).value)
      && (|out| > 0 ==> InReleaseBatch(batch, out[0].id) || out[0] in rows)
  {
    var out := UpsertReleases(rows, batch, now).value;
    forall j | 0 <= j < |rows|
      ensures |out| > 0 && out[0].id <= rows[j].id
    {
      var id := rows[j].id;
      if InReleaseBatch(batch, id) {
        var k :| 0 <= k < |batch| && ReleaseItemId(batch[k]) == Some(id);
      } else {
        LookupReleaseAt(rows, j);
      }
      FirstReleaseLeast(out, id);
    }
    forall j | 0 <= j < |batch|
      ensures |out| > 0 && out[0].id <= ReleaseItemId(batch[j]).value
    {
      FirstReleaseLeast(out, ReleaseItemId(batch[j]).value);
    }
    if |out| > 0 && !InReleaseBatch(batch, out[0].id) {
      LookupReleaseAt(out, 0);
      var k := FindRelease(rows, out[0].id).value;
    }
  }

  /** When `store_series` associates a release and succeeds, the row of
      every item of the batch carries that release, a repeated id
      included. */
  lemma {:induction false} SeriesBatchAssociated(rows: seq<Series>, batch: seq<Json>, releaseId: Option<int>, now: int)
    requires SeriesTable(rows) && AssociatesRelease(releaseId)
    requires UpsertSeriesBatch(rows, batch, releaseId, now).rows.Some?
    ensures var out := UpsertSeriesBatch(rows, batch, releaseId, now).rows.value;
      forall j | 0 <= j < |batch| ::
        && SeriesItemId(batch[j]).Some?
        && LookupSeries(out, SeriesItemId(batch[j]).value).Some?
        && LookupSeries(out, SeriesItemId(batch[j]).value).value.releaseId == JInt(releaseId.value)
    decreases |batch|
  {
    if |batch| > 0 {
      var out := UpsertSeriesBatch(rows, batch, releaseId, now).rows.value;
      var rows1 := UpsertSeries(rows, batch[0], releaseId, now).rows.value;
      var id0 := SeriesItemId(batch[0]).value;
      StoredSeriesAssociation(LookupSeries(rows, id0), id0, batch[0].fields, releaseId, now);
      SeriesBatchAssociated(rows1, batch[1..], releaseId, now);
      assert out == UpsertSeriesBatch(rows1, batch[1..], releaseId, now).rows.value;
      forall j | 1 <= j < |batch|
        ensures SeriesItemId(batch[j]).Some?
        ensures LookupSeries(out, SeriesItemId(batch[j]).value).Some?
        ensures LookupSeries(out, SeriesItemId(batch[j]).value).value.releaseId == JInt(releaseId.value)
      {
        assert batch[j] == batch[1..][j - 1];
      }
      if InSeriesBatch(batch[1..], id0) {
        var j :| 0 <= j < |batch[1..]| && SeriesItemId(batch[1..][j]) == Some(id0);
        assert batch[1..][j] == batch[j + 1];
      }
    }
  }
}
