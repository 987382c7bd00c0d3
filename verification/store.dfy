/** The cache database (`FREDDatabase`, database.py): three entity tables and
    the cache-metadata table, as one immutable state. Every write is a
    transaction: it either commits a new state or reports failure and leaves
    the state exactly as it was. A storage fault the environment raises at
    commit time is an explicit `fault` argument. */
module CacheStore {
  import opened Wrappers
  import opened JsonValues
  import opened Seqs
  import opened Records
  import opened DateOrder

  const SecondsPerHour: int := 3600

  /** `expires_hours` default of `update_cache_metadata`, and the time to live
      every fetcher uses. */
  const DefaultTtlHours: int := 24

  /** One `cache_metadata` row; timestamps are seconds in UTC. */
  datatype CacheEntry = CacheEntry(cacheType: string, lastFetched: int, expiresAt: int, dataCount: int)

  /** The tables, each in the order SQLite scans it without `ORDER BY`:
      rowid order. A release's integer primary key is its rowid, so releases
      are kept in ascending id order; series and observations have a
      separate rowid and are kept in insertion order. Releases and series
      are unique by id, and the metadata table is keyed by cache key (the
      `unique=True` constraint). */
  datatype Store = Store(
    releases: seq<Release>,
    series: seq<Series>,
    observations: seq<Observation>,
    meta: map<string, CacheEntry>)

  /** Outcome of a write: `ok` is the returned boolean. */
  datatype Write = Write(ok: bool, store: Store)

  /** Outcome of a batch write that also mutates the caller's item dicts in
      place: `items` is the batch as the caller sees it afterwards. */
  datatype BatchWrite = BatchWrite(ok: bool, store: Store, items: seq<Json>)

  /** `init_db` on an empty file. */
  const EmptyStore: Store := Store([], [], [], map[])

  predicate ReleaseTable(rows: seq<Release>) {
    && (forall i, j | 0 <= i < j < |rows| :: rows[i].id < rows[j].id)
    && (forall i | 0 <= i < |rows| :: rows[i].name != JNull)
  }

  predicate SeriesTable(rows: seq<Series>) {
    && (forall i, j | 0 <= i < j < |rows| :: rows[i].id != rows[j].id)
    && (forall i | 0 <= i < |rows| :: rows[i].title != JNull)
  }

  /** The database's constraints: primary keys are unique (release rows in
      rowid, that is id, order) and the NOT NULL columns `releases.name` and
      `series.title` are filled. */
  predicate Valid(st: Store) {
    ReleaseTable(st.releases) && SeriesTable(st.series)
  }

  lemma EmptyStoreValid()
    ensures Valid(EmptyStore)
  {
  }

  // ----------------------------------------------------------- primary keys

  function FindRelease(rows: seq<Release>, id: int): (k: Option<nat>)
    ensures k.Some? ==> k.value < |rows| && rows[k.value].id == id
    ensures k.None? ==> forall j | 0 <= j < |rows| :: rows[j].id != id
    decreases |rows|
  {
    if |rows| == 0 then None
    else if rows[0].id == id then Some(0)
    else match FindRelease(rows[1..], id)
      case Some(k) => Some(k + 1)
      case None => None
  }

  /** `select(Release).where(Release.id == id).scalar_one_or_none()`. */
  function LookupRelease(rows: seq<Release>, id: int): Option<Release> {
    match FindRelease(rows, id)
    case Some(k) => Some(rows[k])
    case None => None
  }

  lemma LookupReleaseAt(rows: seq<Release>, j: int)
    requires ReleaseTable(rows) && 0 <= j < |rows|
    ensures LookupRelease(rows, rows[j].id) == Some(rows[j])
  {
  }

  lemma LookupReleaseMissing(rows: seq<Release>, id: int)
    requires forall j | 0 <= j < |rows| :: rows[j].id != id
    ensures LookupRelease(rows, id) == None
  {
  }

  function FindSeries(rows: seq<Series>, id: string): (k: Option<nat>)
    ensures k.Some? ==> k.value < |rows| && rows[k.value].id == id
    ensures k.None? ==> forall j | 0 <= j < |rows| :: rows[j].id != id
    decreases |rows|
  {
    if |rows| == 0 then None
    else if rows[0].id == id then Some(0)
    else match FindSeries(rows[1..], id)
      case Some(k) => Some(k + 1)
      case None => None
  }

  /** `select(Series).where(Series.id == id).scalar_one_or_none()`. */
  function LookupSeries(rows: seq<Series>, id: string): Option<Series> {
    match FindSeries(rows, id)
    case Some(k) => Some(rows[k])
    case None => None
  }

  lemma LookupSeriesAt(rows: seq<Series>, j: int)
    requires SeriesTable(rows) && 0 <= j < |rows|
    ensures LookupSeries(rows, rows[j].id) == Some(rows[j])
  {
  }

  lemma LookupSeriesMissing(rows: seq<Series>, id: string)
    requires forall j | 0 <= j < |rows| :: rows[j].id != id
    ensures LookupSeries(rows, id) == None
  {
  }

  // ---------------------------------------------------------------- releases

  /** The natural id of a release item, when it is a dict with an integer
      `id`. */
  function ReleaseItemId(item: Json): Option<int> {
    if item.JObj? && "id" in item.fields && item.fields["id"].JInt? then Some(item.fields["id"].i)
    else None
  }

  /** The row an upsert leaves for an item, given the row it found. */
  function ReleaseUpserted(existing: Option<Release>, id: int, fields: Object, now: int): Release {
    match existing
    case Some(row) => MergeRelease(row, fields, now)
    case None => NewRelease(id, fields, now)
  }

  /** An item the upsert accepts: inserting it must not name an unknown
      column (the constructor raises), and the row must keep a name (NOT
      NULL). */
  predicate ReleaseAccepted(existing: Option<Release>, id: int, fields: Object, now: int) {
    && (existing.None? ==> fields.Keys <= ReleaseColumns)
    && ReleaseUpserted(existing, id, fields, now).name != JNull
  }

  /** One iteration of `store_releases`' loop. */
  function UpsertRelease(rows: seq<Release>, item: Json, now: int): (r: Option<seq<Release>>)
    requires ReleaseTable(rows)
    ensures r.Some? <==>
      ReleaseItemId(item).Some?
      && ReleaseAccepted(LookupRelease(rows, ReleaseItemId(item).value), ReleaseItemId(item).value, item.fields, now)
    ensures r.Some? ==> ReleaseTable(r.value)
    ensures r.Some? ==>
      var id := ReleaseItemId(item).value;
      LookupRelease(r.value, id) == Some(ReleaseUpserted(LookupRelease(rows, id), id, item.fields, now))
    ensures r.Some? ==>
      forall other | other != ReleaseItemId(item).value :: LookupRelease(r.value, other) == LookupRelease(rows, other)
  {
    match ReleaseItemId(item)
    case None => None
    case Some(id) =>
      var fields := item.fields;
      match FindRelease(rows, id)
      case Some(k) =>
        var row := MergeRelease(rows[k], fields, now);
        if row.name == JNull then None
        else
          var rows' := rows[k := row];
          UpdatedReleaseTable(rows, k, row);
          Some(rows')
      case None =>
        if !(fields.Keys <= ReleaseColumns) then None
        else
          var row := NewRelease(id, fields, now);
          if row.name == JNull then None
          else
            InsertedReleaseTable(rows, row);
            Some(InsertRelease(rows, row))
  }

  lemma UpdatedReleaseTable(rows: seq<Release>, k: nat, row: Release)
    requires ReleaseTable(rows) && k < |rows| && row.id == rows[k].id && row.name != JNull
    ensures ReleaseTable(rows[k := row])
    ensures LookupRelease(rows[k := row], row.id) == Some(row)
    ensures forall other | other != row.id :: LookupRelease(rows[k := row], other) == LookupRelease(rows, other)
  {
    var rows' := rows[k := row];
    LookupReleaseAt(rows', k);
    forall other | other != row.id
      ensures LookupRelease(rows', other) == LookupRelease(rows, other)
    {
      if j :| 0 <= j < |rows| && rows[j].id == other {
        LookupReleaseAt(rows, j);
        LookupReleaseAt(rows', j);
      } else {
        LookupReleaseMissing(rows, other);
        LookupReleaseMissing(rows', other);
      }
    }
  }

  /** A new row takes its place in rowid order: before the first row with
      a larger id. */
  function InsertRelease(rows: seq<Release>, row: Release): (r: seq<Release>)
    ensures |r| == |rows| + 1 && row in r
    ensures forall x | x in r :: x == row || x in rows
    ensures forall x | x in rows :: x in r
    decreases |rows|
  {
    if |rows| == 0 || row.id < rows[0].id then [row] + rows
    else [rows[0]] + InsertRelease(rows[1..], row)
  }

  lemma {:induction false} InsertedReleaseOrder(rows: seq<Release>, row: Release)
    requires ReleaseTable(rows) && row.name != JNull
    requires forall j | 0 <= j < |rows| :: rows[j].id != row.id
    ensures ReleaseTable(InsertRelease(rows, row))
    decreases |rows|
  {
    if |rows| > 0 && row.id >= rows[0].id {
      var tail := InsertRelease(rows[1..], row);
      InsertedReleaseOrder(rows[1..], row);
      forall i | 0 <= i < |tail|
        ensures rows[0].id < tail[i].id
      {
        assert tail[i] in tail;
        if tail[i] != row {
          var j :| 0 <= j < |rows[1..]| && rows[1..][j] == tail[i];
          assert rows[1..][j] == rows[j + 1];
        }
      }
      assert InsertRelease(rows, row) == [rows[0]] + tail;
    }
  }

  lemma InsertedReleaseTable(rows: seq<Release>, row: Release)
    requires ReleaseTable(rows) && row.name != JNull
    requires forall j | 0 <= j < |rows| :: rows[j].id != row.id
    ensures ReleaseTable(InsertRelease(rows, row))
    ensures LookupRelease(InsertRelease(rows, row), row.id) == Some(row)
    ensures forall other | other != row.id :: LookupRelease(InsertRelease(rows, row), other) == LookupRelease(rows, other)
  {
    var rows' := InsertRelease(rows, row);
    InsertedReleaseOrder(rows, row);
    var k :| 0 <= k < |rows'| && rows'[k] == row;
    LookupReleaseAt(rows', k);
    forall other | other != row.id
      ensures LookupRelease(rows', other) == LookupRelease(rows, other)
    {
      if j :| 0 <= j < |rows| && rows[j].id == other {
        assert rows[j] in rows';
        var i :| 0 <= i < |rows'| && rows'[i] == rows[j];
        LookupReleaseAt(rows, j);
        LookupReleaseAt(rows', i);
      } else {
        LookupReleaseMissing(rows, other);
        forall i | 0 <= i < |rows'|
          ensures rows'[i].id != other
        {
          assert rows'[i] in rows';
        }
        LookupReleaseMissing(rows', other);
      }
    }
  }

  /** In a release table, the first row holds the smallest id. */
  lemma FirstReleaseLeast(rows: seq<Release>, id: int)
    requires ReleaseTable(rows) && LookupRelease(rows, id).Some?
    ensures |rows| > 0 && rows[0].id <= id
  {
    var k := FindRelease(rows, id).value;
    assert rows[k].id == id;
  }

  /** Some item of the batch carries natural id `id`. */
  ghost predicate InReleaseBatch(batch: seq<Json>, id: int) {
    exists j | 0 <= j < |batch| :: ReleaseItemId(batch[j]) == Some(id)
  }

  /** The loop of `store_releases`, item by item against the state the
      previous items left (the session autoflushes before each lookup). */
  function UpsertReleases(rows: seq<Release>, batch: seq<Json>, now: int): (r: Option<seq<Release>>)
    requires ReleaseTable(rows)
    ensures r.Some? ==> ReleaseTable(r.value)
    ensures r.Some? ==> forall j | 0 <= j < |batch| ::
      ReleaseItemId(batch[j]).Some?
      && LookupRelease(r.value, ReleaseItemId(batch[j]).value).Some?
      && LookupRelease(r.value, ReleaseItemId(batch[j]).value).value.updatedAt == now
    ensures r.Some? ==> forall id | !InReleaseBatch(batch, id) :: LookupRelease(r.value, id) == LookupRelease(rows, id)
    decreases |batch|
  {
    if |batch| == 0 then Some(rows)
    else
      match UpsertRelease(rows, batch[0], now)
      case None => None
      case Some(rows1) =>
        var r := UpsertReleases(rows1, batch[1..], now);
        if r.Some? then
          UpsertReleasesStep(rows, rows1, batch, r.value, now);
          r
        else r
  }

  lemma UpsertReleasesStep(rows: seq<Release>, rows1: seq<Release>, batch: seq<Json>, rows2: seq<Release>, now: int)
    requires ReleaseTable(rows) && |batch| > 0
    requires UpsertRelease(rows, batch[0], now) == Some(rows1)
    requires ReleaseTable(rows1)
    requires forall j | 0 <= j < |batch| - 1 ::
      ReleaseItemId(batch[1..][j]).Some?
      && LookupRelease(rows2, ReleaseItemId(batch[1..][j]).value).Some?
      && LookupRelease(rows2, ReleaseItemId(batch[1..][j]).value).value.updatedAt == now
    requires forall id | !InReleaseBatch(batch[1..], id) :: LookupRelease(rows2, id) == LookupRelease(rows1, id)
    ensures forall j | 0 <= j < |batch| ::
      ReleaseItemId(batch[j]).Some?
      && LookupRelease(rows2, ReleaseItemId(batch[j]).value).Some?
      && LookupRelease(rows2, ReleaseItemId(batch[j]).value).value.updatedAt == now
    ensures forall id | !InReleaseBatch(batch, id) :: LookupRelease(rows2, id) == LookupRelease(rows, id)
  {
    var id0 := ReleaseItemId(batch[0]).value;
    forall j | 1 <= j < |batch|
      ensures ReleaseItemId(batch[j]).Some?
      && LookupRelease(rows2, ReleaseItemId(batch[j]).value).Some?
      && LookupRelease(rows2, ReleaseItemId(batch[j]).value).value.updatedAt == now
    {
      assert batch[j] == batch[1..][j - 1];
    }
    if InReleaseBatch(batch[1..], id0) {
      var j :| 0 <= j < |batch| - 1 && ReleaseItemId(batch[1..][j]) == Some(id0);
    }
    forall id | !InReleaseBatch(batch, id)
      ensures LookupRelease(rows2, id) == LookupRelease(rows, id)
    {
      assert !InReleaseBatch(batch[1..], id) by {
        forall j | 0 <= j < |batch| - 1
          ensures ReleaseItemId(batch[1..][j]) != Some(id)
        {
          assert batch[1..][j] == batch[j + 1];
        }
      }
      assert ReleaseItemId(batch[0]) != Some(id);
    }
  }

  /** `store_releases`: the upsert loop, then commit. Any failure rolls the
      whole batch back and returns False. */
  function StoreReleases(st: Store, batch: seq<Json>, now: int, fault: bool): (w: Write)
    requires Valid(st)
    ensures Valid(w.store)
    ensures w.ok <==> !fault && UpsertReleases(st.releases, batch, now).Some?
    ensures !w.ok ==> w.store == st
    ensures w.ok ==> forall j | 0 <= j < |batch| ::
      ReleaseItemId(batch[j]).Some?
      && LookupRelease(w.store.releases, ReleaseItemId(batch[j]).value).Some?
      && LookupRelease(w.store.releases, ReleaseItemId(batch[j]).value).value.updatedAt == now
    ensures forall id | !InReleaseBatch(batch, id) ::
      LookupRelease(w.store.releases, id) == LookupRelease(st.releases, id)
    ensures w.store.series == st.series && w.store.observations == st.observations && w.store.meta == st.meta
  {
    match UpsertReleases(st.releases, batch, now)
    case None => Write(false, st)
    case Some(rows) => if fault then Write(false, st) else Write(true, st.(releases := rows))
  }

  // ------------------------------------------------------------------ series

  /** The natural id of a series item, when it is a dict with a string `id`. */
  function SeriesItemId(item: Json): Option<string> {
    if item.JObj? && "id" in item.fields && item.fields["id"].JStr? then Some(item.fields["id"].s)
    else None
  }

  /** Python truthiness of the optional `release_id` argument: `None` and 0
      mean "no association". */
  predicate AssociatesRelease(releaseId: Option<int>) {
    releaseId.Some? && releaseId.value != 0
  }

  /** `series_item['release_id'] = release_id` when the argument is truthy. */
  function TagSeries(fields: Object, releaseId: Option<int>): Object {
    if AssociatesRelease(releaseId) then fields["release_id" := JInt(releaseId.value)] else fields
  }

  /** The caller's item after that in-place assignment. */
  function TaggedSeriesItem(item: Json, releaseId: Option<int>): Json {
    if item.JObj? then JObj(TagSeries(item.fields, releaseId)) else item
  }

  function SeriesUpserted(existing: Option<Series>, id: string, fields: Object, now: int): Series {
    match existing
    case Some(row) => MergeSeries(row, fields, now)
    case None => NewSeries(id, fields, now)
  }

  predicate SeriesAccepted(existing: Option<Series>, id: string, fields: Object, now: int) {
    && (existing.None? ==> fields.Keys <= SeriesColumns)
    && SeriesUpserted(existing, id, fields, now).title != JNull
  }

  /** One iteration of `store_series`' loop: the outcome for the table and
      the item as the caller sees it afterwards. */
  datatype SeriesStep = SeriesStep(rows: Option<seq<Series>>, item: Json)

  /** One iteration of `store_series`' loop. The item's id is read before it
      is tagged, so an item without one fails untagged. */
  function UpsertSeries(rows: seq<Series>, item: Json, releaseId: Option<int>, now: int): (r: SeriesStep)
    requires SeriesTable(rows)
    ensures SeriesItemId(item).Some? ==> r.item == TaggedSeriesItem(item, releaseId)
    ensures SeriesItemId(item).None? ==> r.item == item && r.rows.None?
    ensures r.rows.Some? <==>
      SeriesItemId(item).Some?
      && SeriesAccepted(LookupSeries(rows, SeriesItemId(item).value), SeriesItemId(item).value,
                        TagSeries(item.fields, releaseId), now)
    ensures r.rows.Some? ==> SeriesTable(r.rows.value)
    ensures r.rows.Some? ==>
      var id := SeriesItemId(item).value;
      LookupSeries(r.rows.value, id) == Some(SeriesUpserted(LookupSeries(rows, id), id, TagSeries(item.fields, releaseId), now))
    ensures r.rows.Some? ==>
      forall other | other != SeriesItemId(item).value :: LookupSeries(r.rows.value, other) == LookupSeries(rows, other)
  {
    match SeriesItemId(item)
    case None => SeriesStep(None, item)
    case Some(id) =>
      var fields := TagSeries(item.fields, releaseId);
      match FindSeries(rows, id)
      case Some(k) =>
        var row := MergeSeries(rows[k], fields, now);
        if row.title == JNull then SeriesStep(None, JObj(fields))
        else
          UpdatedSeriesTable(rows, k, row);
          SeriesStep(Some(rows[k := row]), JObj(fields))
      case None =>
        if !(fields.Keys <= SeriesColumns) then SeriesStep(None, JObj(fields))
        else
          var row := NewSeries(id, fields, now);
          if row.title == JNull then SeriesStep(None, JObj(fields))
          else
            AppendedSeriesTable(rows, row);
            SeriesStep(Some(rows + [row]), JObj(fields))
  }

  lemma UpdatedSeriesTable(rows: seq<Series>, k: nat, row: Series)
    requires SeriesTable(rows) && k < |rows| && row.id == rows[k].id && row.title != JNull
    ensures SeriesTable(rows[k := row])
    ensures LookupSeries(rows[k := row], row.id) == Some(row)
    ensures forall other | other != row.id :: LookupSeries(rows[k := row], other) == LookupSeries(rows, other)
  {
    var rows' := rows[k := row];
    LookupSeriesAt(rows', k);
    forall other | other != row.id
      ensures LookupSeries(rows', other) == LookupSeries(rows, other)
    {
      if j :| 0 <= j < |rows| && rows[j].id == other {
        LookupSeriesAt(rows, j);
        LookupSeriesAt(rows', j);
      } else {
        LookupSeriesMissing(rows, other);
        LookupSeriesMissing(rows', other);
      }
    }
  }

  lemma AppendedSeriesTable(rows: seq<Series>, row: Series)
    requires SeriesTable(rows) && row.title != JNull
    requires forall j | 0 <= j < |rows| :: rows[j].id != row.id
    ensures SeriesTable(rows + [row])
    ensures LookupSeries(rows + [row], row.id) == Some(row)
    ensures forall other | other != row.id :: LookupSeries(rows + [row], other) == LookupSeries(rows, other)
  {
    var rows' := rows + [row];
    LookupSeriesAt(rows', |rows|);
    forall other | other != row.id
      ensures LookupSeries(rows', other) == LookupSeries(rows, other)
    {
      if j :| 0 <= j < |rows| && rows[j].id == other {
        LookupSeriesAt(rows, j);
        LookupSeriesAt(rows', j);
      } else {
        LookupSeriesMissing(rows, other);
        LookupSeriesMissing(rows', other);
      }
    }
  }

  ghost predicate InSeriesBatch(batch: seq<Json>, id: string) {
    exists j | 0 <= j < |batch| :: SeriesItemId(batch[j]) == Some(id)
  }

  /** The loop of `store_series` and the caller's items afterwards: on
      success every item is tagged; a failing item stops the loop, so the
      items after it stay untouched. */
  datatype SeriesBatch = SeriesBatch(rows: Option<seq<Series>>, items: seq<Json>)

  function UpsertSeriesBatch(rows: seq<Series>, batch: seq<Json>, releaseId: Option<int>, now: int): (r: SeriesBatch)
    requires SeriesTable(rows)
    ensures |r.items| == |batch|
    ensures r.rows.Some? ==> SeriesTable(r.rows.value)
    ensures r.rows.Some? ==> forall j | 0 <= j < |batch| ::
      SeriesItemId(batch[j]).Some?
      && LookupSeries(r.rows.value, SeriesItemId(batch[j]).value).Some?
      && LookupSeries(r.rows.value, SeriesItemId(batch[j]).value).value.updatedAt == now
    ensures r.rows.Some? ==> forall id | !InSeriesBatch(batch, id) ::
      LookupSeries(r.rows.value, id) == LookupSeries(rows, id)
    decreases |batch|
  {
    if |batch| == 0 then SeriesBatch(Some(rows), [])
    else
      var step := UpsertSeries(rows, batch[0], releaseId, now);
      match step.rows
      case None =>
        SeriesBatch(None, [step.item] + batch[1..])
      case Some(rows1) =>
        var rest := UpsertSeriesBatch(rows1, batch[1..], releaseId, now);
        if rest.rows.Some? then
          UpsertSeriesBatchStep(rows, rows1, batch, releaseId, rest.rows.value, now);
          SeriesBatch(rest.rows, [step.item] + rest.items)
        else
          SeriesBatch(rest.rows, [step.item] + rest.items)
  }

  /** What the loop leaves in the caller's items: each is untouched or
      tagged, and all are tagged when the loop completes. */
  lemma {:induction false} UpsertSeriesBatchItems(rows: seq<Series>, batch: seq<Json>, releaseId: Option<int>, now: int)
    requires SeriesTable(rows)
    ensures var r := UpsertSeriesBatch(rows, batch, releaseId, now);
      forall j | 0 <= j < |batch| :: r.items[j] == batch[j] || r.items[j] == TaggedSeriesItem(batch[j], releaseId)
    ensures var r := UpsertSeriesBatch(rows, batch, releaseId, now);
      r.rows.Some? ==> forall j | 0 <= j < |batch| :: r.items[j] == TaggedSeriesItem(batch[j], releaseId)
    decreases |batch|
  {
    if |batch| > 0 {
      var step := UpsertSeries(rows, batch[0], releaseId, now);
      match step.rows
      case None =>
        SeriesItemsStep(batch, step.item, batch[1..], releaseId);
      case Some(rows1) =>
        UpsertSeriesBatchItems(rows1, batch[1..], releaseId, now);
        var rest := UpsertSeriesBatch(rows1, batch[1..], releaseId, now);
        SeriesItemsStep(batch, step.item, rest.items, releaseId);
    }
  }

  /** The caller's items after one more iteration: the head as the step
      left it in front of the rest. */
  lemma SeriesItemsStep(batch: seq<Json>, head: Json, rest: seq<Json>, releaseId: Option<int>)
    requires |batch| > 0 && |rest| == |batch| - 1
    requires head == batch[0] || head == TaggedSeriesItem(batch[0], releaseId)
    requires forall j | 0 <= j < |rest| :: rest[j] == batch[j + 1] || rest[j] == TaggedSeriesItem(batch[j + 1], releaseId)
    ensures |[head] + rest| == |batch|
    ensures forall j | 0 <= j < |batch| ::
      ([head] + rest)[j] == batch[j] || ([head] + rest)[j] == TaggedSeriesItem(batch[j], releaseId)
    ensures (head == TaggedSeriesItem(batch[0], releaseId)
             && forall j | 0 <= j < |rest| :: rest[j] == TaggedSeriesItem(batch[j + 1], releaseId)) ==>
      forall j | 0 <= j < |batch| :: ([head] + rest)[j] == TaggedSeriesItem(batch[j], releaseId)
  {
    var items := [head] + rest;
    assert forall j | 1 <= j < |batch| :: items[j] == rest[j - 1];
  }

  lemma UpsertSeriesBatchStep(rows: seq<Series>, rows1: seq<Series>, batch: seq<Json>, releaseId: Option<int>,
                              rows2: seq<Series>, now: int)
    requires SeriesTable(rows) && |batch| > 0
    requires UpsertSeries(rows, batch[0], releaseId, now).rows == Some(rows1)
    requires SeriesTable(rows1)
    requires forall j | 0 <= j < |batch| - 1 ::
      SeriesItemId(batch[1..][j]).Some?
      && LookupSeries(rows2, SeriesItemId(batch[1..][j]).value).Some?
      && LookupSeries(rows2, SeriesItemId(batch[1..][j]).value).value.updatedAt == now
    requires forall id | !InSeriesBatch(batch[1..], id) :: LookupSeries(rows2, id) == LookupSeries(rows1, id)
    ensures forall j | 0 <= j < |batch| ::
      SeriesItemId(batch[j]).Some?
      && LookupSeries(rows2, SeriesItemId(batch[j]).value).Some?
      && LookupSeries(rows2, SeriesItemId(batch[j]).value).value.updatedAt == now
    ensures forall id | !InSeriesBatch(batch, id) :: LookupSeries(rows2, id) == LookupSeries(rows, id)
  {
    var id0 := SeriesItemId(batch[0]).value;
    forall j | 1 <= j < |batch|
      ensures SeriesItemId(batch[j]).Some?
      && LookupSeries(rows2, SeriesItemId(batch[j]).value).Some?
      && LookupSeries(rows2, SeriesItemId(batch[j]).value).value.updatedAt == now
    {
      assert batch[j] == batch[1..][j - 1];
    }
    if InSeriesBatch(batch[1..], id0) {
      var j :| 0 <= j < |batch| - 1 && SeriesItemId(batch[1..][j]) == Some(id0);
    }
    forall id | !InSeriesBatch(batch, id)
      ensures LookupSeries(rows2, id) == LookupSeries(rows, id)
    {
      assert !InSeriesBatch(batch[1..], id) by {
        forall j | 0 <= j < |batch| - 1
          ensures SeriesItemId(batch[1..][j]) != Some(id)
        {
          assert batch[1..][j] == batch[j + 1];
        }
      }
      assert SeriesItemId(batch[0]) != Some(id);
    }
  }

  /** `store_series(batch, release_id)`. */
  function StoreSeries(st: Store, batch: seq<Json>, releaseId: Option<int>, now: int, fault: bool): (w: BatchWrite)
    requires Valid(st)
    ensures Valid(w.store)
    ensures w.ok <==> !fault && UpsertSeriesBatch(st.series, batch, releaseId, now).rows.Some?
    ensures !w.ok ==> w.store == st
    ensures |w.items| == |batch|
    ensures forall j | 0 <= j < |batch| :: w.items[j] == batch[j] || w.items[j] == TaggedSeriesItem(batch[j], releaseId)
    ensures w.ok ==> forall j | 0 <= j < |batch| :: w.items[j] == TaggedSeriesItem(batch[j], releaseId)
    ensures w.ok ==> forall j | 0 <= j < |batch| ::
      SeriesItemId(batch[j]).Some?
      && LookupSeries(w.store.series, SeriesItemId(batch[j]).value).Some?
      && LookupSeries(w.store.series, SeriesItemId(batch[j]).value).value.updatedAt == now
    ensures forall id | !InSeriesBatch(batch, id) ::
      LookupSeries(w.store.series, id) == LookupSeries(st.series, id)
    ensures w.store.releases == st.releases && w.store.observations == st.observations && w.store.meta == st.meta
  {
    var b := UpsertSeriesBatch(st.series, batch, releaseId, now);
    UpsertSeriesBatchItems(st.series, batch, releaseId, now);
    match b.rows
    case None => BatchWrite(false, st, b.items)
    case Some(rows) => if fault then BatchWrite(false, st, b.items) else BatchWrite(true, st.(series := rows), b.items)
  }

  // ------------------------------------------------------------ observations

  /** The observation rows of series `seriesId`, in table order. */
  function RowsOf(rows: seq<Observation>, seriesId: string): (r: seq<Observation>)
    ensures forall o | o in r :: o.seriesId == seriesId && o in rows
    ensures |r| <= |rows|
    decreases |rows|
  {
    if |rows| == 0 then []
    else if rows[0].seriesId == seriesId then [rows[0]] + RowsOf(rows[1..], seriesId)
    else RowsOf(rows[1..], seriesId)
  }

  /** What `delete(Observation).where(series_id == seriesId)` leaves. */
  function RowsExcept(rows: seq<Observation>, seriesId: string): (r: seq<Observation>)
    ensures forall o | o in r :: o.seriesId != seriesId && o in rows
    decreases |rows|
  {
    if |rows| == 0 then []
    else if rows[0].seriesId == seriesId then RowsExcept(rows[1..], seriesId)
    else [rows[0]] + RowsExcept(rows[1..], seriesId)
  }

  lemma {:induction false} RowsOfAppend(a: seq<Observation>, b: seq<Observation>, s: string)
    ensures RowsOf(a + b, s) == RowsOf(a, s) + RowsOf(b, s)
    decreases |a|
  {
    if |a| > 0 {
      assert (a + b)[1..] == a[1..] + b;
      RowsOfAppend(a[1..], b, s);
    } else {
      assert a + b == b;
    }
  }

  lemma {:induction false} RowsOfExcept(rows: seq<Observation>, s: string, t: string)
    ensures RowsOf(RowsExcept(rows, s), t) == if s == t then [] else RowsOf(rows, t)
    decreases |rows|
  {
    if |rows| > 0 {
      RowsOfExcept(rows[1..], s, t);
      if rows[0].seriesId != s {
        assert RowsExcept(rows, s) == [rows[0]] + RowsExcept(rows[1..], s);
        assert ([rows[0]] + RowsExcept(rows[1..], s))[1..] == RowsExcept(rows[1..], s);
      }
    }
  }

  lemma {:induction false} RowsOfUniform(rows: seq<Observation>, s: string, t: string)
    requires forall o | o in rows :: o.seriesId == s
    ensures RowsOf(rows, t) == if s == t then rows else []
    decreases |rows|
  {
    if |rows| > 0 {
      RowsOfUniform(rows[1..], s, t);
      assert rows == [rows[0]] + rows[1..];
    }
  }

  /** `obs_data['series_id'] = series_id` on the caller's item. */
  function TaggedObservationItem(item: Json, seriesId: string): Json {
    if item.JObj? then JObj(item.fields["series_id" := JStr(seriesId)]) else item
  }

  /** The insert loop of `store_observations` up to commit: the caller's
      items afterwards, and whether every `Observation(**item)` could be
      built (a non-dict item cannot be tagged; an unknown column makes the
      constructor raise right after tagging). */
  datatype Tagging = Tagging(items: seq<Json>, built: bool)

  predicate ObservationItemBuildable(item: Json) {
    item.JObj? && item.fields.Keys - {"series_id"} <= ObservationColumns
  }

  function TagObservations(batch: seq<Json>, seriesId: string): (r: Tagging)
    ensures |r.items| == |batch|
    ensures forall j | 0 <= j < |batch| :: r.items[j] == batch[j] || r.items[j] == TaggedObservationItem(batch[j], seriesId)
    ensures r.built <==> forall j | 0 <= j < |batch| :: ObservationItemBuildable(batch[j])
    ensures r.built ==> forall j | 0 <= j < |batch| :: r.items[j] == TaggedObservationItem(batch[j], seriesId)
    decreases |batch|
  {
    if |batch| == 0 then Tagging([], true)
    else if !batch[0].JObj? then Tagging(batch, false)
    else
      var t := TaggedObservationItem(batch[0], seriesId);
      if !ObservationItemBuildable(batch[0]) then
        Tagging([t] + batch[1..], false)
      else
        var rest := TagObservations(batch[1..], seriesId);
        assert forall j | 1 <= j < |batch| :: batch[j] == batch[1..][j - 1];
        Tagging([t] + rest.items, rest.built)
  }

  /** A tagged item whose row can be inserted: its `date` (NOT NULL) is a
      string. */
  predicate Dated(item: Json) {
    item.JObj? && "date" in item.fields && item.fields["date"].JStr?
  }

  /** The rows the insert loop adds, in batch order. */
  function NewObservations(items: seq<Json>, seriesId: string, now: int): (r: seq<Observation>)
    requires forall j | 0 <= j < |items| :: Dated(items[j])
    ensures |r| == |items|
    ensures forall o | o in r :: o.seriesId == seriesId
  {
    seq(|items|, j requires 0 <= j < |items| && Dated(items[j]) =>
      NewObservation(seriesId, items[j].fields["date"].s, items[j].fields, now))
  }

  /** `store_observations(batch, series_id)`: delete the series' rows, insert
      the batch, commit; any failure rolls back both. */
  function StoreObservations(st: Store, batch: seq<Json>, seriesId: string, now: int, fault: bool): (w: BatchWrite)
    requires Valid(st)
    ensures Valid(w.store)
    ensures w.ok <==>
      !fault
      && (forall j | 0 <= j < |batch| :: ObservationItemBuildable(batch[j]))
      && (forall j | 0 <= j < |batch| :: Dated(batch[j]))
    ensures !w.ok ==> w.store == st
    ensures |w.items| == |batch|
    ensures forall j | 0 <= j < |batch| :: w.items[j] == batch[j] || w.items[j] == TaggedObservationItem(batch[j], seriesId)
    ensures w.ok ==> forall j | 0 <= j < |batch| :: w.items[j] == TaggedObservationItem(batch[j], seriesId)
    ensures w.ok ==> forall j | 0 <= j < |batch| :: Dated(w.items[j])
    ensures w.ok ==> RowsOf(w.store.observations, seriesId) == NewObservations(w.items, seriesId, now)
    ensures w.ok ==> forall other | other != seriesId ::
      RowsOf(w.store.observations, other) == RowsOf(st.observations, other)
    ensures w.store.releases == st.releases && w.store.series == st.series && w.store.meta == st.meta
  {
    var t := TagObservations(batch, seriesId);
    if !t.built || fault || !(forall j | 0 <= j < |t.items| :: Dated(t.items[j])) then
      assert t.built ==> forall j | 0 <= j < |batch| :: (Dated(t.items[j]) <==> Dated(batch[j]));
      BatchWrite(false, st, t.items)
    else
      assert forall j | 0 <= j < |batch| :: Dated(batch[j]);
      var added := NewObservations(t.items, seriesId, now);
      var rows := RowsExcept(st.observations, seriesId) + added;
      ReplacedRows(st.observations, added, seriesId);
      BatchWrite(true, st.(observations := rows), t.items)
  }

  lemma ReplacedRows(prior: seq<Observation>, added: seq<Observation>, s: string)
    requires forall o | o in added :: o.seriesId == s
    ensures RowsOf(RowsExcept(prior, s) + added, s) == added
    ensures forall other | other != s :: RowsOf(RowsExcept(prior, s) + added, other) == RowsOf(prior, other)
  {
    RowsOfAppend(RowsExcept(prior, s), added, s);
    RowsOfExcept(prior, s, s);
    RowsOfUniform(added, s, s);
    forall other | other != s
      ensures RowsOf(RowsExcept(prior, s) + added, other) == RowsOf(prior, other)
    {
      RowsOfAppend(RowsExcept(prior, s), added, other);
      RowsOfExcept(prior, s, other);
      RowsOfUniform(added, s, other);
    }
  }

  // ---------------------------------------------------------------- metadata

  /** `update_cache_metadata(key, cache_type, data_count, expires_hours)`:
      an upsert keyed by cache key; an existing entry keeps its type. */
  function UpdateCacheMetadata(st: Store, key: string, cacheType: string, count: int, ttlHours: int,
                               now: int, fault: bool): (w: Write)
    ensures w.ok == !fault
    ensures !w.ok ==> w.store == st
    ensures w.ok ==> w.store.meta.Keys == st.meta.Keys + {key}
    ensures w.ok ==> w.store.meta[key].lastFetched == now
    ensures w.ok ==> w.store.meta[key].expiresAt == now + ttlHours * SecondsPerHour
    ensures w.ok ==> w.store.meta[key].dataCount == count
    ensures w.ok ==> w.store.meta[key].cacheType == if key in st.meta then st.meta[key].cacheType else cacheType
    ensures forall k | k in st.meta && k != key :: k in w.store.meta && w.store.meta[k] == st.meta[k]
    ensures w.store.releases == st.releases && w.store.series == st.series && w.store.observations == st.observations
  {
    if fault then Write(false, st)
    else
      var kind := if key in st.meta then st.meta[key].cacheType else cacheType;
      Write(true, st.(meta := st.meta[key := CacheEntry(kind, now, now + ttlHours * SecondsPerHour, count)]))
  }

  /** The stamp reads and writes the metadata table only. */
  lemma StampIgnoresTables(s1: Store, s2: Store, key: string, cacheType: string, count: int, ttlHours: int,
                           now: int, fault: bool)
    requires s1.meta == s2.meta
    ensures UpdateCacheMetadata(s1, key, cacheType, count, ttlHours, now, fault).store.meta
         == UpdateCacheMetadata(s2, key, cacheType, count, ttlHours, now, fault).store.meta
  {
  }

  /** `is_cache_valid(key)` at time `now`. */
  predicate IsCacheValid(st: Store, key: string, now: int) {
    key in st.meta && st.meta[key].expiresAt > now
  }

  // ------------------------------------------------------------------- reads

  /** `get_releases(limit)`: up to `limit` rows, the smallest ids first. */
  function GetReleases(st: Store, limit: int): (r: seq<Release>)
    ensures |r| == LimitCount(limit, |st.releases|)
    ensures forall x | x in r :: x in st.releases
    ensures ReleaseTable(st.releases) ==> ReleaseTable(r)
    ensures ReleaseTable(st.releases) ==>
      forall i, j | 0 <= i < |r| <= j < |st.releases| :: r[i].id < st.releases[j].id
  {
    Take(st.releases, limit)
  }

  /** The series associated with release `releaseId`, in table order. */
  function SeriesOfRelease(rows: seq<Series>, releaseId: int): (r: seq<Series>)
    ensures forall x | x in r :: x in rows && x.releaseId == JInt(releaseId)
    ensures forall x | x in rows && x.releaseId == JInt(releaseId) :: x in r
    ensures |r| <= |rows|
    decreases |rows|
  {
    if |rows| == 0 then []
    else if rows[0].releaseId == JInt(releaseId) then [rows[0]] + SeriesOfRelease(rows[1..], releaseId)
    else SeriesOfRelease(rows[1..], releaseId)
  }

  /** `get_series(release_id, limit)`: filtered by release only when the
      argument is truthy, up to `limit` rows. */
  function GetSeries(st: Store, releaseId: Option<int>, limit: int): (r: seq<Series>)
    ensures forall x | x in r :: x in st.series
    ensures AssociatesRelease(releaseId) ==> forall x | x in r :: x.releaseId == JInt(releaseId.value)
    ensures AssociatesRelease(releaseId) ==> |r| == LimitCount(limit, |SeriesOfRelease(st.series, releaseId.value)|)
    ensures !AssociatesRelease(releaseId) ==> |r| == LimitCount(limit, |st.series|)
    ensures (limit < 0 || |st.series| <= limit) ==>
      forall x | x in st.series && (AssociatesRelease(releaseId) ==> x.releaseId == JInt(releaseId.value)) :: x in r
  {
    if AssociatesRelease(releaseId) then Take(SeriesOfRelease(st.series, releaseId.value), limit)
    else Take(st.series, limit)
  }

  /** `get_observations(series_id, limit)`: the series' rows, latest date
      first, up to `limit` of them. */
  function GetObservations(st: Store, seriesId: string, limit: int): (r: seq<Observation>)
    ensures forall o | o in r :: o.seriesId == seriesId
    ensures DescendingByDate(r)
    ensures |r| == LimitCount(limit, |RowsOf(st.observations, seriesId)|)
    ensures multiset(r) <= multiset(RowsOf(st.observations, seriesId))
    ensures forall x | x in multiset(RowsOf(st.observations, seriesId)) - multiset(r) ::
      forall y | y in r :: Text.LexLe(x.date, y.date)
  {
    var sorted := SortByDateDesc(RowsOf(st.observations, seriesId));
    var r := Take(sorted, limit);
    LatestFirst(sorted, |r|);
    assert forall o | o in r :: o in multiset(sorted);
    r
  }

  /** A prefix of a date-descending sequence holds its latest rows: whatever
      is left out is no later than anything kept. */
  lemma LatestFirst(sorted: seq<Observation>, k: nat)
    requires DescendingByDate(sorted) && k <= |sorted|
    ensures DescendingByDate(sorted[..k])
    ensures multiset(sorted[..k]) <= multiset(sorted)
    ensures forall x | x in multiset(sorted) - multiset(sorted[..k]) ::
      forall y | y in sorted[..k] :: Text.LexLe(x.date, y.date)
  {
    assert sorted == sorted[..k] + sorted[k..];
    assert multiset(sorted) == multiset(sorted[..k]) + multiset(sorted[k..]);
    forall x | x in multiset(sorted) - multiset(sorted[..k])
      ensures forall y | y in sorted[..k] :: Text.LexLe(x.date, y.date)
    {
      assert x in multiset(sorted[k..]);
      assert x in sorted[k..];
      var i :| k <= i < |sorted| && sorted[i] == x;
      forall y | y in sorted[..k]
        ensures Text.LexLe(x.date, y.date)
      {
        var j :| 0 <= j < k && sorted[j] == y;
      }
    }
  }
}
