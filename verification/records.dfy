/** The rows of the cache database (`Release`, `Series`, `Observation`), how a
    JSON item becomes a row or overwrites one, and the `_release_to_dict` /
    `_series_to_dict` / `_observation_to_dict` projections the cached read
    paths return. Column values hold the JSON values they were given. */
module Records {
  import opened JsonValues

  /** Data columns of `releases` (database.py:33-39). */
  const ReleaseColumns: set<string> :=
    {"id", "name", "press_release", "link", "notes", "realtime_start", "realtime_end"}

  /** Data columns of `series` other than the release association; they are
      also exactly the keys `_series_to_dict` emits (database.py:50-67). */
  const SeriesDictColumns: set<string> :=
    {"id", "title", "frequency", "frequency_short", "units", "units_short",
     "seasonal_adjustment", "seasonal_adjustment_short", "last_updated",
     "popularity", "group_popularity", "notes", "realtime_start", "realtime_end",
     "observation_start", "observation_end"}

  /** Data columns of `series` (database.py:50-70). */
  const SeriesColumns: set<string> := SeriesDictColumns + {"release_id"}

  /** Data columns of `observations` a JSON item may set (database.py:85-89). */
  const ObservationColumns: set<string> :=
    {"series_id", "date", "value", "realtime_start", "realtime_end"}

  /** Keys `_observation_to_dict` emits. */
  const ObservationDictColumns: set<string> := {"date", "value", "realtime_start", "realtime_end"}

  datatype Release = Release(
    id: int,
    name: Json,
    pressRelease: Json,
    link: Json,
    notes: Json,
    realtimeStart: Json,
    realtimeEnd: Json,
    createdAt: int,
    updatedAt: int)

  datatype Series = Series(
    id: string,
    title: Json,
    frequency: Json,
    frequencyShort: Json,
    units: Json,
    unitsShort: Json,
    seasonalAdjustment: Json,
    seasonalAdjustmentShort: Json,
    lastUpdated: Json,
    popularity: Json,
    groupPopularity: Json,
    notes: Json,
    realtimeStart: Json,
    realtimeEnd: Json,
    observationStart: Json,
    observationEnd: Json,
    releaseId: Json,
    createdAt: int,
    updatedAt: int)

  datatype Observation = Observation(
    seriesId: string,
    date: string,
    value: Json,
    realtimeStart: Json,
    realtimeEnd: Json,
    createdAt: int)

  /** The item's value for `column` when it supplies one, else `current`. */
  function Pick(item: Object, column: string, current: Json): Json {
    if column in item then item[column] else current
  }

  /** The value an inserted row takes for `column`: the ORM leaves an
      attribute set to None out of the INSERT, so a null entry, like an
      absent one, gets the column default. */
  function Inserted(item: Object, column: string, default: Json): Json {
    if column in item && item[column] != JNull then item[column] else default
  }

  /** The entries of `item` that name one of `columns`. */
  function Restrict(item: Object, columns: set<string>): (r: Object)
    ensures r.Keys == item.Keys * columns
    ensures forall k | k in r :: r[k] == item[k]
  {
    map k | k in item && k in columns :: item[k]
  }

  // ---------------------------------------------------------------- releases

  /** `Release(**item)`: absent or null columns take their defaults
      (`press_release` False, others NULL) and both timestamps are the
      insertion time. */
  function NewRelease(id: int, item: Object, now: int): Release {
    Release(id, Inserted(item, "name", JNull), Inserted(item, "press_release", JBool(false)),
            Inserted(item, "link", JNull), Inserted(item, "notes", JNull),
            Inserted(item, "realtime_start", JNull), Inserted(item, "realtime_end", JNull),
            now, now)
  }

  /** The update branch of the release upsert: every column the item names is
      overwritten, the rest keep their values, `updated_at` is refreshed. */
  function MergeRelease(row: Release, item: Object, now: int): Release {
    row.(name := Pick(item, "name", row.name),
         pressRelease := Pick(item, "press_release", row.pressRelease),
         link := Pick(item, "link", row.link),
         notes := Pick(item, "notes", row.notes),
         realtimeStart := Pick(item, "realtime_start", row.realtimeStart),
         realtimeEnd := Pick(item, "realtime_end", row.realtimeEnd),
         updatedAt := now)
  }

  /** The value `_release_to_dict` shows under `column`. */
  function ReleaseField(row: Release, column: string): Json {
    if column == "id" then JInt(row.id)
    else if column == "name" then row.name
    else if column == "press_release" then row.pressRelease
    else if column == "link" then row.link
    else if column == "notes" then row.notes
    else if column == "realtime_start" then row.realtimeStart
    else if column == "realtime_end" then row.realtimeEnd
    else JNull
  }

  /** `_release_to_dict`: one entry per release column. */
  function ReleaseToDict(row: Release): Object {
    map column | column in ReleaseColumns :: ReleaseField(row, column)
  }

  /** Merging an item into a release is, seen through `_release_to_dict`, a
      dict update restricted to the release's columns; of the timestamps only
      `updated_at` moves. */
  lemma MergeReleaseIsDictUpdate(row: Release, item: Object, now: int)
    requires "id" in item ==> item["id"] == JInt(row.id)
    ensures ReleaseToDict(MergeRelease(row, item, now)).Keys == ReleaseColumns
    ensures forall k | k in ReleaseColumns ::
      ReleaseToDict(MergeRelease(row, item, now))[k] == Pick(item, k, ReleaseToDict(row)[k])
    ensures MergeRelease(row, item, now).id == row.id
    ensures MergeRelease(row, item, now).createdAt == row.createdAt
    ensures MergeRelease(row, item, now).updatedAt == now
  {
    forall k | k in ReleaseColumns
      ensures ReleaseToDict(MergeRelease(row, item, now))[k] == Pick(item, k, ReleaseToDict(row)[k])
    {
      MergeReleaseField(row, item, now, k);
    }
  }

  lemma MergeReleaseField(row: Release, item: Object, now: int, k: string)
    requires "id" in item ==> item["id"] == JInt(row.id)
    requires k in ReleaseColumns
    ensures ReleaseField(MergeRelease(row, item, now), k) == Pick(item, k, ReleaseField(row, k))
  {
    if k == "id" {
    } else if k == "name" {
    } else if k == "press_release" {
    } else if k == "link" {
    } else if k == "notes" {
    } else if k == "realtime_start" {
    } else {
      assert k == "realtime_end";
    }
  }

  /** A freshly inserted release, seen through `_release_to_dict`, shows the
      item's value for every column the item names with a non-null value and
      the column default otherwise, so a null `press_release` reads back
      False; an item carrying exactly the release columns, with a non-null
      `press_release`, comes back unchanged. */
  lemma NewReleaseRoundTrip(id: int, item: Object, now: int)
    requires "id" in item ==> item["id"] == JInt(id)
    ensures forall k | k in ReleaseColumns && k in item && item[k] != JNull ::
      ReleaseToDict(NewRelease(id, item, now))[k] == item[k]
    ensures forall k | k in ReleaseColumns && (k !in item || item[k] == JNull) ::
      ReleaseToDict(NewRelease(id, item, now))[k] ==
        (if k == "id" then JInt(id) else if k == "press_release" then JBool(false) else JNull)
    ensures item.Keys == ReleaseColumns && item["press_release"] != JNull ==>
      ReleaseToDict(NewRelease(id, item, now)) == item
    ensures NewRelease(id, item, now).createdAt == now == NewRelease(id, item, now).updatedAt
  {
  }

  // ------------------------------------------------------------------ series

  /** `Series(**item)`: absent or null columns take their defaults
      (`popularity` and `group_popularity` 0, others NULL). */
  function NewSeries(id: string, item: Object, now: int): Series {
    Series(id, Inserted(item, "title", JNull), Inserted(item, "frequency", JNull),
           Inserted(item, "frequency_short", JNull), Inserted(item, "units", JNull),
           Inserted(item, "units_short", JNull), Inserted(item, "seasonal_adjustment", JNull),
           Inserted(item, "seasonal_adjustment_short", JNull), Inserted(item, "last_updated", JNull),
           Inserted(item, "popularity", JInt(0)), Inserted(item, "group_popularity", JInt(0)),
           Inserted(item, "notes", JNull), Inserted(item, "realtime_start", JNull),
           Inserted(item, "realtime_end", JNull), Inserted(item, "observation_start", JNull),
           Inserted(item, "observation_end", JNull), Inserted(item, "release_id", JNull),
           now, now)
  }

  /** The update branch of the series upsert. */
  function MergeSeries(row: Series, item: Object, now: int): Series {
    row.(title := Pick(item, "title", row.title),
         frequency := Pick(item, "frequency", row.frequency),
         frequencyShort := Pick(item, "frequency_short", row.frequencyShort),
         units := Pick(item, "units", row.units),
         unitsShort := Pick(item, "units_short", row.unitsShort),
         seasonalAdjustment := Pick(item, "seasonal_adjustment", row.seasonalAdjustment),
         seasonalAdjustmentShort := Pick(item, "seasonal_adjustment_short", row.seasonalAdjustmentShort),
         lastUpdated := Pick(item, "last_updated", row.lastUpdated),
         popularity := Pick(item, "popularity", row.popularity),
         groupPopularity := Pick(item, "group_popularity", row.groupPopularity),
         notes := Pick(item, "notes", row.notes),
         realtimeStart := Pick(item, "realtime_start", row.realtimeStart),
         realtimeEnd := Pick(item, "realtime_end", row.realtimeEnd),
         observationStart := Pick(item, "observation_start", row.observationStart),
         observationEnd := Pick(item, "observation_end", row.observationEnd),
         releaseId := Pick(item, "release_id", row.releaseId),
         updatedAt := now)
  }

  /** The value `_series_to_dict` shows under `column`. */
  function SeriesField(row: Series, column: string): Json {
    if column == "id" then JStr(row.id)
    else if column == "title" then row.title
    else if column == "frequency" then row.frequency
    else if column == "frequency_short" then row.frequencyShort
    else if column == "units" then row.units
    else if column == "units_short" then row.unitsShort
    else if column == "seasonal_adjustment" then row.seasonalAdjustment
    else if column == "seasonal_adjustment_short" then row.seasonalAdjustmentShort
    else if column == "last_updated" then row.lastUpdated
    else if column == "popularity" then row.popularity
    else if column == "group_popularity" then row.groupPopularity
    else if column == "notes" then row.notes
    else if column == "realtime_start" then row.realtimeStart
    else if column == "realtime_end" then row.realtimeEnd
    else if column == "observation_start" then row.observationStart
    else if column == "observation_end" then row.observationEnd
    else JNull
  }

  /** `_series_to_dict`: one entry per series column except the release
      association. */
  function SeriesToDict(row: Series): Object {
    map column | column in SeriesDictColumns :: SeriesField(row, column)
  }

  /** Merging an item into a series is a dict update restricted to the
      series' columns, and the association follows the item's `release_id`
      when it has one. */
  lemma MergeSeriesIsDictUpdate(row: Series, item: Object, now: int)
    requires "id" in item ==> item["id"] == JStr(row.id)
    ensures SeriesToDict(MergeSeries(row, item, now)).Keys == SeriesDictColumns
    ensures forall k | k in SeriesDictColumns ::
      SeriesToDict(MergeSeries(row, item, now))[k] == Pick(item, k, SeriesToDict(row)[k])
    ensures MergeSeries(row, item, now).releaseId == Pick(item, "release_id", row.releaseId)
    ensures MergeSeries(row, item, now).id == row.id
    ensures MergeSeries(row, item, now).createdAt == row.createdAt
    ensures MergeSeries(row, item, now).updatedAt == now
  {
    forall k | k in SeriesDictColumns
      ensures SeriesToDict(MergeSeries(row, item, now))[k] == Pick(item, k, SeriesToDict(row)[k])
    {
      MergeSeriesField(row, item, now, k);
    }
  }

  lemma MergeSeriesField(row: Series, item: Object, now: int, k: string)
    requires "id" in item ==> item["id"] == JStr(row.id)
    requires k in SeriesDictColumns
    ensures SeriesField(MergeSeries(row, item, now), k) == Pick(item, k, SeriesField(row, k))
  {
    var m := MergeSeries(row, item, now);
    if k == "id" {
    } else if k == "title" {
    } else if k == "frequency" {
    } else if k == "frequency_short" {
    } else if k == "units" {
    } else if k == "units_short" {
    } else if k == "seasonal_adjustment" {
    } else if k == "seasonal_adjustment_short" {
    } else if k == "last_updated" {
    } else if k == "popularity" {
    } else if k == "group_popularity" {
    } else if k == "notes" {
    } else if k == "realtime_start" {
    } else if k == "realtime_end" {
    } else if k == "observation_start" {
    } else {
      assert k == "observation_end";
    }
  }

  /** A freshly inserted series, seen through `_series_to_dict`, shows the
      item's value for every column the item names with a non-null value and
      the column default otherwise, so a null `popularity` reads back 0; an
      item carrying exactly the series columns, with non-null popularities,
      comes back unchanged. */
  lemma NewSeriesRoundTrip(id: string, item: Object, now: int)
    requires "id" in item ==> item["id"] == JStr(id)
    ensures forall k | k in SeriesDictColumns && k in item && item[k] != JNull ::
      SeriesToDict(NewSeries(id, item, now))[k] == item[k]
    ensures forall k | k in SeriesDictColumns && (k !in item || item[k] == JNull) ::
      SeriesToDict(NewSeries(id, item, now))[k] ==
        (if k == "id" then JStr(id) else if k == "popularity" || k == "group_popularity" then JInt(0) else JNull)
    ensures item.Keys == SeriesDictColumns && item["popularity"] != JNull && item["group_popularity"] != JNull ==>
      SeriesToDict(NewSeries(id, item, now)) == item
    ensures NewSeries(id, item, now).releaseId == Pick(item, "release_id", JNull)
  {
    forall k | k in SeriesDictColumns
      ensures SeriesToDict(NewSeries(id, item, now))[k] ==
        Inserted(item, k, if k == "id" then JStr(id) else if k == "popularity" || k == "group_popularity" then JInt(0) else JNull)
    {
      NewSeriesField(id, item, now, k);
    }
    if item.Keys == SeriesDictColumns {
      assert SeriesToDict(NewSeries(id, item, now)).Keys == item.Keys;
    }
  }

  lemma NewSeriesField(id: string, item: Object, now: int, k: string)
    requires "id" in item ==> item["id"] == JStr(id)
    requires k in SeriesDictColumns
    ensures SeriesField(NewSeries(id, item, now), k) ==
      Inserted(item, k, if k == "id" then JStr(id) else if k == "popularity" || k == "group_popularity" then JInt(0) else JNull)
  {
  }

  // ------------------------------------------------------------ observations

  /** `Observation(**item)` for an item already tagged with its series. */
  function NewObservation(seriesId: string, date: string, item: Object, now: int): Observation {
    Observation(seriesId, date, Pick(item, "value", JNull),
                Pick(item, "realtime_start", JNull), Pick(item, "realtime_end", JNull), now)
  }

  /** The value `_observation_to_dict` shows under `column`. */
  function ObservationField(row: Observation, column: string): Json {
    if column == "date" then JStr(row.date)
    else if column == "value" then row.value
    else if column == "realtime_start" then row.realtimeStart
    else if column == "realtime_end" then row.realtimeEnd
    else JNull
  }

  /** `_observation_to_dict`. */
  function ObservationToDict(row: Observation): Object {
    map column | column in ObservationDictColumns :: ObservationField(row, column)
  }

  /** An observation item that carries its four public fields comes back
      unchanged from the cache, its value text included (the missing-value
      sentinel "." is kept literally). */
  lemma ObservationRoundTrip(seriesId: string, date: string, item: Object, now: int)
    requires ObservationDictColumns <= item.Keys
    requires item["date"] == JStr(date)
    ensures ObservationToDict(NewObservation(seriesId, date, item, now)) == Restrict(item, ObservationDictColumns)
    ensures NewObservation(seriesId, date, item, now).value == item["value"]
  {
  }
}
