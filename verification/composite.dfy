/** The "release with observations" result both clients assemble
    (`get_release_observations_workaround` and
    `get_release_observations_cached`), the reply shapes that assembly
    indexes into, and the order-preserving selection of the series that
    received observations. */
module Composite {
  import opened Wrappers
  import opened JsonValues
  import opened Seqs

  // ---------------------------------------------------------- reply shapes

  /** `release_info['releases'][0]` can be evaluated. */
  predicate HasFirstRelease(info: Object) {
    "releases" in info && info["releases"].JArr? && |info["releases"].items| > 0
  }

  function FirstRelease(info: Object): Json
    requires HasFirstRelease(info)
  {
    info["releases"].items[0]
  }

  /** `for series in series_data['seriess']`, `series['id']` and
      `series.copy()` can be evaluated: the list is there and holds dicts
      that name an id. */
  predicate HasSeriesList(data: Object) {
    && "seriess" in data
    && data["seriess"].JArr?
    && forall i | 0 <= i < |data["seriess"].items| ::
         data["seriess"].items[i].JObj? && "id" in data["seriess"].items[i].fields
  }

  function SeriesList(data: Object): (r: seq<Json>)
    requires HasSeriesList(data)
    ensures forall i | 0 <= i < |r| :: r[i].JObj? && "id" in r[i].fields
  {
    data["seriess"].items
  }

  // ----------------------------------------------------------------- result

  /** The `metadata` entry; `cached` is absent in the uncached client. */
  datatype Metadata = Metadata(
    totalSeriesInRelease: Json,
    seriesReturned: nat,
    observationsPerSeries: int,
    cached: Option<Json>)

  /** The combined result: the release record, the series that received
      observations, and the metadata. */
  datatype ReleaseObservations = ReleaseObservations(release: Json, series: seq<Object>, metadata: Metadata)

  /** The metadata built from the series reply: the reply's own `count`
      (0 when absent), the length of its list, the per-series limit, and in
      the cached client the reply's `cached` flag (False when absent). */
  function MetadataOf(seriesData: Object, obsLimit: int, withCached: bool): (m: Metadata)
    requires HasSeriesList(seriesData)
    ensures m.totalSeriesInRelease == if "count" in seriesData then seriesData["count"] else JInt(0)
    ensures m.seriesReturned == |SeriesList(seriesData)|
    ensures m.observationsPerSeries == obsLimit
    ensures m.cached.Some? <==> withCached
    ensures withCached ==> m.cached.value == if "cached" in seriesData then seriesData["cached"] else JBool(false)
  {
    Metadata(GetOr(seriesData, "count", JInt(0)), |SeriesList(seriesData)|, obsLimit,
             if withCached then Some(GetOr(seriesData, "cached", JBool(false))) else None)
  }

  /** The result as the dict the clients return. */
  function ToObject(r: ReleaseObservations): (o: Object)
    ensures o.Keys == {"release", "series", "metadata"}
    ensures o["release"] == r.release
    ensures o["series"] == ObjectsToJson(r.series)
    ensures o["metadata"].JObj?
    ensures o["metadata"].fields.Keys ==
      {"total_series_in_release", "series_returned", "observations_per_series"}
      + (if r.metadata.cached.Some? then {"cached"} else {})
  {
    var base := map["total_series_in_release" := r.metadata.totalSeriesInRelease,
                    "series_returned" := JInt(r.metadata.seriesReturned),
                    "observations_per_series" := JInt(r.metadata.observationsPerSeries)];
    var meta := if r.metadata.cached.Some? then base["cached" := r.metadata.cached.value] else base;
    map["release" := r.release, "series" := ObjectsToJson(r.series), "metadata" := JObj(meta)]
  }

  // -------------------------------------------------------------- selection

  /** `if obs_data and 'observations' in obs_data`: a reply that holds
      observations. */
  predicate Usable(obs: Option<Object>) {
    obs.Some? && "observations" in obs.value
  }

  /** `series.copy()` with the observations attached, and in the cached
      client the reply's `cached` flag (False when absent). */
  function WithObservations(series: Object, obs: Object, withCached: bool): (r: Object)
    requires "observations" in obs
    ensures r.Keys == series.Keys + {"observations"} + (if withCached then {"cached"} else {})
    ensures r["observations"] == obs["observations"]
    ensures withCached ==> r["cached"] == if "cached" in obs then obs["cached"] else JBool(false)
    ensures forall k | k in series && k != "observations" && k != "cached" :: r[k] == series[k]
    ensures !withCached ==> forall k | k in series && k != "observations" :: r[k] == series[k]
  {
    var attached := series["observations" := obs["observations"]];
    if withCached then attached["cached" := GetOr(obs, "cached", JBool(false))] else attached
  }

  /** What one iteration of the fan-out contributes: the enriched series
      when its reply holds observations, nothing otherwise. */
  function Keep(series: Json, obs: Option<Object>, withCached: bool): (r: Option<Object>)
    requires series.JObj?
    ensures r.Some? <==> Usable(obs)
  {
    if Usable(obs) then Some(WithObservations(series.fields, obs.value, withCached)) else None
  }

  /** `out` is an order-preserving selection of the series list `items`:
      position `j` of `out` is the series found at an increasing position
      `idx[j]` of `items`, enriched with its reply, and a position of `items`
      is selected exactly when its reply holds observations. */
  ghost predicate SelectedInOrder(items: seq<Json>, replies: seq<Option<Object>>, out: seq<Object>, withCached: bool)
    requires |replies| == |items|
    requires forall i | 0 <= i < |items| :: items[i].JObj?
  {
    exists idx: seq<nat> ::
      && |idx| == |out|
      && IncreasingBelow(idx, |items|)
      && (forall j | 0 <= j < |idx| ::
            Usable(replies[idx[j]])
            && out[j] == WithObservations(items[idx[j]].fields, replies[idx[j]].value, withCached))
      && (forall i | 0 <= i < |items| :: i in idx <==> Usable(replies[i]))
  }

  /** Keeping the usable replies of a fan-out, in order, is such a
      selection, and when every reply is usable it is the whole list. */
  lemma SelectionOfUsable(items: seq<Json>, replies: seq<Option<Object>>, attempts: seq<Option<Object>>, withCached: bool)
    requires |items| == |replies| == |attempts|
    requires forall i | 0 <= i < |items| :: items[i].JObj?
    requires forall i | 0 <= i < |items| :: attempts[i] == Keep(items[i], replies[i], withCached)
    ensures SelectedInOrder(items, replies, Somes(attempts), withCached)
    ensures (forall i | 0 <= i < |items| :: Usable(replies[i])) ==>
      && |Somes(attempts)| == |items|
      && forall i | 0 <= i < |items| :: Somes(attempts)[i] == WithObservations(items[i].fields, replies[i].value, withCached)
  {
    SomesIsOrderedSelection(attempts);
    var idx := SomeIndices(attempts);
    forall j | 0 <= j < |idx|
      ensures Usable(replies[idx[j]])
      ensures Somes(attempts)[j] == WithObservations(items[idx[j]].fields, replies[idx[j]].value, withCached)
    {
      assert attempts[idx[j]] == Some(Somes(attempts)[j]);
    }
    SomesKeepsEveryPresent(attempts);
  }

  // --------------------------------------------------------------- assembly

  /** The combined result from the release reply, the series reply and the
      observations reply of each listed series: the first release, the
      series that received observations in list order, and the metadata. */
  function Assemble(info: Object, seriesData: Object, replies: seq<Option<Object>>, obsLimit: int,
                    withCached: bool): (r: ReleaseObservations)
    requires HasFirstRelease(info) && HasSeriesList(seriesData)
    requires |replies| == |SeriesList(seriesData)|
    ensures r.release == FirstRelease(info)
    ensures r.metadata == MetadataOf(seriesData, obsLimit, withCached)
    ensures SelectedInOrder(SeriesList(seriesData), replies, r.series, withCached)
    ensures (forall i | 0 <= i < |replies| :: Usable(replies[i])) ==>
      && |r.series| == |replies|
      && forall i | 0 <= i < |replies| ::
           r.series[i] == WithObservations(SeriesList(seriesData)[i].fields, replies[i].value, withCached)
  {
    var items := SeriesList(seriesData);
    var kept := seq(|items|, i requires 0 <= i < |items| => Keep(items[i], replies[i], withCached));
    SelectionOfUsable(items, replies, kept, withCached);
    ReleaseObservations(FirstRelease(info), Somes(kept), MetadataOf(seriesData, obsLimit, withCached))
  }
}
