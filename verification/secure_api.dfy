/** The uncached client (`FREDAPISecure`, fred_api_secure.py): four thin
    endpoint wrappers and the release-observations workaround that fans out
    one observations request per series of a release. */
module SecureApi {
  import opened Wrappers
  import opened JsonValues
  import opened Seqs
  import opened Requests
  import opened Composite

  /** `get_releases(limit)`. */
  function GetReleases(api: Api, limit: int): (r: Response)
    ensures r.call.endpoint == "releases"
    ensures r.call.params.Keys == {"limit", "api_key", "file_type"}
    ensures r.call.params["limit"] == JInt(limit)
    ensures r.call.params["api_key"] == JStr(api.apiKey) && r.call.params["file_type"] == JStr("json")
    ensures r.answer == api.remote(r.call.endpoint, r.call.params)
  {
    Request(api, "releases", ReleasesParams(limit))
  }

  /** `get_release_info(release_id)`. */
  function GetReleaseInfo(api: Api, releaseId: int): (r: Response)
    ensures r.call.endpoint == "release"
    ensures r.call.params.Keys == {"release_id", "api_key", "file_type"}
    ensures r.call.params["release_id"] == JInt(releaseId)
    ensures r.call.params["api_key"] == JStr(api.apiKey) && r.call.params["file_type"] == JStr("json")
    ensures r.answer == api.remote(r.call.endpoint, r.call.params)
  {
    Request(api, "release", ReleaseInfoParams(releaseId))
  }

  /** `get_release_series(release_id, limit)`. */
  function GetReleaseSeries(api: Api, releaseId: int, limit: int): (r: Response)
    ensures r.call.endpoint == "release/series"
    ensures r.call.params.Keys == {"release_id", "limit", "api_key", "file_type"}
    ensures r.call.params["release_id"] == JInt(releaseId) && r.call.params["limit"] == JInt(limit)
    ensures r.call.params["api_key"] == JStr(api.apiKey) && r.call.params["file_type"] == JStr("json")
    ensures r.answer == api.remote(r.call.endpoint, r.call.params)
  {
    Request(api, "release/series", ReleaseSeriesParams(releaseId, limit))
  }

  /** `get_series_observations(series_id, limit, **kwargs)`: of the keyword
      arguments only the four date filters travel, and the key and format
      are always the client's. */
  function GetSeriesObservations(api: Api, seriesId: Json, limit: int, kwargs: map<string, Json>): (r: Response)
    ensures r.call.endpoint == "series/observations"
    ensures r.call.params.Keys == {"series_id", "limit"} + (kwargs.Keys * Names(DateFilters)) + {"api_key", "file_type"}
    ensures r.call.params["series_id"] == seriesId && r.call.params["limit"] == JInt(limit)
    ensures r.call.params["api_key"] == JStr(api.apiKey) && r.call.params["file_type"] == JStr("json")
    ensures forall k | k in kwargs && k in DateFilters :: r.call.params[k] == kwargs[k]
    ensures r.answer == api.remote(r.call.endpoint, r.call.params)
  {
    FiltersAreNotBaseParams();
    var params := SeriesObservationsParams(seriesId, limit, kwargs);
    assert "file_type" !in params;
    Request(api, "series/observations", params)
  }

  // ------------------------------------------------------------ the workaround

  /** The observations reply for each entry of the series list, one
      request per entry with the entry's id and no date filters. */
  function Replies(api: Api, items: seq<Json>, obsLimit: int): (r: seq<Option<Object>>)
    requires forall i | 0 <= i < |items| :: items[i].JObj? && "id" in items[i].fields
    ensures |r| == |items|
    ensures forall i | 0 <= i < |items| :: r[i] == GetSeriesObservations(api, items[i].fields["id"], obsLimit, map[]).answer
  {
    seq(|items|, i requires 0 <= i < |items| && items[i].JObj? && "id" in items[i].fields =>
      GetSeriesObservations(api, items[i].fields["id"], obsLimit, map[]).answer)
  }

  /** The replies the workaround indexes into have the shape it expects:
      a non-empty release list, and a series list of dicts with ids. */
  predicate RepliesShaped(api: Api, releaseId: int, seriesLimit: int) {
    && (Answered(GetReleaseInfo(api, releaseId).answer) ==> HasFirstRelease(GetReleaseInfo(api, releaseId).answer.value))
    && (Answered(GetReleaseSeries(api, releaseId, seriesLimit).answer) ==>
          HasSeriesList(GetReleaseSeries(api, releaseId, seriesLimit).answer.value))
  }

  /** `get_release_observations_workaround(release_id, series_limit,
      obs_limit)`: nothing unless both the release and its series list
      arrive; otherwise the release, the series that received observations
      (an order-preserving selection of the series list: a listed series
      appears exactly when its observations reply arrived and holds
      observations, and when every reply does, nothing is dropped), and
      metadata without a `cached` flag. */
  function Workaround(api: Api, releaseId: int, seriesLimit: int, obsLimit: int): (r: Option<ReleaseObservations>)
    requires RepliesShaped(api, releaseId, seriesLimit)
    ensures r.Some? <==>
      Answered(GetReleaseInfo(api, releaseId).answer) && Answered(GetReleaseSeries(api, releaseId, seriesLimit).answer)
    ensures r.Some? ==>
      var info := GetReleaseInfo(api, releaseId).answer.value;
      var data := GetReleaseSeries(api, releaseId, seriesLimit).answer.value;
      var replies := Replies(api, SeriesList(data), obsLimit);
      && r.value.release == FirstRelease(info)
      && r.value.metadata.totalSeriesInRelease == GetOr(data, "count", JInt(0))
      && r.value.metadata.seriesReturned == |SeriesList(data)|
      && r.value.metadata.observationsPerSeries == obsLimit
      && r.value.metadata.cached.None?
      && SelectedInOrder(SeriesList(data), replies, r.value.series, false)
      && ((forall i | 0 <= i < |replies| :: Usable(replies[i])) ==>
            |r.value.series| == |replies|
            && forall i | 0 <= i < |replies| ::
                 r.value.series[i] == WithObservations(SeriesList(data)[i].fields, replies[i].value, false))
  {
    var info := GetReleaseInfo(api, releaseId).answer;
    if !Answered(info) then None
    else
      var data := GetReleaseSeries(api, releaseId, seriesLimit).answer;
      if !Answered(data) then None
      else Some(Assemble(info.value, data.value, Replies(api, SeriesList(data.value), obsLimit), obsLimit, false))
  }
}
