/** Requests to the FRED API as both clients build them (`make_request` in
    fred_api_secure.py and fred_api_cached.py, which are identical). The HTTP
    round trip itself is an uninterpreted function: it receives the endpoint
    and the final query parameters and answers with the decoded JSON object
    of a 200 response, or nothing. */
module Requests {
  import opened Wrappers
  import opened JsonValues

  /** Query parameters. */
  type Params = map<string, Json>

  /** The HTTP round trip. */
  type Remote = (string, Params) -> Option<Object>

  /** A client: the configured key and the remote it talks to. */
  datatype Api = Api(apiKey: string, remote: Remote)

  /** One request as it leaves the client. */
  datatype Call = Call(endpoint: string, params: Params)

  /** The reply to one request, with the request itself. */
  datatype Response = Response(answer: Option<Object>, call: Call)

  /** The constructor: the key comes from the environment; a missing or
      empty key raises, which is `None` here. */
  function NewApi(key: Option<string>, remote: Remote): (r: Option<Api>)
    ensures r.Some? <==> key.Some? && |key.value| > 0
    ensures r.Some? ==> r.value.apiKey == key.value && r.value.remote == remote
  {
    if key.Some? && |key.value| > 0 then Some(Api(key.value, remote)) else None
  }

  /** `make_request`'s parameter handling: the key always overrides, the
      response format defaults to JSON. */
  function MakeParams(params: Params, apiKey: string): (r: Params)
    ensures r.Keys == params.Keys + {"api_key", "file_type"}
    ensures r["api_key"] == JStr(apiKey)
    ensures r["file_type"] == if "file_type" in params then params["file_type"] else JStr("json")
    ensures forall k | k in params && k != "api_key" && k != "file_type" :: r[k] == params[k]
  {
    var keyed := params["api_key" := JStr(apiKey)];
    if "file_type" in keyed then keyed else keyed["file_type" := JStr("json")]
  }

  /** Building the parameters twice changes nothing: the second pass finds
      the key and the format already in place. */
  lemma MakeParamsIdempotent(params: Params, apiKey: string)
    ensures MakeParams(MakeParams(params, apiKey), apiKey) == MakeParams(params, apiKey)
  {
  }

  /** A caller's own `api_key` never reaches the remote; a caller's own
      `file_type` always does. */
  lemma CallerKeyOverridden(params: Params, apiKey: string, own: Json, format: Json)
    ensures MakeParams(params["api_key" := own], apiKey) == MakeParams(params, apiKey)
    ensures MakeParams(params["file_type" := format], apiKey)["file_type"] == format
  {
  }

  /** `make_request(endpoint, params)`. */
  function Request(api: Api, endpoint: string, params: Params): (r: Response)
    ensures r.call == Call(endpoint, MakeParams(params, api.apiKey))
    ensures r.answer == api.remote(endpoint, MakeParams(params, api.apiKey))
  {
    var sent := MakeParams(params, api.apiKey);
    Response(api.remote(endpoint, sent), Call(endpoint, sent))
  }

  /** `if not data`: the reply counts only when it is a non-empty object. */
  predicate Answered(answer: Option<Object>) {
    answer.Some? && |answer.value| > 0
  }

  // ------------------------------------------------------------- endpoints

  function ReleasesParams(limit: int): (r: Params)
    ensures r.Keys == {"limit"} && r["limit"] == JInt(limit)
  {
    map["limit" := JInt(limit)]
  }

  function ReleaseInfoParams(releaseId: int): (r: Params)
    ensures r.Keys == {"release_id"} && r["release_id"] == JInt(releaseId)
  {
    map["release_id" := JInt(releaseId)]
  }

  function ReleaseSeriesParams(releaseId: int, limit: int): (r: Params)
    ensures r.Keys == {"release_id", "limit"}
    ensures r["release_id"] == JInt(releaseId) && r["limit"] == JInt(limit)
  {
    map["release_id" := JInt(releaseId), "limit" := JInt(limit)]
  }

  /** The optional filters an observations request forwards, in order. */
  const DateFilters: seq<string> := ["realtime_start", "realtime_end", "observation_start", "observation_end"]

  /** The members of a list of names. */
  function Names(names: seq<string>): set<string> {
    set n | n in names
  }

  /** Copies into `params` those of `names` that the caller supplied. */
  function Forward(params: Params, kwargs: map<string, Json>, names: seq<string>): (r: Params)
    ensures r.Keys == params.Keys + (kwargs.Keys * Names(names))
    ensures forall k | k in r :: r[k] == if k in names && k in kwargs then kwargs[k] else params[k]
    decreases |names|
  {
    if |names| == 0 then params
    else
      var next := if names[0] in kwargs then params[names[0] := kwargs[names[0]]] else params;
      Forward(next, kwargs, names[1..])
  }

  /** `get_series_observations`' parameters: the series, the limit, and
      exactly those date filters the caller supplied; any other keyword is
      dropped. No filter is named `series_id` or `limit`, so adding the two
      fixed parameters last builds the same dict as the source's order. */
  function SeriesObservationsParams(seriesId: Json, limit: int, kwargs: map<string, Json>): (r: Params)
    ensures r.Keys == {"series_id", "limit"} + (kwargs.Keys * Names(DateFilters))
    ensures r["series_id"] == seriesId && r["limit"] == JInt(limit)
    ensures forall k | k in r && k in DateFilters :: r[k] == kwargs[k]
  {
    FiltersAreNotBaseParams();
    Forward(map[], kwargs, DateFilters)["series_id" := seriesId]["limit" := JInt(limit)]
  }

  /** No date filter is named like a fixed parameter; the first letters
      already differ. */
  lemma FiltersAreNotBaseParams()
    ensures forall n | n in DateFilters :: n != "series_id" && n != "limit" && n != "api_key" && n != "file_type"
    ensures "series_id" !in Names(DateFilters) && "limit" !in Names(DateFilters)
    ensures "api_key" !in Names(DateFilters) && "file_type" !in Names(DateFilters)
  {
    assert DateFilters[0][0] == 'r' && DateFilters[1][0] == 'r';
    assert DateFilters[2][0] == 'o' && DateFilters[3][0] == 'o';
  }

  /** Forwarding only looks at the listed names. */
  lemma {:induction false} ForwardIgnores(params: Params, kwargs: map<string, Json>, names: seq<string>, name: string, v: Json)
    requires name !in names
    ensures Forward(params, kwargs[name := v], names) == Forward(params, kwargs, names)
    decreases |names|
  {
    if |names| > 0 {
      var next := if names[0] in kwargs then params[names[0] := kwargs[names[0]]] else params;
      ForwardIgnores(next, kwargs, names[1..], name, v);
    }
  }

  /** Keywords outside the four date filters make no difference to the
      request. */
  lemma OtherKeywordsDropped(seriesId: Json, limit: int, kwargs: map<string, Json>, name: string, v: Json)
    requires name !in DateFilters
    ensures SeriesObservationsParams(seriesId, limit, kwargs[name := v]) == SeriesObservationsParams(seriesId, limit, kwargs)
  {
    ForwardIgnores(map[], kwargs, DateFilters, name, v);
  }
}
