/** The cache keys `FREDAPICached` files its metadata under
    (fred_api_cached.py). Integers appear in keys as Python prints them;
    the series id and the date filters are spliced in verbatim, with `_` as
    the only separator. */
module CacheKeys {
  import opened Wrappers
  import opened Text

  /** The keyed filters (`observation_start`, `observation_end`) agree:
      both absent, or both present with the same value. The realtime
      filters are forwarded to the remote but never enter the key. */
  predicate SameKeyedFilters(k1: map<string, string>, k2: map<string, string>) {
    Given(k1, "observation_start") == Given(k2, "observation_start")
    && Given(k1, "observation_end") == Given(k2, "observation_end")
  }

  /** No supplied keyed filter contains an underscore. */
  predicate PlainFilters(k: map<string, string>) {
    Plain(Given(k, "observation_start")) && Plain(Given(k, "observation_end"))
  }

  predicate Plain(v: Option<string>) {
    v.Some? ==> '_' !in v.value
  }

  /** A supplied filter, if any. */
  function Given(kwargs: map<string, string>, param: string): (r: Option<string>)
    ensures r.Some? <==> param in kwargs
    ensures r.Some? ==> r.value == kwargs[param]
  {
    if param in kwargs then Some(kwargs[param]) else None
  }

  /** `releases_limit_{limit}` */
  function ReleasesKey(limit: int): string {
    "releases_limit_" + IntToString(limit)
  }

  /** `release_{release_id}` */
  function ReleaseKey(releaseId: int): string {
    "release_" + IntToString(releaseId)
  }

  /** `series_release_{release_id}_limit_{limit}` */
  function SeriesKey(releaseId: int, limit: int): string {
    "series_release_" + (IntToString(releaseId) + ("_limit_" + IntToString(limit)))
  }

  /** `_{param}_{value}` when the filter was supplied, nothing otherwise. */
  function FilterSuffix(kwargs: map<string, string>, param: string): (r: string)
    ensures param !in kwargs <==> r == ""
    ensures param in kwargs ==> r == "_" + param + "_" + kwargs[param]
  {
    if param in kwargs then ("_" + param + "_") + kwargs[param] else ""
  }

  /** The keyed filters that were supplied, start before end. */
  function FiltersSuffix(kwargs: map<string, string>): string {
    FilterSuffix(kwargs, "observation_start") + FilterSuffix(kwargs, "observation_end")
  }

  /** `observations_{series_id}_limit_{limit}`, then the keyed filters that
      were supplied. */
  function ObservationsKey(seriesId: string, limit: int, kwargs: map<string, string>): string {
    "observations_" + (seriesId + ("_limit_" + (IntToString(limit) + FiltersSuffix(kwargs))))
  }

  /** `_observation_start_` and `_observation_end_`, the tags the keyed
      filters are appended under. */
  const StartTag: string := "_observation_start_"
  const EndTag: string := "_observation_end_"

  lemma TagsSpelled()
    ensures "_" + "observation_start" + "_" == StartTag
    ensures "_" + "observation_end" + "_" == EndTag
  {
  }

  // -------------------------------------------------------------- injectivity

  /** Different limits never share a releases key. */
  lemma ReleasesKeyInjective(a: int, b: int)
    ensures ReleasesKey(a) == ReleasesKey(b) <==> a == b
  {
    if ReleasesKey(a) == ReleasesKey(b) {
      CancelPrefix("releases_limit_", IntToString(a), IntToString(b));
      IntToStringInjective(a, b);
    }
  }

  /** Different releases never share a release key. */
  lemma ReleaseKeyInjective(a: int, b: int)
    ensures ReleaseKey(a) == ReleaseKey(b) <==> a == b
  {
    if ReleaseKey(a) == ReleaseKey(b) {
      CancelPrefix("release_", IntToString(a), IntToString(b));
      IntToStringInjective(a, b);
    }
  }

  /** The end of a key after a word: empty or starting with an underscore. */
  predicate Separated(t: string) {
    |t| == 0 || t[0] == '_'
  }

  /** After a common prefix, an underscore-free word is delimited by the
      first underscore that follows it. */
  lemma SplitWord(p: string, x: string, t: string, y: string, u: string)
    requires '_' !in x && '_' !in y && Separated(t) && Separated(u)
    requires p + (x + t) == p + (y + u)
    ensures x == y && t == u
  {
    CancelPrefix(p, x + t, y + u);
    SplitAtUnderscore(x, t, y, u);
  }

  lemma LimitSeparated(l: int, rest: string)
    ensures Separated("_limit_" + (IntToString(l) + rest))
    ensures Separated("_limit_" + IntToString(l))
  {
  }

  /** A series key determines both its release and its limit: the printed
      release id holds no underscore, so the first underscore after the
      prefix ends it. */
  lemma SeriesKeyInjective(r1: int, l1: int, r2: int, l2: int)
    ensures SeriesKey(r1, l1) == SeriesKey(r2, l2) <==> r1 == r2 && l1 == l2
  {
    if SeriesKey(r1, l1) == SeriesKey(r2, l2) {
      IntToStringHasNoUnderscore(r1);
      IntToStringHasNoUnderscore(r2);
      LimitSeparated(l1, "");
      LimitSeparated(l2, "");
      SplitWord("series_release_", IntToString(r1), "_limit_" + IntToString(l1),
                IntToString(r2), "_limit_" + IntToString(l2));
      CancelPrefix("_limit_", IntToString(l1), IntToString(l2));
      IntToStringInjective(r1, r2);
      IntToStringInjective(l1, l2);
    }
  }

  /** The four kinds of key never collide with each other, whatever their
      arguments. */
  lemma KeyKindsDisjoint(a: int, b: int, c: int, d: int, sid: string, l: int, kwargs: map<string, string>)
    ensures ReleasesKey(a) != ReleaseKey(b)
    ensures ReleasesKey(a) != SeriesKey(c, d)
    ensures ReleasesKey(a) != ObservationsKey(sid, l, kwargs)
    ensures ReleaseKey(b) != SeriesKey(c, d)
    ensures ReleaseKey(b) != ObservationsKey(sid, l, kwargs)
    ensures SeriesKey(c, d) != ObservationsKey(sid, l, kwargs)
  {
    assert ReleasesKey(a)[7] == 's' && ReleasesKey(a)[0] == 'r';
    assert ReleaseKey(b)[7] == '_' && ReleaseKey(b)[0] == 'r';
    assert SeriesKey(c, d)[0] == 's';
    assert ObservationsKey(sid, l, kwargs)[0] == 'o';
  }

  // ------------------------------------------------------ observations keys

  /** The observations key depends on the keyed filters only: two requests
      that agree on the series, the limit and the presence and values of
      `observation_start` and `observation_end` share a key, whatever else
      (the realtime filters, for one) they pass. */
  lemma ObservationsKeyIgnoresOtherFilters(sid: string, limit: int, k1: map<string, string>, k2: map<string, string>)
    requires SameKeyedFilters(k1, k2)
    ensures ObservationsKey(sid, limit, k1) == ObservationsKey(sid, limit, k2)
  {
  }

  /** In particular, adding realtime filters to a request leaves its key
      unchanged. */
  lemma RealtimeFiltersNotKeyed(sid: string, limit: int, kwargs: map<string, string>, start: string, end: string)
    ensures ObservationsKey(sid, limit, kwargs["realtime_start" := start]["realtime_end" := end])
         == ObservationsKey(sid, limit, kwargs)
  {
    var k2 := kwargs["realtime_start" := start]["realtime_end" := end];
    ObservationsKeyIgnoresOtherFilters(sid, limit, k2, kwargs);
  }

  /** Supplying `observation_start` always changes the key: it lengthens
      it. */
  lemma ObservationStartChangesKey(sid: string, limit: int, kwargs: map<string, string>, v: string)
    requires "observation_start" !in kwargs
    ensures |ObservationsKey(sid, limit, kwargs["observation_start" := v])| > |ObservationsKey(sid, limit, kwargs)|
    ensures ObservationsKey(sid, limit, kwargs["observation_start" := v]) != ObservationsKey(sid, limit, kwargs)
  {
    var k2 := kwargs["observation_start" := v];
    assert FilterSuffix(k2, "observation_end") == FilterSuffix(kwargs, "observation_end");
    assert |FiltersSuffix(k2)| > |FiltersSuffix(kwargs)|;
  }

  /** An optional value under its tag. */
  function Tagged(v: Option<string>, tag: string): string {
    if v.Some? then tag + v.value else ""
  }

  lemma SuffixAsTags(k: map<string, string>)
    ensures FilterSuffix(k, "observation_end") == Tagged(Given(k, "observation_end"), EndTag)
    ensures FiltersSuffix(k) == Tagged(Given(k, "observation_start"), StartTag) + Tagged(Given(k, "observation_end"), EndTag)
  {
    TagsSpelled();
  }

  lemma SuffixesSeparated(k: map<string, string>)
    ensures Separated(FiltersSuffix(k))
    ensures Separated(FilterSuffix(k, "observation_end"))
  {
  }

  /** Two tags that both start with an underscore and differ at one
      position delimit underscore-free values unambiguously: the tagged
      pair determines both values. */
  lemma TaggedPairInjective(a1: Option<string>, b1: Option<string>, a2: Option<string>, b2: Option<string>,
                            ts: string, te: string, at: nat)
    requires at < |ts| && at < |te| && ts[at] != te[at] && |ts| > 0 && ts[0] == '_' && |te| > 0 && te[0] == '_'
    requires Plain(a1) && Plain(a2)
    requires Tagged(a1, ts) + Tagged(b1, te) == Tagged(a2, ts) + Tagged(b2, te)
    ensures a1 == a2 && b1 == b2
  {
    var e1 := Tagged(b1, te);
    var e2 := Tagged(b2, te);
    TagVisible(a1, b1, ts, te, at);
    TagVisible(a2, b2, ts, te, at);
    assert Separated(e1) && Separated(e2);
    if a1.Some? {
      assert Tagged(a1, ts) + e1 == ts + (a1.value + e1);
      assert Tagged(a2, ts) + e2 == ts + (a2.value + e2);
      SplitWord(ts, a1.value, e1, a2.value, e2);
    } else {
      assert Tagged(a1, ts) + e1 == e1 && Tagged(a2, ts) + e2 == e2;
    }
    if b1.Some? && b2.Some? {
      CancelPrefix(te, b1.value, b2.value);
    }
  }

  /** Whether the first value is there can be read off position `at`. */
  lemma TagVisible(a: Option<string>, b: Option<string>, ts: string, te: string, at: nat)
    requires at < |ts| && at < |te| && ts[at] != te[at]
    ensures var x := Tagged(a, ts) + Tagged(b, te);
      a.Some? <==> at < |x| && x[at] == ts[at]
  {
    if a.Some? {
      assert (Tagged(a, ts) + Tagged(b, te))[at] == ts[at];
    } else if b.Some? {
      assert (Tagged(a, ts) + Tagged(b, te))[at] == te[at];
    }
  }

  /** The filter suffixes determine which filters were given and their
      values, when no value contains an underscore. */
  lemma SuffixesInjective(k1: map<string, string>, k2: map<string, string>)
    requires PlainFilters(k1) && PlainFilters(k2)
    requires FiltersSuffix(k1) == FiltersSuffix(k2)
    ensures SameKeyedFilters(k1, k2)
  {
    SuffixAsTags(k1);
    SuffixAsTags(k2);
    TagsDiffer();
    TaggedPairInjective(Given(k1, "observation_start"), Given(k1, "observation_end"),
                        Given(k2, "observation_start"), Given(k2, "observation_end"), StartTag, EndTag, 13);
  }

  lemma TagsDiffer()
    ensures |StartTag| > 13 && |EndTag| > 13 && StartTag[13] != EndTag[13]
    ensures StartTag[0] == '_' && EndTag[0] == '_'
  {
  }

  /** When neither the series id nor any filter value contains an
      underscore (FRED's ids and ISO dates do not), an observations key
      determines the whole request it was built from. */
  lemma ObservationsKeyInjective(s1: string, l1: int, k1: map<string, string>,
                                 s2: string, l2: int, k2: map<string, string>)
    requires '_' !in s1 && '_' !in s2
    requires PlainFilters(k1) && PlainFilters(k2)
    requires ObservationsKey(s1, l1, k1) == ObservationsKey(s2, l2, k2)
    ensures s1 == s2 && l1 == l2
    ensures SameKeyedFilters(k1, k2)
  {
    var u1 := FiltersSuffix(k1);
    var u2 := FiltersSuffix(k2);
    LimitSeparated(l1, u1);
    LimitSeparated(l2, u2);
    SplitWord("observations_", s1, "_limit_" + (IntToString(l1) + u1), s2, "_limit_" + (IntToString(l2) + u2));
    CancelPrefix("_limit_", IntToString(l1) + u1, IntToString(l2) + u2);
    IntToStringHasNoUnderscore(l1);
    IntToStringHasNoUnderscore(l2);
    SuffixesSeparated(k1);
    SuffixesSeparated(k2);
    SplitAtUnderscore(IntToString(l1), u1, IntToString(l2), u2);
    IntToStringInjective(l1, l2);
    SuffixesInjective(k1, k2);
  }

  // --------------------------------------------------------------- collisions

  /** Without that restriction the key format is ambiguous: a series id
      that itself reads `{s}_limit_{l1}_observation_start_{v}` collides with
      series `s` queried from start date `{v}_limit_{l2}`, so two different
      requests share one metadata entry. */
  lemma ObservationsKeyCollision(s: string, v: string, l1: int, l2: int)
    ensures ObservationsKey(s + "_limit_" + IntToString(l1) + StartTag + v, l2, map[])
         == ObservationsKey(s, l1, map["observation_start" := v + "_limit_" + IntToString(l2)])
  {
    TagsSpelled();
    var w := v + "_limit_" + IntToString(l2);
    assert FiltersSuffix(map[]) == "";
    assert FiltersSuffix(map["observation_start" := w]) == StartTag + w;
    Regroup(s, "_limit_", IntToString(l1), StartTag, v, IntToString(l2));
  }

  /** The one regrouping the collision rests on. */
  lemma Regroup(s: string, lim: string, i1: string, tag: string, v: string, i2: string)
    ensures (s + lim + i1 + tag + v) + (lim + (i2 + "")) == s + (lim + (i1 + (tag + (v + lim + i2))))
  {
    assert i2 + "" == i2;
  }
}
