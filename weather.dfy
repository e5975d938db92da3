/** The weather helper's network side: `fetchJson` with its retries, `geocodePlace`
    and `getWeather` in front of the cache. Every `fetch` is a parameter mapping a
    request and an attempt number to what that call produced. */
module Weather {
  import opened Basics
  import opened Text
  import opened Retry
  import opened Cache
  import opened Places
  import opened Forecast

  // ---------------------------------------------------------------- fetchJson

  /** What one `fetch` produced: it threw (network failure, abort), or a response with
      its status, its text (used only when not ok) and the outcome of reading it as JSON. */
  datatype Response<+J> = NetworkError(error: Error) | HttpResponse(status: int, text: string, json: Completion<J>)

  /** `fetchJson`'s loop: 2 retries, 300 ms per attempt number, every error retried,
      and a sleep after the last failure too. */
  const OpenMeteoPolicy: Policy := Policy(2, 300, false, true)

  predicate IsOkStatus(status: int) {
    200 <= status <= 299
  }

  /** The error `fetchJson` throws for a response that is not ok. */
  function HttpError(status: int, text: string): Error {
    Error(None, "HTTP " + IntToString(status) + " calling Open-Meteo. " + Take(text, 200), "")
  }

  /** One attempt of `fetchJson`: a body when the response is ok and reads as JSON. */
  function AsAttempt<J>(r: Response<J>): (a: Attempt<J>)
    ensures !a.Empty?
    ensures a.Succeeded? <==> r.HttpResponse? && IsOkStatus(r.status) && r.json.Normal?
  {
    match r
    case NetworkError(e) => Failed(e)
    case HttpResponse(status, text, json) =>
      if !IsOkStatus(status) then Failed(HttpError(status, text))
      else
        match json
        case Normal(v) => Succeeded(v)
        case Abrupt(e) => Failed(e)
  }

  function Attempts<J>(fetch: nat -> Response<J>): nat -> Attempt<J> {
    (k: nat) => AsAttempt(fetch(k))
  }

  datatype Fetched<+J> = Fetched(result: Completion<J>, calls: nat, delays: seq<nat>)

  /** A run of `fetchJson`'s loop never ends without an error to throw. */
  lemma ExhaustedHasError<J>(fetch: nat -> Response<J>)
    ensures var run := RunAll(OpenMeteoPolicy, Attempts(fetch));
      run.outcome.Exhausted? ==> run.outcome.lastError == Some(AsAttempt(fetch(2)).error)
  {
    RunAllCharacterized(OpenMeteoPolicy, Attempts(fetch));
    assert !Halts(OpenMeteoPolicy, Attempts(fetch)(2)) ==> AsAttempt(fetch(2)).Failed?;
  }

  /** `fetchJson(url)`, its one fetch per attempt given as `fetch`. */
  function FetchJsonRun<J>(fetch: nat -> Response<J>): Fetched<J> {
    var run := RunAll(OpenMeteoPolicy, Attempts(fetch));
    ExhaustedHasError(fetch);
    match run.outcome
    case Got(v) => Fetched(Normal(v), run.calls, run.delays)
    case Stopped(e) => Fetched(Abrupt(e), run.calls, run.delays)
    case Exhausted(last) => Fetched(Abrupt(last.value), run.calls, run.delays)
  }

  method FetchJson<J>(fetch: nat -> Response<J>) returns (f: Fetched<J>)
    ensures f == FetchJsonRun(fetch)
  {
    ExhaustedHasError(fetch);
    var outcome, calls, delays := Execute(OpenMeteoPolicy, Attempts(fetch));
    match outcome
    case Got(v) => f := Fetched(Normal(v), calls, delays);
    case Stopped(e) => f := Fetched(Abrupt(e), calls, delays);
    case Exhausted(last) => f := Fetched(Abrupt(last.value), calls, delays);
  }

  /** `fetchJson` makes at most three calls. It returns the first successful body
      without another call, after sleeping 300 * (k + 1) ms after each failed
      attempt k; if all three fail it sleeps after the last one too and throws the
      last error. */
  lemma FetchJsonContract<J>(fetch: nat -> Response<J>)
    ensures var f := FetchJsonRun(fetch);
      && 1 <= f.calls <= 3
      && (forall j :: 0 <= j < f.calls - 1 ==> AsAttempt(fetch(j)).Failed?)
      && (f.result.Normal? ==> AsAttempt(fetch(f.calls - 1)) == Succeeded(f.result.value)
                               && f.delays == LinearDelays(300, f.calls - 1))
      && (f.result.Abrupt? ==> f.calls == 3 && AsAttempt(fetch(2)).Failed?
                               && f.result.error == AsAttempt(fetch(2)).error
                               && f.delays == LinearDelays(300, 3))
  {
    var p := OpenMeteoPolicy;
    var respond := Attempts(fetch);
    RunAllCharacterized(p, respond);
    ExhaustedHasError(fetch);
    var run := RunAll(p, respond);
    forall j | 0 <= j < run.calls - 1
      ensures respond(j).Failed? && !Halts(p, respond(j))
    {
      assert respond(j) == AsAttempt(fetch(j));
      assert !Halts(p, respond(j));
    }
    SleepsWhenAllFail(p, respond, run.calls - 1);
    if run.outcome.Exhausted? {
      forall j | 0 <= j < 3
        ensures respond(j).Failed? && !Halts(p, respond(j))
      {
        assert respond(j) == AsAttempt(fetch(j));
        assert !Halts(p, respond(j));
      }
      SleepsWhenAllFail(p, respond, 3);
    } else {
      assert !SleepsAfter(p, respond, run.calls - 1);
      assert run.delays == SleepsBefore(p, respond, run.calls - 1);
    }
  }

  // ---------------------------------------------------------------- geocodePlace

  /** The geocoder's body: its `results` array (absent or not an array reads as empty). */
  datatype GeocodeBody = GeocodeBody(results: seq<Candidate>)

  /** What a successful `geocodePlace` returns. */
  datatype GeoMatch = GeoMatch(latitude: real, longitude: real, location: string, timezone: string)

  /** A request the weather helper sends. */
  datatype WeatherRequest = GeocodeSearch(url: string) | ForecastFetch(latitude: real, longitude: real, timezone: string)

  function NoResultsMessage(place: string): string {
    "Couldn't find **" + place + "**. Try adding a country like \"Seattle, US\" or \"Paris, FR\"."
  }

  datatype Geocoded = Geocoded(result: Completion<Result<GeoMatch>>, log: seq<Exchange<WeatherRequest>>)

  /** The match `geocodePlace` reports for a chosen candidate. */
  function MatchOf(c: Candidate): GeoMatch {
    GeoMatch(c.latitude, c.longitude, FormatChosenLocation(c), c.timezone.GetOr("auto"))
  }

  /** What `geocodePlace` does once the geocoder has answered with `body`. */
  function ResolveCandidates(place: string, parts: PlaceParts, hints: GeoHints, body: GeocodeBody): Result<GeoMatch> {
    if body.results == [] then Fail(NoResultsMessage(place))
    else
      match Disambiguate(body.results, parts, hints)
      case None => Fail(NoResultsMessage(place))
      case Some(c) => Ok(MatchOf(c))
  }

  /** `geocodePlace(place)`, `search` answering each attempt of each geocoder URL. */
  function GeocodeRun(place: string, search: string -> nat -> Response<GeocodeBody>): Geocoded {
    var parts := ParsePlaceParts(Normalize(place));
    match ValidateCity(parts.city)
    case Fail(m) => Geocoded(Normal(Fail(m)), [])
    case Ok(_) =>
      var hints := DeriveGeoHints(parts.regionOrState, parts.country);
      var url := BuildGeocodeUrl(parts.city, hints.countryCode);
      var f := FetchJsonRun(search(url));
      var log := [Exchange(GeocodeSearch(url), f.calls, f.delays)];
      match f.result
      case Abrupt(e) => Geocoded(Abrupt(e), log)
      case Normal(body) => Geocoded(Normal(ResolveCandidates(place, parts, hints, body)), log)
  }

  /** The candidate handling of `geocodePlace`, with its dedupe loop. */
  method ChooseCandidate(place: string, parts: PlaceParts, hints: GeoHints, results: seq<Candidate>)
    returns (r: Result<GeoMatch>)
    ensures r == ResolveCandidates(place, parts, hints, GeocodeBody(results))
  {
    if |results| == 0 {
      return Fail(NoResultsMessage(place));
    }
    var unique := DedupeByLatLon(results);
    var narrowed := FilterByAdmin1Exact(unique, hints.stateFull);
    if hints.stateFull == "" {
      narrowed := FilterByAdmin1Includes(narrowed, parts.regionOrState);
    }
    var chosen := ChooseMostPopulated(narrowed);
    if chosen.None? {
      return Fail(NoResultsMessage(place));
    }
    return Ok(MatchOf(chosen.value));
  }

  method GeocodePlace(place: string, search: string -> nat -> Response<GeocodeBody>) returns (g: Geocoded)
    ensures g == GeocodeRun(place, search)
  {
    var normalized := Normalize(place);
    var parts := ParsePlaceParts(normalized);
    var valid := ValidateCity(parts.city);
    if valid.Fail? {
      return Geocoded(Normal(Fail(valid.message)), []);
    }
    var hints := DeriveGeoHints(parts.regionOrState, parts.country);
    var url := BuildGeocodeUrl(parts.city, hints.countryCode);
    var f := FetchJson(search(url));
    var log := [Exchange(GeocodeSearch(url), f.calls, f.delays)];
    if f.result.Abrupt? {
      return Geocoded(Abrupt(f.result.error), log);
    }
    var r := ChooseCandidate(place, parts, hints, f.result.value.results);
    return Geocoded(Normal(r), log);
  }

  /** A city shorter than two characters is rejected before any request. */
  lemma GeocodeRejectsShortCity(place: string, search: string -> nat -> Response<GeocodeBody>)
    requires |ParsePlaceParts(Normalize(place)).city| < 2
    ensures GeocodeRun(place, search).log == []
    ensures GeocodeRun(place, search).result == Normal(Fail("Type a real place name (ex: \"Seattle\" or \"Seattle, WA\")."))
  {
  }

  /** Otherwise exactly one geocoder URL is fetched, and whenever the geocoder answers
      with at least one candidate the lookup succeeds with one of them. */
  lemma GeocodeNonEmptyResultsOk(place: string, search: string -> nat -> Response<GeocodeBody>)
    requires |ParsePlaceParts(Normalize(place)).city| >= 2
    ensures |GeocodeRun(place, search).log| == 1
    ensures var parts := ParsePlaceParts(Normalize(place));
            var hints := DeriveGeoHints(parts.regionOrState, parts.country);
            var f := FetchJsonRun(search(BuildGeocodeUrl(parts.city, hints.countryCode)));
      f.result.Normal? && f.result.value.results != [] ==>
        GeocodeRun(place, search).result.Normal? && GeocodeRun(place, search).result.value.Ok?
        && exists c :: c in f.result.value.results && GeocodeRun(place, search).result.value.value == MatchOf(c)
  {
    var parts := ParsePlaceParts(Normalize(place));
    var hints := DeriveGeoHints(parts.regionOrState, parts.country);
    var f := FetchJsonRun(search(BuildGeocodeUrl(parts.city, hints.countryCode)));
    if f.result.Normal? && f.result.value.results != [] {
      DisambiguateNonEmpty(f.result.value.results, parts, hints);
    }
  }

  // ---------------------------------------------------------------- getWeather

  datatype WeatherReport = WeatherReport(location: string, current: Conditions, nextDays: seq<DaySummary>)

  type WeatherResult = Result<WeatherReport>

  /** `getWeather`'s outcome, the cache it leaves behind and the requests it made. */
  datatype WeatherRun = WeatherRun(result: Completion<WeatherResult>, cache: map<string, Entry<WeatherResult>>,
                                   log: seq<Exchange<WeatherRequest>>)

  function CacheKey(place: string): string {
    ToLower(Normalize(place))
  }

  function UnavailableMessage(place: string): string {
    "Forecast unavailable for **" + place + "** right now."
  }

  /** What `getWeather` returns on a cache miss, and the requests it makes for it. */
  datatype Fresh = Fresh(result: Completion<WeatherResult>, log: seq<Exchange<WeatherRequest>>)

  /** The report for a place, from the geocoder and the forecast, with no cache involved. */
  function FreshReport(place: string, search: string -> nat -> Response<GeocodeBody>,
                       forecast: WeatherRequest -> nat -> Response<ForecastBody>,
                       formatLabel: string -> string): Fresh
  {
    FromGeocode(place, GeocodeRun(place, search), forecast, formatLabel)
  }

  /** The rest of a miss once `geocodePlace` has answered with `geo`. */
  function FromGeocode(place: string, geo: Geocoded, forecast: WeatherRequest -> nat -> Response<ForecastBody>,
                       formatLabel: string -> string): Fresh
  {
    match geo.result
    case Abrupt(e) => Fresh(Abrupt(e), geo.log)
    case Normal(g) =>
      match g
      case Fail(m) => Fresh(Normal(Fail(m)), geo.log)
      case Ok(m) =>
        var req := ForecastFetch(m.latitude, m.longitude, m.timezone);
        var f := FetchJsonRun(forecast(req));
        var log := geo.log + [Exchange(req, f.calls, f.delays)];
        match f.result
        case Abrupt(e) => Fresh(Abrupt(e), log)
        case Normal(body) =>
          if HasDailyForecast(body)
          then Fresh(Normal(Ok(WeatherReport(m.location, ExtractCurrent(body), NextDays(body.daily, 7, formatLabel)))), log)
          else Fresh(Normal(Fail(UnavailableMessage(place))), log)
  }

  /** `getWeather(place)`: the cache read at `now`, the cache write at `later`. */
  function GetWeatherRun(place: string, cache: map<string, Entry<WeatherResult>>, now: int, later: int,
                         search: string -> nat -> Response<GeocodeBody>,
                         forecast: WeatherRequest -> nat -> Response<ForecastBody>,
                         formatLabel: string -> string): WeatherRun
  {
    var key := CacheKey(place);
    var afterRead := AfterLookup(cache, key, now);
    match Lookup(cache, key, now)
    case Some(v) => WeatherRun(Normal(v), afterRead, [])
    case None =>
      Settle(afterRead, key, later, FreshReport(place, search, forecast, formatLabel))
  }

  /** A miss's report and the cache write that follows it: a returned result (an
      `Ok` or a failure message) is stored, a thrown error is not. */
  function Settle(afterRead: map<string, Entry<WeatherResult>>, key: string, later: int, miss: Fresh): WeatherRun {
    match miss.result
    case Normal(r) => WeatherRun(miss.result, Store(afterRead, key, r, later), miss.log)
    case Abrupt(_) => WeatherRun(miss.result, afterRead, miss.log)
  }

  /** The uncached part of `getWeather`: geocode, then fetch and summarise the forecast. */
  method FetchReport(place: string, search: string -> nat -> Response<GeocodeBody>,
                     forecast: WeatherRequest -> nat -> Response<ForecastBody>,
                     formatLabel: string -> string)
    returns (result: Completion<WeatherResult>, log: seq<Exchange<WeatherRequest>>)
    ensures Fresh(result, log) == FreshReport(place, search, forecast, formatLabel)
  {
    var geo := GeocodePlace(place, search);
    log := geo.log;
    if geo.result.Abrupt? {
      return Abrupt(geo.result.error), log;
    }
    var g := geo.result.value;
    if g.Fail? {
      return Normal(Fail(g.message)), log;
    }
    var m := g.value;
    var req := ForecastFetch(m.latitude, m.longitude, m.timezone);
    var f := FetchJson(forecast(req));
    log := log + [Exchange(req, f.calls, f.delays)];
    if f.result.Abrupt? {
      return Abrupt(f.result.error), log;
    }
    var body := f.result.value;
    if !HasDailyForecast(body) {
      return Normal(Fail(UnavailableMessage(place))), log;
    }
    var days := SummarizeNextDays(body.daily, 7, formatLabel);
    assert days == NextDays(body.daily, 7, formatLabel);
    return Normal(Ok(WeatherReport(m.location, ExtractCurrent(body), days))), log;
  }

  method GetWeather(place: string, cache: TtlCache<WeatherResult>, now: int, later: int,
                    search: string -> nat -> Response<GeocodeBody>,
                    forecast: WeatherRequest -> nat -> Response<ForecastBody>,
                    formatLabel: string -> string)
    returns (result: Completion<WeatherResult>, log: seq<Exchange<WeatherRequest>>)
    modifies cache
    ensures var run := GetWeatherRun(place, old(cache.entries), now, later, search, forecast, formatLabel);
      result == run.result && cache.entries == run.cache && log == run.log
  {
    var key := CacheKey(place);
    var cached := cache.Get(key, now);
    if cached.Some? {
      return Normal(cached.value), [];
    }
    result, log := FetchReport(place, search, forecast, formatLabel);
    if result.Normal? {
      cache.Set(key, result.value, later);
    }
  }

  /** A live cache entry is returned as is, with no request and no change to the cache. */
  lemma CacheHitNoRequest(place: string, cache: map<string, Entry<WeatherResult>>, now: int, later: int,
                          search: string -> nat -> Response<GeocodeBody>,
                          forecast: WeatherRequest -> nat -> Response<ForecastBody>,
                          formatLabel: string -> string)
    requires Lookup(cache, CacheKey(place), now).Some?
    ensures var run := GetWeatherRun(place, cache, now, later, search, forecast, formatLabel);
      run.result == Normal(Lookup(cache, CacheKey(place), now).value) && run.log == [] && run.cache == cache
  {
  }

  /** On a miss every returned result, failure or success, is cached under the
      place's key and served for the next ten minutes; a thrown error is not cached;
      no other key's reads change. */
  lemma SettleCaches(cache: map<string, Entry<WeatherResult>>, key: string, now: int, later: int, miss: Fresh, t: int)
    requires t <= later + TtlMs
    ensures var run := Settle(AfterLookup(cache, key, now), key, later, miss);
      && run.result == miss.result && run.log == miss.log
      && (run.result.Normal? ==> Lookup(run.cache, key, t) == Some(run.result.value))
      && (run.result.Abrupt? ==> run.cache == AfterLookup(cache, key, now))
      && (forall k :: k != key ==> Lookup(run.cache, k, t) == Lookup(cache, k, t))
  {
    var run := Settle(AfterLookup(cache, key, now), key, later, miss);
    if run.result.Normal? {
      StoreThenLookup(AfterLookup(cache, key, now), key, run.result.value, later, t);
    }
    forall k | k != key ensures Lookup(run.cache, k, t) == Lookup(cache, k, t) {
      OtherKeysUnaffected(cache, key, k, Fail(""), now, t);
      if run.result.Normal? {
        OtherKeysUnaffected(AfterLookup(cache, key, now), key, k, run.result.value, later, t);
      }
    }
  }

  /** A miss on the place's key answers with the uncached report and settles the cache. */
  lemma MissCachesResult(place: string, cache: map<string, Entry<WeatherResult>>, now: int, later: int,
                         search: string -> nat -> Response<GeocodeBody>,
                         forecast: WeatherRequest -> nat -> Response<ForecastBody>,
                         formatLabel: string -> string, t: int)
    requires Lookup(cache, CacheKey(place), now).None?
    requires t <= later + TtlMs
    ensures var run := GetWeatherRun(place, cache, now, later, search, forecast, formatLabel);
      && run.result == FreshReport(place, search, forecast, formatLabel).result
      && (run.result.Normal? ==> Lookup(run.cache, CacheKey(place), t) == Some(run.result.value))
      && (run.result.Abrupt? ==> run.cache == AfterLookup(cache, CacheKey(place), now))
      && (forall k :: k != CacheKey(place) ==> Lookup(run.cache, k, t) == Lookup(cache, k, t))
  {
    var miss := FreshReport(place, search, forecast, formatLabel);
    assert GetWeatherRun(place, cache, now, later, search, forecast, formatLabel)
        == Settle(AfterLookup(cache, CacheKey(place), now), CacheKey(place), later, miss);
    SettleCaches(cache, CacheKey(place), now, later, miss, t);
  }

  /** `geocodePlace` sends at most one geocoder request, of at most three calls, and
      sends it whenever it answers with a match. */
  lemma GeocodeLog(place: string, search: string -> nat -> Response<GeocodeBody>)
    ensures var geo := GeocodeRun(place, search);
      && |geo.log| <= 1
      && (forall i :: 0 <= i < |geo.log| ==> 1 <= geo.log[i].calls <= 3 && geo.log[i].request.GeocodeSearch?)
      && (geo.result.Normal? && geo.result.value.Ok? ==> |geo.log| == 1)
  {
    var parts := ParsePlaceParts(Normalize(place));
    var geo := GeocodeRun(place, search);
    if ValidateCity(parts.city).Ok? {
      var hints := DeriveGeoHints(parts.regionOrState, parts.country);
      var url := BuildGeocodeUrl(parts.city, hints.countryCode);
      var f := FetchJsonRun(search(url));
      FetchJsonContract(search(url));
      assert geo.log == [Exchange(GeocodeSearch(url), f.calls, f.delays)];
    } else {
      assert geo.log == [] && geo.result == Normal(Fail(ValidateCity(parts.city).message));
    }
  }

  /** After a geocode of at most one geocoder request, sent whenever it found a
      match, exactly one forecast request follows when (and only when) it found a
      match, within `fetchJson`'s three calls. */
  lemma FromGeocodeLog(place: string, geo: Geocoded, forecast: WeatherRequest -> nat -> Response<ForecastBody>,
                       formatLabel: string -> string)
    requires |geo.log| <= 1
    requires forall i :: 0 <= i < |geo.log| ==> 1 <= geo.log[i].calls <= 3 && geo.log[i].request.GeocodeSearch?
    requires geo.result.Normal? && geo.result.value.Ok? ==> |geo.log| == 1
    ensures var miss := FromGeocode(place, geo, forecast, formatLabel);
      && |miss.log| <= 2
      && (forall i :: 0 <= i < |miss.log| ==> 1 <= miss.log[i].calls <= 3)
      && (|miss.log| == 2 <==> geo.result.Normal? && geo.result.value.Ok?)
      && (|miss.log| == 2 ==> miss.log[0].request.GeocodeSearch? && miss.log[1].request.ForecastFetch?)
  {
    if geo.result.Normal? && geo.result.value.Ok? {
      var m := geo.result.value.value;
      FetchJsonContract(forecast(ForecastFetch(m.latitude, m.longitude, m.timezone)));
    }
  }

  /** A miss makes the geocoder's request, then one forecast request exactly when the
      geocode found a match, each within `fetchJson`'s three calls. */
  lemma FreshRequests(place: string, search: string -> nat -> Response<GeocodeBody>,
                      forecast: WeatherRequest -> nat -> Response<ForecastBody>,
                      formatLabel: string -> string)
    ensures var miss := FreshReport(place, search, forecast, formatLabel);
            var geo := GeocodeRun(place, search);
      && |miss.log| <= 2
      && (forall i :: 0 <= i < |miss.log| ==> 1 <= miss.log[i].calls <= 3)
      && (|miss.log| == 2 <==> geo.result.Normal? && geo.result.value.Ok?)
      && (|miss.log| == 2 ==> miss.log[0].request.GeocodeSearch? && miss.log[1].request.ForecastFetch?)
  {
    GeocodeLog(place, search);
    FromGeocodeLog(place, GeocodeRun(place, search), forecast, formatLabel);
  }

  /** A successful report lists at most seven days, exactly the summaries of the
      forecast's daily arrays; a body without daily times gives the "unavailable" failure. */
  lemma ReportShape(place: string, search: string -> nat -> Response<GeocodeBody>,
                    forecast: WeatherRequest -> nat -> Response<ForecastBody>,
                    formatLabel: string -> string)
    requires GeocodeRun(place, search).result.Normal? && GeocodeRun(place, search).result.value.Ok?
    ensures var m := GeocodeRun(place, search).result.value.value;
            var f := FetchJsonRun(forecast(ForecastFetch(m.latitude, m.longitude, m.timezone)));
            var miss := FreshReport(place, search, forecast, formatLabel);
      f.result.Normal? ==>
        && (HasDailyForecast(f.result.value) ==>
              miss.result == Normal(Ok(WeatherReport(m.location, ExtractCurrent(f.result.value),
                                                      NextDays(f.result.value.daily, 7, formatLabel))))
              && |miss.result.value.value.nextDays| <= 7)
        && (!HasDailyForecast(f.result.value) ==> miss.result == Normal(Fail(UnavailableMessage(place))))
  {
  }
}
