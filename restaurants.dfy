/** `getTopRestaurants`: geocode the location once, then search for restaurants
    around it, retrying errors and empty answers. */
module Restaurants {
  import opened Basics
  import opened Text
  import opened Numbers
  import opened Retry
  import opened Prices

  // ---------------------------------------------------------------- bodies

  /** A geocoder feature's `properties`; `lat` and `lon` go through `parseFloat`. */
  datatype GeoProperties = GeoProperties(lat: Amount, lon: Amount)

  datatype GeoFeature = GeoFeature(properties: Option<GeoProperties>)

  /** The geocoder's body: its `features` array, when it has one. */
  datatype GeoBody = GeoBody(features: Option<seq<GeoFeature>>)

  datatype LatLon = LatLon(lat: Number, lon: Number)

  /** A place's `properties`; `categories` is an array when present. */
  datatype PlaceProperties = PlaceProperties(name: Option<string>, categories: Option<seq<string>>,
                                             formatted: Option<string>, url: Option<string>)

  datatype PlaceFeature = PlaceFeature(properties: Option<PlaceProperties>)

  datatype PlacesBody = PlacesBody(features: Option<seq<PlaceFeature>>)

  /** A restaurant's category: the place's category list, or the word 'Restaurant'. */
  datatype Category = Listed(categories: seq<string>) | Named(name: string)

  datatype Restaurant = Restaurant(name: Option<string>, category: Category, address: string, url: string)

  /** The two requests: the geocoder's text search (one result) and the places search
      within 5000 m of a point (five results). */
  datatype RestaurantRequest =
    | GeocodeSearch(text: string, limit: nat)
    | PlacesSearch(lat: Number, lon: Number, radius: nat, limit: nat)

  // ---------------------------------------------------------------- messages

  const KeyMissingMessage := "Error: Geoapify API key missing in .env file."
  const InvalidLocationMessage := "Invalid Location Provided. Please Enter a City or Place Name."
  const NotFoundNearbyMessage := "No Restaurants Found Nearby. Try a Different Location."

  function CouldNotFindMessage(city: string): string {
    "Could Not Find Location For: \"" + city + "\"."
  }

  function InvalidCoordinatesMessage(city: string): string {
    "Invalid Coordinates Returned For: \"" + city + "\"."
  }

  /** Reading `feature.properties.lat` of a feature with no `properties` throws this. */
  const MissingGeoPropertiesError := Error(None, "Cannot read properties of undefined (reading 'lat')", "")

  /** Reading `r.properties.name` of a place with no `properties` throws this. */
  const MissingPlacePropertiesError := Error(None, "Cannot read properties of undefined (reading 'name')", "")

  predicate Truthy(v: Option<string>) {
    v.Some? && v.value != ""
  }

  // ---------------------------------------------------------------- geocodeCity

  /** `parseFloat` of a coordinate; a number reads as itself. */
  function Coordinate(a: Amount): (n: Number)
    ensures a.Undefined? || a.Null? ==> n.NaN?
    ensures a.Num? ==> n == a.n
  {
    match a
    case Undefined => NaN
    case Null => NaN
    case Str(s) => ParseFloat(s)
    case Num(n) => n
  }

  datatype Geocoded = Geocoded(result: Completion<LatLon>, log: seq<Exchange<RestaurantRequest>>)

  /** `geocodeCity(city)`: one geocoder call, not retried. */
  function GeocodeCityRun(city: Option<string>, geocode: RestaurantRequest -> Call<GeoBody>): Geocoded {
    var trimmed := if city.Some? then Trim(city.value) else "";
    if trimmed == "" then Geocoded(Abrupt(Error(None, InvalidLocationMessage, "")), [])
    else
      var req := GeocodeSearch(trimmed, 1);
      var log := [Exchange(req, 1, [])];
      match geocode(req)
      case Threw(e) => Geocoded(Abrupt(e), log)
      case Returned(body) =>
        if body.features.None? || body.features.value == [] then
          Geocoded(Abrupt(Error(None, CouldNotFindMessage(trimmed), "")), log)
        else
          match body.features.value[0].properties
          case None => Geocoded(Abrupt(MissingGeoPropertiesError), log)
          case Some(props) =>
            var lat := Coordinate(props.lat);
            var lon := Coordinate(props.lon);
            if lat.NaN? || lon.NaN? then Geocoded(Abrupt(Error(None, InvalidCoordinatesMessage(trimmed), "")), log)
            else Geocoded(Normal(LatLon(lat, lon)), log)
  }

  method GeocodeCity(city: Option<string>, geocode: RestaurantRequest -> Call<GeoBody>) returns (g: Geocoded)
    ensures g == GeocodeCityRun(city, geocode)
  {
    var trimmed := if city.Some? then Trim(city.value) else "";
    if trimmed == "" {
      return Geocoded(Abrupt(Error(None, InvalidLocationMessage, "")), []);
    }
    var req := GeocodeSearch(trimmed, 1);
    var log := [Exchange(req, 1, [])];
    var response := geocode(req);
    if response.Threw? {
      return Geocoded(Abrupt(response.error), log);
    }
    var features := response.value.features;
    if features.None? || features.value == [] {
      return Geocoded(Abrupt(Error(None, CouldNotFindMessage(trimmed), "")), log);
    }
    var props := features.value[0].properties;
    if props.None? {
      return Geocoded(Abrupt(MissingGeoPropertiesError), log);
    }
    var lat := Coordinate(props.value.lat);
    var lon := Coordinate(props.value.lon);
    if lat.NaN? || lon.NaN? {
      return Geocoded(Abrupt(Error(None, InvalidCoordinatesMessage(trimmed), "")), log);
    }
    return Geocoded(Normal(LatLon(lat, lon)), log);
  }

  /** A blank or absent location is refused without a call; otherwise the one call is
      made with the trimmed text. No features is "Could Not Find", a first feature
      without `properties` throws, a NaN coordinate is "Invalid Coordinates", and
      otherwise the answer is the first feature's parsed point. */
  lemma GeocodeCityCases(city: Option<string>, geocode: RestaurantRequest -> Call<GeoBody>)
    ensures var g := GeocodeCityRun(city, geocode);
      && (city.None? || AllSpace(city.value) ==> g == Geocoded(Abrupt(Error(None, InvalidLocationMessage, "")), []))
      && (city.Some? && !AllSpace(city.value) ==>
            var req := GeocodeSearch(Trim(city.value), 1);
            && g.log == [Exchange(req, 1, [])]
            && (geocode(req).Returned? && (geocode(req).value.features.None? || geocode(req).value.features.value == []) ==>
                  g.result == Abrupt(Error(None, CouldNotFindMessage(Trim(city.value)), "")))
            && (geocode(req).Threw? ==> g.result == Abrupt(geocode(req).error))
            && (geocode(req).Returned? && geocode(req).value.features.Some? && geocode(req).value.features.value != [] ==>
                  match geocode(req).value.features.value[0].properties
                  case None => g.result == Abrupt(MissingGeoPropertiesError)
                  case Some(props) =>
                    var lat := Coordinate(props.lat);
                    var lon := Coordinate(props.lon);
                    && (lat.NaN? || lon.NaN? ==>
                          g.result == Abrupt(Error(None, InvalidCoordinatesMessage(Trim(city.value)), "")))
                    && (!lat.NaN? && !lon.NaN? ==> g.result == Normal(LatLon(lat, lon)))))
      && (g.result.Normal? ==> !g.result.value.lat.NaN? && !g.result.value.lon.NaN?)
  {
  }

  // ---------------------------------------------------------------- the places loop

  /** A place's name as a template literal shows it: an absent name reads "undefined". */
  function NameText(name: Option<string>): string {
    name.GetOr("undefined")
  }

  function SearchUrl(name: Option<string>, location: string): string {
    "https://www.google.com/search?q=" + EncodeURIComponent(NameText(name) + " " + location)
  }

  /** The record for one place, from its `properties`. */
  function ToRestaurant(p: PlaceProperties, location: string): (r: Restaurant)
    ensures r.name == p.name
    ensures p.categories.Some? ==> r.category == Listed(p.categories.value)
    ensures p.categories.None? ==> r.category == Named("Restaurant")
    ensures Truthy(p.formatted) ==> r.address == p.formatted.value
    ensures !Truthy(p.formatted) ==> r.address == "Address Not Available"
    ensures Truthy(p.url) ==> r.url == p.url.value
    ensures !Truthy(p.url) ==> r.url == SearchUrl(p.name, location)
  {
    Restaurant(p.name,
               if p.categories.Some? then Listed(p.categories.value) else Named("Restaurant"),
               if Truthy(p.formatted) then p.formatted.value else "Address Not Available",
               if Truthy(p.url) then p.url.value else SearchUrl(p.name, location))
  }

  /** The fallback link is a Google search whose query is the URI-encoded name and location. */
  lemma SearchUrlShape(name: Option<string>, location: string)
    ensures var u := SearchUrl(name, location);
            var prefix := "https://www.google.com/search?q=";
      && |prefix| <= |u| && u[..|prefix|] == prefix
      && forall c :: c in u[|prefix|..] ==> IsUriUnreserved(c) || c == '%' || IsUpperHex(c)
  {
    var prefix := "https://www.google.com/search?q=";
    var u := SearchUrl(name, location);
    assert u[|prefix|..] == EncodeURIComponent(NameText(name) + " " + location);
  }

  /** One attempt of the places loop: a thrown error fails, an answer with no features
      is empty, and an answer with features succeeds unless mapping one of them throws. */
  function PlacesAttempt(c: Call<PlacesBody>, location: string): (a: Attempt<seq<Restaurant>>)
    ensures a.Empty? <==> c.Returned? && (c.value.features.None? || c.value.features.value == [])
    ensures a.Succeeded? ==>
              && c.Returned? && c.value.features.Some?
              && |a.value| == |c.value.features.value| > 0
              && forall i :: 0 <= i < |a.value| ==>
                   c.value.features.value[i].properties.Some?
                   && a.value[i] == ToRestaurant(c.value.features.value[i].properties.value, location)
  {
    match c
    case Threw(e) => Failed(e)
    case Returned(body) =>
      if body.features.None? || body.features.value == [] then Empty
      else
        var fs := body.features.value;
        if exists i :: 0 <= i < |fs| && fs[i].properties.None? then Failed(MissingPlacePropertiesError)
        else Succeeded(seq(|fs|, i requires 0 <= i < |fs| => ToRestaurant(fs[i].properties.value, location)))
  }

  function PlacesAttempts(call: nat -> Call<PlacesBody>, location: string): nat -> Attempt<seq<Restaurant>> {
    (k: nat) => PlacesAttempt(call(k), location)
  }

  /** Two retries, 500 ms per attempt number, no status classification, no sleep after
      the last attempt; an empty answer is retried at once. */
  const PlacesPolicy: Policy := Policy(2, 500, false, false)

  /** The places loop makes one to three calls and succeeds with the first attempt that
      yields restaurants; otherwise it makes exactly three. It sleeps 500 * (k + 1) ms
      after a failed attempt k other than the last and never after an empty one. */
  lemma PlacesLoopContract(call: nat -> Call<PlacesBody>, location: string)
    ensures var respond := PlacesAttempts(call, location);
            var run := RunAll(PlacesPolicy, respond);
      && 1 <= run.calls <= 3
      && !run.outcome.Stopped?
      && (forall j :: 0 <= j < run.calls - 1 ==> !respond(j).Succeeded?)
      && (run.outcome.Got? ==> respond(run.calls - 1) == Succeeded(run.outcome.value))
      && (!run.outcome.Got? ==> run.calls == 3 && forall j :: 0 <= j < 3 ==> !respond(j).Succeeded?)
      && run.delays == SleepsBefore(PlacesPolicy, respond, run.calls)
      && (forall j :: 0 <= j < 3 ==> (SleepsAfter(PlacesPolicy, respond, j) <==> j < 2 && respond(j).Failed?))
  {
    var respond := PlacesAttempts(call, location);
    RunAllCharacterized(PlacesPolicy, respond);
    var run := RunAll(PlacesPolicy, respond);
    assert !Halts(PlacesPolicy, respond(run.calls - 1)) ==> !respond(run.calls - 1).Succeeded?;
  }

  /** Three empty answers: three calls, no sleep, the "none nearby" outcome. */
  lemma AllEmptyNoSleep(call: nat -> Call<PlacesBody>, location: string)
    requires forall k: nat :: k < 3 ==> call(k).Returned? && call(k).value.features == Some([])
    ensures RunAll(PlacesPolicy, PlacesAttempts(call, location)) == Run(Exhausted(None), 3, [])
  {
    var respond := PlacesAttempts(call, location);
    assert respond(0).Empty? && respond(1).Empty? && respond(2).Empty?;
  }

  /** Three thrown errors: three calls and the sleeps 500 and 1000 ms. */
  lemma AllThrowSleeps(call: nat -> Call<PlacesBody>, location: string)
    requires forall k: nat :: k < 3 ==> call(k).Threw?
    ensures RunAll(PlacesPolicy, PlacesAttempts(call, location)) == Run(Exhausted(Some(call(2).error)), 3, [500, 1000])
  {
    var respond := PlacesAttempts(call, location);
    assert respond(0).Failed? && respond(1).Failed? && respond(2).Failed?;
  }

  // ---------------------------------------------------------------- getTopRestaurants

  datatype RestaurantsRun = RestaurantsRun(result: Result<seq<Restaurant>>, log: seq<Exchange<RestaurantRequest>>)

  function PlacesRequest(at: LatLon): RestaurantRequest {
    PlacesSearch(at.lat, at.lon, 5000, 5)
  }

  /** `getTopRestaurants({ location })`, the key and both axios calls passed in. */
  function RestaurantsRunOf(location: Option<string>, apiKey: Option<string>,
                            geocode: RestaurantRequest -> Call<GeoBody>,
                            places: RestaurantRequest -> nat -> Call<PlacesBody>): RestaurantsRun
  {
    if !Truthy(apiKey) then RestaurantsRun(Fail(KeyMissingMessage), [])
    else
      var g := GeocodeCityRun(location, geocode);
      match g.result
      case Abrupt(e) => RestaurantsRun(Fail(e.message), g.log)
      case Normal(at) =>
        var req := PlacesRequest(at);
        var run := RunAll(PlacesPolicy, PlacesAttempts(places(req), location.value));
        var log := g.log + [Exchange(req, run.calls, run.delays)];
        if run.outcome.Got? then RestaurantsRun(Ok(run.outcome.value), log)
        else RestaurantsRun(Fail(NotFoundNearbyMessage), log)
  }

  lemma GeocodedHasLocation(location: Option<string>, geocode: RestaurantRequest -> Call<GeoBody>)
    ensures GeocodeCityRun(location, geocode).result.Normal? ==> location.Some?
  {
  }

  method GetTopRestaurants(location: Option<string>, apiKey: Option<string>,
                           geocode: RestaurantRequest -> Call<GeoBody>,
                           places: RestaurantRequest -> nat -> Call<PlacesBody>)
    returns (result: Result<seq<Restaurant>>, log: seq<Exchange<RestaurantRequest>>)
    ensures RestaurantsRun(result, log) == RestaurantsRunOf(location, apiKey, geocode, places)
  {
    if !Truthy(apiKey) {
      return Fail(KeyMissingMessage), [];
    }
    var g := GeocodeCity(location, geocode);
    log := g.log;
    if g.result.Abrupt? {
      return Fail(g.result.error.message), log;
    }
    GeocodedHasLocation(location, geocode);
    var req := PlacesRequest(g.result.value);
    var outcome, calls, delays := Execute(PlacesPolicy, PlacesAttempts(places(req), location.value));
    log := log + [Exchange(req, calls, delays)];
    if outcome.Got? {
      return Ok(outcome.value), log;
    }
    return Fail(NotFoundNearbyMessage), log;
  }

  // ---------------------------------------------------------------- properties

  /** Without a key nothing is requested. */
  lemma MissingKeyNoRequest(location: Option<string>, apiKey: Option<string>,
                            geocode: RestaurantRequest -> Call<GeoBody>,
                            places: RestaurantRequest -> nat -> Call<PlacesBody>)
    requires !Truthy(apiKey)
    ensures RestaurantsRunOf(location, apiKey, geocode, places) == RestaurantsRun(Fail(KeyMissingMessage), [])
  {
  }

  /** A geocoding failure is reported by its message, and no places search follows. */
  lemma GeocodeFailureReported(location: Option<string>, apiKey: Option<string>,
                               geocode: RestaurantRequest -> Call<GeoBody>,
                               places: RestaurantRequest -> nat -> Call<PlacesBody>)
    requires Truthy(apiKey)
    requires GeocodeCityRun(location, geocode).result.Abrupt?
    ensures var g := GeocodeCityRun(location, geocode);
      RestaurantsRunOf(location, apiKey, geocode, places) == RestaurantsRun(Fail(g.result.error.message), g.log)
    ensures location.None? || AllSpace(location.value) ==>
      RestaurantsRunOf(location, apiKey, geocode, places) == RestaurantsRun(Fail(InvalidLocationMessage), [])
  {
    GeocodeCityCases(location, geocode);
  }

  /** After a good geocode: a success lists exactly one record per feature of the
      answering call, in order; otherwise the "none nearby" message after three calls. */
  lemma PlacesOutcome(location: Option<string>, apiKey: Option<string>,
                      geocode: RestaurantRequest -> Call<GeoBody>,
                      places: RestaurantRequest -> nat -> Call<PlacesBody>)
    requires Truthy(apiKey)
    requires GeocodeCityRun(location, geocode).result.Normal?
    ensures var g := GeocodeCityRun(location, geocode);
            var req := PlacesRequest(g.result.value);
            var r := RestaurantsRunOf(location, apiKey, geocode, places);
      && location.Some?
      && |r.log| == 2 && r.log[1].request == req && 1 <= r.log[1].calls <= 3
      && (r.result.Ok? ==>
            var c := places(req)(r.log[1].calls - 1);
            && c.Returned? && c.value.features.Some?
            && |r.result.value| == |c.value.features.value| > 0
            && forall i :: 0 <= i < |r.result.value| ==>
                 c.value.features.value[i].properties.Some?
                 && r.result.value[i] == ToRestaurant(c.value.features.value[i].properties.value, location.value))
      && (r.result.Fail? ==> r.result.message == NotFoundNearbyMessage && r.log[1].calls == 3)
  {
    GeocodeCityCases(location, geocode);
    var g := GeocodeCityRun(location, geocode);
    PlacesLoopContract(places(PlacesRequest(g.result.value)), location.value);
  }
}
