# TREMM travel helpers, modelled in Dafny

TREMM is a Discord bot that plans trips. This project models the core of its
helper layer and proves properties of it. The modelled code is:

- **weather** (`src/helpers/weather.js`):
  - the Open-Meteo client: place normalisation, parsing and geocoding;
  - candidate disambiguation;
  - the forecast summary;
  - the retried `fetchJson`;
  - the ten-minute in-memory cache behind `getWeather`.
- **weather command** (`src/commands/weather.js`): the pure text builders of the
  command that prints the forecast (week range, peak rain, current conditions and
  day lines).
- **hotels** (`src/helpers/hotels.js`): two Amadeus requests, each retried, and
  the simplified hotel offers.
- **flights** (`src/helpers/flights.js`): one retried Amadeus flight-offers search
  and the simplified flights.
- **restaurants** (`src/helpers/restaurants.js`): the Geoapify geocode and the
  retried places search.
- **formatPrice** (`src/helpers/utils.js`).
- **validateDates** (`src/commands/plantrip.js`): the trip planner's date-range
  check.

Modules:

- **`Basics`**: options, results, completions (a value or a thrown error) and
  list helpers.
- **`Text`**: the JavaScript string operations the helpers use. These are trim
  with JavaScript's white-space set, split/join, `toLowerCase`/`toUpperCase`,
  `indexOf`, number-to-text and `encodeURIComponent`.
- **`Numbers`**: `Math.round`, `toFixed(2)` and a model of `parseFloat`, over
  exact reals that carry NaN and the infinities.
- **`Retry`**: the bounded retry loop that all four network helpers write out by
  hand. It is one executor (`Execute`) over a `Policy`. The policy records:
  - the number of retries;
  - the linear backoff base;
  - whether a 4xx status fails fast;
  - whether the last failure still sleeps.

  `Execute` is proved equal to a recursive definition (`RunAll`), and that
  definition is characterised outright (`RunAllCharacterized`).
- **`Amadeus`**: the copy of the loop in the Amadeus helpers (two retries,
  500 ms, fail fast on 4xx).
- **`Cache`**: the TTL map, as a class with one `entries` field.
- **`Places`**: normalisation, `parsePlaceParts`, the geo hints, dedupe, the
  admin1 filters and the choice of the most populated candidate.
- **`Forecast`**: unit conversions, weather codes, `summarizeNextDays` (a loop)
  and `extractCurrent`.
- **`Weather`**: `fetchJson`, `geocodePlace` and `getWeather`.
- **`WeekSummary`**: the weather command's text.
- **`Prices`**, **`Hotels`**, **`Flights`**, **`Restaurants`**, **`TripDates`**:
  the remaining helpers.

Each network call is a function parameter. The parameter maps the attempt number
to what that call returned (a body or a thrown error). Every helper returns what
it returns together with a log of the requests it sent. Each log entry records
the request, the number of calls and the sleeps between them, so "no request is
sent", "at most three calls" and "which sleeps are taken" are all provable.

Clocks and date parsing are parameters too: `now` and `later` are the two
`Date.now()` readings of `getWeather`, and `parseDate` is `new Date(...)` read as
a time value or `None`.

Behaviour of the code worth noting:

- A cache entry is still served at exactly its expiry time, because the code
  compares with `>`.
- A missing daily minimum or maximum becomes 32°F. The code converts `null` to 0
  before `cToF`.
- Hotels use the first offer that has a price total.
- The restaurant helper fetches no description.
- `formatPrice` is imported by the hotel helper but never called there.

## Model

| member | source | states |
|---|---|---|
| Cache.Lookup | src/helpers/weather.js:9-17 | a key is served exactly when it is present and not past its expiry (`now > expiresAt` is stale), and then its stored value |
| Cache.AfterLookup | src/helpers/weather.js:9-17 | a read deletes the key exactly when it is stale and leaves every other key as it was |
| Cache.Store | src/helpers/weather.js:19-21 | the key now holds the value with expiry now + 10 minutes; other keys keep their entries |
| Cache.StoreThenLookup | src/helpers/weather.js:6-21 | a stored value is served up to and including 10 minutes after the store, and after that it is gone and deleted by the read |
| Cache.OtherKeysUnaffected | src/helpers/weather.js:9-21 | storing or reading one key never changes what another key serves |
| Cache.TtlCache.Get | src/helpers/weather.js:9-17 | the method answers as `Lookup` does and leaves the map as `AfterLookup` says |
| Cache.TtlCache.Set | src/helpers/weather.js:19-21 | the method leaves the map as `Store` says |
| Retry.RunAll | src/helpers/flights.js:46-68 | (no contract of its own) `RunAllCharacterized` states the whole loop's outcome, calls and sleeps, and `Execute` computes it |
| Retry.RunFromCharacterized | src/helpers/hotels.js:39-50 | from any attempt reached without halting, the loop ends at the first halting attempt (a body, or a 4xx under fail-fast), or after the last attempt with the last thrown error; the sleeps are those after each earlier failure |
| Retry.RunAllCharacterized | src/helpers/flights.js:46-68 | the whole loop: one to maxRetries + 1 calls, no halt before the last, outcome, last error and sleeps as the independent definitions say |
| Retry.FirstHaltDecides | src/helpers/hotels.js:39-50 | the first attempt that halts decides both the outcome and the number of calls |
| Retry.NoHaltExhausts | src/helpers/restaurants.js:46-79 | with no halting attempt every attempt is made and the loop ends with the last thrown error |
| Retry.SleepsWhenAllFail | src/helpers/weather.js:27-48 | when every attempt fails, the sleeps are base, 2·base, ... one per failure, the last included only when the policy sleeps after the last failure |
| Retry.LinearDelays | src/helpers/flights.js:66 | the n linear backoff sleeps base·(j + 1) |
| Retry.Execute | src/helpers/flights.js:46-68 | the loop with its counter, last error and sleeps computes exactly `RunAll` |
| Amadeus.AsAttempt | src/helpers/hotels.js:40-46 | a returned body is a success and a thrown error a failure, never an empty answer |
| Amadeus.ExhaustedHasError | src/helpers/hotels.js:47 | an Amadeus loop that uses up its attempts always has an error to rethrow |
| Amadeus.CallRun | src/helpers/hotels.js:39-50 | (no contract of its own) `CallRunContract` states its calls, sleeps and result |
| Amadeus.CallWithRetries | src/helpers/hotels.js:39-50 | the retried SDK call computes `CallRun` |
| Amadeus.CallRunContract | src/helpers/flights.js:46-68 | one to three calls; every earlier call threw a non-4xx error; sleeps 500, 1000 ms before the last call; the result is the last call's body or error; a thrown result is a 4xx or the third call |
| Amadeus.ClientErrorFailsFast | src/helpers/hotels.js:46 | a 4xx on the first call is rethrown after that call, with no sleep |
| Weather.AsAttempt | src/helpers/weather.js:31-40 | a response counts as a success exactly when it is HTTP 2xx with a readable JSON body |
| Weather.ExhaustedHasError | src/helpers/weather.js:48 | the Open-Meteo loop that uses up its attempts always has an error to rethrow |
| Weather.FetchJsonRun | src/helpers/weather.js:24-49 | (no contract of its own) `FetchJsonContract` states its calls, sleeps and outcome |
| Weather.FetchJson | src/helpers/weather.js:24-49 | the loop computes `FetchJsonRun` |
| Weather.FetchJsonContract | src/helpers/weather.js:24-49 | one to three calls; the first success is returned after sleeps 300, 600 ms for the failures before it; otherwise three calls, three sleeps (300, 600, 900 ms, the last after the final failure) and the third error thrown |
| Weather.ChooseCandidate | src/helpers/weather.js:273-291 | the method over the candidates computes `ResolveCandidates` |
| Weather.GeocodeRun | src/helpers/weather.js:260-292 | (no contract of its own) `GeocodeRejectsShortCity`, `GeocodeNonEmptyResultsOk` and `GeocodeLog` state its refusals, matches and requests |
| Weather.GeocodePlace | src/helpers/weather.js:260-292 | the method computes `GeocodeRun` |
| Weather.GeocodeRejectsShortCity | src/helpers/weather.js:264-265 | a city shorter than two characters is refused with the hint message, with no request |
| Weather.GeocodeNonEmptyResultsOk | src/helpers/weather.js:267-291 | a valid city sends one geocoder request; non-empty results always give a match, and it is one of the results |
| Weather.FreshReport | src/helpers/weather.js:334-355 | (no contract of its own) `ReportShape`, `FromGeocodeLog` and `FreshRequests` state the uncached answer and its requests |
| Weather.FetchReport | src/helpers/weather.js:334-355 | the uncached path computes `FreshReport` |
| Weather.GetWeatherRun | src/helpers/weather.js:329-356 | (no contract of its own) `CacheHitNoRequest`, `MissCachesResult` and `SettleCaches` state what is served and cached |
| Weather.GetWeather | src/helpers/weather.js:329-356 | the cache-backed helper returns, logs and leaves the cache as `GetWeatherRun` says |
| Weather.CacheHitNoRequest | src/helpers/weather.js:330-332 | a live entry is returned as is, with no request and no change to the cache |
| Weather.SettleCaches | src/helpers/weather.js:335-355 | on a miss, each returned result (refusal, unavailable or success) is cached and served for the next ten minutes; a thrown error caches nothing; other keys serve as before |
| Weather.MissCachesResult | src/helpers/weather.js:329-356 | a miss answers with the uncached report and caches it under `normalizePlace(place).toLowerCase()` |
| Weather.GeocodeLog | src/helpers/weather.js:260-292 | geocoding sends at most one request of at most three calls, and it sends one whenever it returns a match |
| Weather.FromGeocodeLog | src/helpers/weather.js:334-345 | exactly one forecast request follows the geocode request, and only when the geocode found a match |
| Weather.FreshRequests | src/helpers/weather.js:329-356 | a miss makes at most two requests, geocoder then forecast, the second exactly when a match was found |
| Weather.ReportShape | src/helpers/weather.js:340-355 | a body without daily times gives the "Forecast unavailable" failure; otherwise the report's days are the summaries of the daily arrays, at most seven |
| Places.CommaRunsStart | src/helpers/weather.js:55 | rewriting comma runs keeps the text's first non-space character in place |
| Places.Collapse | src/helpers/weather.js:56 | collapsing white-space runs leaves text in which every space is a single ' ' |
| Places.Normalize | src/helpers/weather.js:52-57 | (no contract of its own) `NormalizeShape`, `NormalizeCommaSpacing` and `TypedPlaceNormalizes` state what the trim and the two replacements produce |
| Places.CommaRuns | src/helpers/weather.js:55 | (no contract of its own) `CommaRunsText` and `CommaRunsStart` state what the `\s*,\s*` → ", " replacement keeps; `NormalizeCommaSpacing` states the spacing it leaves around commas |
| Places.NormalizeShape | src/helpers/weather.js:52-57 | a normalised place keeps exactly the input's non-space characters in order, has no white space other than single plain spaces, does not start with white space, and is empty exactly for all-space input |
| Places.NormalizeCommaSpacing | src/helpers/weather.js:55-56 | after normalisation every comma is followed by exactly one space, and white space stands before a comma only right after another comma (the ", " left by an empty segment) |
| Places.TypedPlaceNormalizes | src/helpers/weather.js:52-57 | for non-empty, comma-free, trimmed, single-spaced a, b, c, d, the input "a , b,,c,d" normalises to "a, b, , c, d" |
| Places.CollapseText | src/helpers/weather.js:56 | collapsing runs keeps the non-space characters exactly |
| Places.CommaRunsText | src/helpers/weather.js:55 | rewriting `\s*,\s*` as ", " keeps the non-space characters exactly |
| Places.TrimText | src/helpers/weather.js:54 | trimming keeps the non-space characters exactly |
| Places.InNonSpace | src/helpers/weather.js:52-57 | a non-space character survives normalisation exactly when it was in the input |
| Places.TrimAll | src/helpers/weather.js:91 | each comma-separated part is trimmed, in order |
| Places.Segments | src/helpers/weather.js:91 | the kept parts are non-empty, trimmed and free of commas |
| Places.ParsePlaceParts | src/helpers/weather.js:90-97 | each field is trimmed and comma-free, and a field is empty only if every later field is empty |
| Places.SegmentsOfTypedPlace | src/helpers/weather.js:91 | the kept parts of "a , b,,c,d" are exactly a, b, c and d: the white space around each comma is trimmed away and the empty segment is dropped |
| Places.ParsePlacePartsOfTypedPlace | src/helpers/weather.js:90-97 | for non-empty, comma-free, trimmed, single-spaced a, b, c, d, parsing "a , b,,c,d" gives city a, region b and country c; the fourth part is ignored |
| Places.NoCommaAllCity | src/helpers/weather.js:90-97 | an input without a comma is all city: the trimmed normalised input, with empty region and country |
| Places.ValidateCity | src/helpers/weather.js:166-174 | a city is accepted exactly when it has at least two characters; otherwise the hint message is returned |
| Places.DeriveGeoHints | src/helpers/weather.js:176-194 | a two-letter country wins and is upper-cased; otherwise a known two-letter US state gives "US" and its full name; otherwise no hints |
| Places.KeysOfMember | src/helpers/weather.js:221 | a `latitude,longitude` key is among a list's keys exactly when some candidate has it |
| Places.Dedupe | src/helpers/weather.js:216-229 | dedupe keeps an order-preserving subsequence with exactly the input's keys not already seen |
| Places.DedupeDistinct | src/helpers/weather.js:216-229 | the kept candidates have pairwise distinct keys |
| Places.DedupeKeepsFirstOccurrences | src/helpers/weather.js:216-229 | dedupe keeps exactly the first candidate of each key, in input order |
| Places.DedupeByLatLon | src/helpers/weather.js:216-229 | the loop with its `seen` set computes `Dedupe` |
| Places.FilterByAdmin1Exact | src/helpers/weather.js:231-237 | with a target, exactly the candidates whose admin1 equals it ignoring case, unless none does; the input unchanged when the target is empty or nothing matches; never empties a non-empty list |
| Places.FilterByAdmin1Includes | src/helpers/weather.js:239-246 | for a trimmed region longer than two, exactly the candidates whose admin1 contains it ignoring case, unless none does; the input otherwise; never empties a non-empty list |
| Places.ArgMaxPopulation | src/helpers/weather.js:249 | the position of the earliest candidate with the greatest population, missing read as 0 |
| Places.ChooseMostPopulated | src/helpers/weather.js:248-251 | no choice only for no candidates; otherwise a candidate of greatest population and the earliest such, as a stable descending sort puts first |
| Places.IsTwoLetterCode | src/helpers/weather.js:99-101 | (no contract of its own) exactly two ASCII letters; `DeriveGeoHints` states how it picks the country hint |
| Places.FormatChosenLocation | src/helpers/weather.js:253-258 | the label starts with the name and ends with ", country (code)"; it is "name, admin1, country (code)" for a non-empty admin1 and "name, country (code)" otherwise |
| Places.Disambiguate | src/helpers/weather.js:273-283 | (no contract of its own) dedupe, the state filter, then the region filter, then the most populated; `DisambiguateNonEmpty` states that non-empty results always give one of them |
| Places.DisambiguateNonEmpty | src/helpers/weather.js:273-283 | for non-empty geocoder results the filters always leave a candidate, and the chosen one is one of the results |
| Forecast.CToF | src/helpers/weather.js:59-61 | the Celsius-to-Fahrenheit conversion is inverted by (f − 32)·5/9 |
| Forecast.KmhToMph | src/helpers/weather.js:63-65 | the km/h-to-mph conversion is inverted by dividing by 0.621371 |
| Forecast.CToFPoints | src/helpers/weather.js:59-61 | freezing and boiling map to 32 and 212, and the conversion is strictly increasing |
| Forecast.WeatherCodeToDesc | src/helpers/weather.js:123-127 | no code reads "forecast", a code in the table reads its description, any other code reads "mixed" |
| Forecast.WeatherCodeToDescCases | src/helpers/weather.js:105-127 | "forecast" exactly for no code and "mixed" exactly for an unlisted code; 61 is rain and 4 is mixed |
| Forecast.DayCount | src/helpers/weather.js:137 | the number of days is the least of the limit and the lengths of the time, min and max arrays, 0 without daily data |
| Forecast.DayAt | src/helpers/weather.js:139-160 | a day's label, Fahrenheit min/max (`null` read as 0 °C, so 32°F), rain probability as a fraction (0 when absent) and description by weather code |
| Forecast.SummarizeNextDays | src/helpers/weather.js:130-163 | the loop produces exactly `DayCount` days, the i-th being `DayAt` of index i |
| Forecast.NextDays | src/helpers/weather.js:130-163 | the functional form of the same summary, with the same contract |
| Forecast.HasDailyForecast | src/helpers/weather.js:324-326 | (no contract of its own) daily times present and non-empty; `ReportShape` states the "Forecast unavailable" answer without them |
| Forecast.ExtractCurrent | src/helpers/weather.js:313-322 | the converted current temperature (feels-like equal to it), humidity, wind in mph and the code's description, missing fields `null` |
| WeekSummary.Pct01ToPct | src/commands/weather.js:9-12 | a 0..1 probability rounds to the nearest whole percentage; no value or a non-finite one gives 0 |
| WeekSummary.FiniteValues | src/commands/weather.js:14-16 | the finite values, no others, and none exactly when no entry is finite |
| WeekSummary.MinOf | src/commands/weather.js:25 | `Math.min` returns an element no greater than any element |
| WeekSummary.MaxOf | src/commands/weather.js:26 | `Math.max` returns an element no less than any element |
| WeekSummary.LeastFinite | src/commands/weather.js:18-30 | the least finite value among the entries, absent exactly when none is finite |
| WeekSummary.GreatestFinite | src/commands/weather.js:18-30 | the greatest finite value among the entries, absent exactly when none is finite |
| WeekSummary.PeakRain | src/commands/weather.js:27 | the greatest rain percentage among the days, one of the days' percentages, 0 for no days |
| WeekSummary.WeekMinIsLeast | src/commands/weather.js:18-30 | the week's low is some day's finite minimum and no greater than any finite minimum; absent exactly when no minimum is finite |
| WeekSummary.WeekMaxIsGreatest | src/commands/weather.js:18-30 | the week's high is some day's finite maximum and no less than any finite maximum; absent exactly when no maximum is finite |
| WeekSummary.SummaryFallbackIff | src/commands/weather.js:32-40 | the summary line is the plain fallback exactly when the week has no low or no high |
| WeekSummary.FormatTempF | src/commands/weather.js:42-44 | no value prints "N/A"; a finite value prints its rounded integer and "°F"; NaN and the infinities print as `String` writes them, followed by "°F" |
| WeekSummary.LabeledMetric | src/commands/weather.js:46-50 | no value prints "name: **N/A**"; a finite value prints "name: **", the rounded integer, the suffix and "**"; NaN and the infinities print their text in the same frame |
| WeekSummary.ComputeWeekStats | src/commands/weather.js:18-30 | (no contract of its own) `WeekMinIsLeast`, `WeekMaxIsGreatest` and `PeakRain` state the week's low, high and rain peak |
| WeekSummary.WeekSummaryLine | src/commands/weather.js:32-40 | (no contract of its own) `SummaryFallbackIff` and `ReportShowsRange` state when the range or the fallback is printed |
| WeekSummary.BuildCurrentLines | src/commands/weather.js:52-64 | (no contract of its own) the headline and metrics line are built from `FormatTempF` and `LabeledMetric`, whose contracts give every value case; `MissingCurrentReadsNotAvailable` gives the lines without conditions |
| WeekSummary.MissingCurrentReadsNotAvailable | src/commands/weather.js:52-64 | without current conditions both lines read N/A and the description reads "forecast" |
| WeekSummary.RainText | src/commands/weather.js:66-70 | the rain part appears only for a positive percentage, and then shows it |
| WeekSummary.FormatDayLine | src/commands/weather.js:66-70 | (no contract of its own) `RainChanceIff` states that the rain chance appears exactly for a positive percentage |
| WeekSummary.RainChanceIff | src/commands/weather.js:66-70 | a day line mentions the rain chance exactly when the day's percentage is positive |
| WeekSummary.DayLines | src/commands/weather.js:86 | one formatted line per day, in order |
| WeekSummary.BuildWeatherMessage | src/commands/weather.js:72-91 | (no contract of its own) `MessageShape` states its lines |
| WeekSummary.MessageShape | src/commands/weather.js:72-91 | the message is six header lines, one line for each of at most the first seven days in order, a blank and the footer; the summary covers only those seven days |
| WeekSummary.ReportShowsRange | src/commands/weather.js:32-40 | for a non-empty report from the helper, whose temperatures are always numbers, the summary always shows the range |
| Numbers.RoundReal | src/commands/weather.js:5-7 | `Math.round` gives the nearest integer, halves rounding up |
| Numbers.MathRound | src/helpers/hotels.js:94 | `Math.round` keeps NaN and the infinities and rounds a finite value to the nearest integer |
| Numbers.ToFixed2 | src/helpers/utils.js:9 | (no contract of its own) `CentsBounds`, `Fixed2ValueClose` and `ParseFloatReadsToFixed2` state the printed figure |
| Numbers.ParseFloat | src/helpers/restaurants.js:23-24 | (no contract of its own) `ParseFloatNeedsDigit` and `ParseFloatReadsToFixed2` state what it reads |
| Numbers.CentsBounds | src/helpers/utils.js:9 | the cents `toFixed(2)` prints are the amount times 100 rounded to nearest |
| Numbers.Fixed2ValueClose | src/helpers/utils.js:9 | the printed figure is within half a cent of the amount |
| Numbers.ParseFloatNeedsDigit | src/helpers/restaurants.js:23-28 | text without a digit never reads as a finite number |
| Numbers.ParseFloatReadsToFixed2 | src/helpers/utils.js:4-9 | `parseFloat` reads what `toFixed(2)` printed back as the amount rounded to cents, for either sign |
| Numbers.Fixed2ValueIdempotent | src/helpers/utils.js:9 | rounding to cents twice is rounding once, and a rounded amount prints the same |
| Prices.FormatPrice | src/helpers/utils.js:2-13 | a missing or 'N/A' amount, or one that is NaN, prints "N/A"; a USD amount in any case prints "$" and two decimals; any other currency prints the figure and the code as given |
| Prices.ToFixed2Length | src/helpers/utils.js:9-12 | every printed number is longer than "N/A" |
| Prices.NotAvailableIff | src/helpers/utils.js:3-5 | "N/A" comes out exactly when there is no number to print |
| Prices.DefaultCurrencyIsUsd | src/helpers/utils.js:2 | omitting the currency is the same as passing "USD" or "usd" |
| Prices.UsdReadsBack | src/helpers/utils.js:7-9 | a dollar price is "$" and a figure that reads back as the amount rounded to cents |
| Prices.OtherCurrencyEchoed | src/helpers/utils.js:11-12 | a non-dollar price is the figure, one space and the currency exactly as given, and the figure reads back |
| Prices.FormatFixedText | src/helpers/utils.js:4 | a non-negative amount and its own two-decimal text format the same |
| Hotels.ErrorMessage | src/helpers/hotels.js:103-113 | status 400 gives the "major hub" message, 429 the rate-limit message, anything else the generic message |
| Hotels.ValidDatesStrict | src/helpers/hotels.js:5-9 | equal, reversed or unreadable dates are refused |
| Hotels.ValidDates | src/helpers/hotels.js:5-9 | (no contract of its own) both dates read and the check-out strictly later; `ValidDatesStrict` states the refused cases |
| Hotels.HotelIds | src/helpers/hotels.js:59 | (no contract of its own) `HotelIdsSplit` states which ids it carries |
| Hotels.HotelIdsSplit | src/helpers/hotels.js:59 | when the first five hotels have comma-free ids, splitting the joined text at "," gives exactly those ids, in order |
| Hotels.FirstPriced | src/helpers/hotels.js:91 | the first offer that has a price total, none exactly when no offer has one |
| Hotels.SimplifyOneFields | src/helpers/hotels.js:90-99 | name and city kept; stars 0 for a missing or zero rating, otherwise the rounded rating; price and currency from the first priced offer, "N/A" and "USD" otherwise |
| Hotels.Simplify | src/helpers/hotels.js:90-99 | (no contract of its own) `SimplifyShape` states its records and when it throws |
| Hotels.SimplifyOffers | src/helpers/hotels.js:90-99 | the loop over the first five entries computes `Simplify` |
| Hotels.SimplifyShape | src/helpers/hotels.js:90-99 | one record per entry for the first five, in order; the mapping throws exactly when one of them has no hotel |
| Hotels.HotelsRunOf | src/helpers/hotels.js:11-114 | (no contract of its own) `BadDatesNoRequest`, `MissingCredentialsNoRequest`, `AfterListShape`, `ThrownErrorMessage` and `RequestLog` state its answers and requests |
| Hotels.GetHotelOptions | src/helpers/hotels.js:11-114 | the helper returns and logs exactly what `HotelsRunOf` says |
| Hotels.BadDatesNoRequest | src/helpers/hotels.js:12-17 | dates that are not strictly increasing are refused first, with no request |
| Hotels.MissingCredentialsNoRequest | src/helpers/hotels.js:19-24 | a missing client id or secret is refused with no request |
| Hotels.AfterListShape | src/helpers/hotels.js:52-101 | no offers request for an empty hotel list; otherwise one for the first five ids, whose failure, emptiness or entries decide the answer |
| Hotels.ThrownErrorMessage | src/helpers/hotels.js:103-113 | a failed hotel-list request is answered with the message for its status, after that one request |
| Hotels.RequestLog | src/helpers/hotels.js:11-114 | at most two requests, the city's hotel list first and then the offers, each of one to three calls with 500 ms linear sleeps |
| Flights.OrNotAvailable | src/helpers/flights.js:95-96 | a missing or empty value reads "N/A" |
| Flights.AirlineName | src/helpers/flights.js:5-13 | (no contract of its own) the seven listed carriers; `AirlineText` states how a code is printed |
| Flights.AirlineText | src/helpers/flights.js:89-90 | a listed code reads "Name (code)", another code reads itself, no code reads "N/A" |
| Flights.ErrorText | src/helpers/flights.js:104 | the error's description, else its message, else "Unknown error" |
| Flights.ErrorMessage | src/helpers/flights.js:102-110 | "Flight API error", then " (status)" only for a truthy status, then the error text |
| Flights.Stops | src/helpers/flights.js:86 | one stop fewer than the segments, never below 0 |
| Flights.SimplifyFlight | src/helpers/flights.js:79-99 | (no contract of its own) `SimplifyFlightFields` states its fields |
| Flights.SimplifyFlightFields | src/helpers/flights.js:79-99 | airline and departure from the first segment, arrival from the last, "N/A" and no stops without segments; the price is the total in dollars |
| Flights.Simplify | src/helpers/flights.js:79 | one record for each of the first five offers, in order |
| Flights.FlightsRunOf | src/helpers/flights.js:15-111 | (no contract of its own) `MissingFieldsNoRequest`, `MissingCredentialsNoRequest`, `SearchOutcome` and `ClientErrorReported` state its answers and requests |
| Flights.GetFlightOptions | src/helpers/flights.js:15-111 | the helper returns and logs exactly what `FlightsRunOf` says |
| Flights.MissingFieldsNoRequest | src/helpers/flights.js:16-21 | a missing origin, destination or date is refused first, with no request |
| Flights.MissingCredentialsNoRequest | src/helpers/flights.js:23-31 | missing credentials are refused with no request |
| Flights.SearchOutcome | src/helpers/flights.js:41-101 | exactly one search, with upper-cased codes, one adult by default and five offers, in one to three calls; an empty answer gives "No flights found", a thrown error the API-error message, and a non-empty answer at most five records in provider order |
| Flights.ClientErrorReported | src/helpers/flights.js:61 | a 4xx on the first call is reported with its status after that single call |
| Restaurants.Coordinate | src/helpers/restaurants.js:23-24 | a missing coordinate is NaN and a number reads as itself |
| Restaurants.GeocodeCityRun | src/helpers/restaurants.js:9-31 | (no contract of its own) `GeocodeCityCases` states its refusals, its one call, the "Invalid Coordinates" failure and the returned point |
| Restaurants.GeocodeCity | src/helpers/restaurants.js:9-31 | the method computes `GeocodeCityRun` |
| Restaurants.GeocodeCityCases | src/helpers/restaurants.js:9-31 | a blank or absent location is refused without a call; otherwise one call with the trimmed text: no features gives "Could Not Find", a thrown error is passed on, a first feature without properties throws, a NaN coordinate gives "Invalid Coordinates", and otherwise the answer is the first feature's parsed point |
| Restaurants.ToRestaurant | src/helpers/restaurants.js:61-66 | name kept; categories or "Restaurant"; address or "Address Not Available"; url or a Google search link |
| Restaurants.SearchUrlShape | src/helpers/restaurants.js:65 | the fallback link is the Google search prefix followed by a URI-encoded query |
| Restaurants.PlacesAttempt | src/helpers/restaurants.js:58-69 | an answer with no features is empty; a success has one record per feature, in order |
| Restaurants.PlacesLoopContract | src/helpers/restaurants.js:46-76 | one to three calls; success from the first attempt yielding restaurants; otherwise exactly three; sleeps 500·(k + 1) only after a failed attempt k other than the last, never after an empty one |
| Restaurants.AllEmptyNoSleep | src/helpers/restaurants.js:46-79 | three empty answers are three calls with no sleep |
| Restaurants.AllThrowSleeps | src/helpers/restaurants.js:70-75 | three thrown errors are three calls with sleeps of 500 and 1000 ms |
| Restaurants.RestaurantsRunOf | src/helpers/restaurants.js:34-84 | (no contract of its own) `MissingKeyNoRequest`, `GeocodeFailureReported` and `PlacesOutcome` state its answers and requests |
| Restaurants.GetTopRestaurants | src/helpers/restaurants.js:34-84 | the helper returns and logs exactly what `RestaurantsRunOf` says |
| Restaurants.MissingKeyNoRequest | src/helpers/restaurants.js:35-37 | without an API key nothing is requested |
| Restaurants.GeocodeFailureReported | src/helpers/restaurants.js:80-83 | a geocoding failure is reported by its message with no places search; a blank location gets the "Invalid Location" message with no request at all |
| Restaurants.PlacesOutcome | src/helpers/restaurants.js:40-79 | after a good geocode, one places request follows; a success lists exactly one record per feature of the answering call; otherwise "No Restaurants Found Nearby" after three calls |
| TripDates.DateParts | src/commands/plantrip.js:7 | the input split on "to", each part trimmed |
| TripDates.ValidateDates | src/commands/plantrip.js:6-17 | each outcome exactly when its condition holds: a format error unless there are exactly two parts, an invalid-date error when either part does not parse, an order error when the end is before the start, and otherwise the range of the two dates |
| TripDates.NoSeparatorRejected | src/commands/plantrip.js:7-8 | an input without "to" is refused for its format |
| TripDates.SplitAround | src/commands/plantrip.js:7 | two pieces without "to" joined by "to" split back into themselves |
| TripDates.RangeAccepted | src/commands/plantrip.js:6-17 | "start to end" with readable dates in order, equal ones included, is accepted as that range |
| TripDates.SwappedRejected | src/commands/plantrip.js:14 | the same input with distinct dates swapped is refused for its order |
| Text.Trim | src/helpers/restaurants.js:10 | the trimmed text is the input without its leading and trailing white space, and empty exactly for all-space input |
| Text.ToLower | src/helpers/weather.js:330 | lower-cases character by character, keeping the length |
| Text.ToUpper | src/helpers/flights.js:49-50 | upper-cases character by character, keeping the length |
| Text.IndexOf | src/commands/plantrip.js:7 | the first occurrence of the separator, none exactly when it does not occur |
| Text.Split | src/commands/plantrip.js:7 | at least one part, the parts join back to the input, no part contains the separator |
| Text.SplitJoinComma | src/helpers/hotels.js:59 | joining comma-free parts with "," and splitting at "," gives the parts back |
| Text.NatToStringValue | src/helpers/flights.js:108 | a printed number reads back as itself |
| Text.IntToStringRoundTrip | src/commands/weather.js:32-40 | a printed integer, sign included, reads back as itself |
| Text.EncodeURIComponent | src/helpers/weather.js:196-202 | the encoding is no shorter than the input and uses only unreserved characters, '%' and upper-case hex digits |
| Text.EncodeIdentityIff | src/helpers/weather.js:198 | the encoding leaves a text unchanged exactly when all its characters are unreserved |

## Left out

- Network I/O, the `fetch`, axios and Amadeus SDK clients, timeouts and
  `AbortController`: each call is a parameter giving its outcome per attempt.
  The sleeps are recorded, not taken.
- Console logging and the Discord command plumbing (slash-command builders,
  replies, embeds, interactive prompts).
- `getHotelOptionsRetryDemo` and the demo commands. The interactive loops of the
  trip planner and its destination check are not part of this model;
  `src/helpers/geocode.js` is not part of this model.
- `new Date(...)` and `toLocaleDateString`: date parsing and the day label are
  parameters (`parseDate`, `formatLabel`).
- Floating point: numbers are exact reals with NaN and the infinities.
  `toFixed(2)` does not switch to exponent notation for amounts of 1e21 or more.
  Halfway cases round as exact decimals, not as their binary approximations.
  `cToF` and `kmhToMph` are exact.
- Case mapping is ASCII only. White space is JavaScript's white-space and line
  terminator set. Strings are sequences of code points, not UTF-16 units.
- URLs and query parameters are structured requests, not strings. Only the
  geocoder's URL text is built (`BuildGeocodeUrl`).
- `AIRLINES[code]` ignores inherited object keys such as "constructor".
- `null` and `undefined` are the one value `None`, except where the code tells
  them apart (`formatPrice`). The fallback search link of a restaurant
  (src/helpers/restaurants.js:65) shows a `null` name as "null"; the model's
  `NameText` prints "undefined" for both.
- A hotel rating that is non-numeric text is not modelled (ratings are numbers).
- Array entries that are themselves `null` are not modelled: a missing entry is
  modelled only at field level.
- Places.Normalize: the regular expressions are stated through what they produce
  (`NormalizeShape`, `NormalizeCommaSpacing`) and one worked input shape
  (`TypedPlaceNormalizes`). There is no single equation for all inputs.
- `String(Math.round(x))` (`RoundedText`) does not switch to exponent notation
  at 1e21 and above. A geocoder candidate's `name`, `country` and `countryCode`
  are required strings, so a result missing one is not modelled; the code would
  print "undefined" for it. Concurrent `getWeather` calls that share `CACHE`
  are not modelled; each call is one step on the cache.
