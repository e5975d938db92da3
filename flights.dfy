/** `getFlightOptions`: one retried Amadeus flight-offers search and the first five
    offers simplified to fixed records. */
module Flights {
  import opened Basics
  import opened Text
  import opened Retry
  import opened Amadeus
  import opened Prices

  // ---------------------------------------------------------------- the AIRLINES table

  /** `AIRLINES[code]`, for the codes the table lists. */
  function AirlineName(code: string): Option<string> {
    match code
    case "F9" => Some("Frontier Airlines")
    case "AS" => Some("Alaska Airlines")
    case "HA" => Some("Hawaiian Airlines")
    case "AA" => Some("American Airlines")
    case "DL" => Some("Delta Air Lines")
    case "UA" => Some("United Airlines")
    case "WN" => Some("Southwest Airlines")
    case _ => None
  }

  /** A string value that is truthy: present and not "". */
  predicate Truthy(v: Option<string>) {
    v.Some? && v.value != ""
  }

  /** `v || "N/A"` */
  function OrNotAvailable(v: Option<string>): (r: string)
    ensures Truthy(v) ==> r == v.value
    ensures !Truthy(v) ==> r == "N/A"
  {
    if Truthy(v) then v.value else "N/A"
  }

  /** The airline column: "Name (code)" for a listed code, the code itself for any
      other, "N/A" when there is no code. */
  function AirlineText(code: Option<string>): (r: string)
    ensures code.Some? && AirlineName(code.value).Some? ==> r == AirlineName(code.value).value + " (" + code.value + ")"
    ensures code.Some? && AirlineName(code.value).None? && code.value != "" ==> r == code.value
    ensures !Truthy(code) ==> r == "N/A"
  {
    if code.Some? && AirlineName(code.value).Some? then AirlineName(code.value).value + " (" + code.value + ")"
    else OrNotAvailable(code)
  }

  // ---------------------------------------------------------------- inputs and bodies

  /** The helper's arguments; "" is a missing field, `None` an omitted `adults`. */
  datatype FlightQuery = FlightQuery(origin: string, destination: string, departureDate: string, adults: Option<int>)

  datatype Segment = Segment(carrierCode: Option<string>, departureAt: Option<string>, arrivalAt: Option<string>)

  datatype Itinerary = Itinerary(segments: Option<seq<Segment>>)

  datatype OfferPrice = OfferPrice(total: Amount)

  datatype FlightOffer = FlightOffer(itineraries: Option<seq<Itinerary>>, price: Option<OfferPrice>)

  datatype FlightResponse = FlightResponse(data: Option<seq<FlightOffer>>)

  /** One simplified flight. */
  datatype Flight = Flight(airline: string, price: string, departTime: string, arriveTime: string, stops: nat)

  datatype FlightRequest = FlightOffersSearch(originLocationCode: string, destinationLocationCode: string,
                                              departureDate: string, adults: int, max: nat)

  // ---------------------------------------------------------------- messages

  const MissingFieldsMessage := "Missing required fields. Need origin, destination, and departureDate (YYYY-MM-DD)."
  const CredentialsMessage := "Amadeus credentials not found. Set AMADEUS_CLIENT_ID and AMADEUS_CLIENT_SECRET in Codespaces secrets."

  function NoFlightsMessage(q: FlightQuery): string {
    "No flights found for " + ToUpper(q.origin) + " \U{2192} " + ToUpper(q.destination) + " on " + q.departureDate + "."
  }

  /** `err.description || err.message || "Unknown error"` */
  function ErrorText(e: Error): (m: string)
    ensures e.description != "" ==> m == e.description
    ensures e.description == "" && e.message != "" ==> m == e.message
    ensures e.description == "" && e.message == "" ==> m == "Unknown error"
  {
    if e.description != "" then e.description
    else if e.message != "" then e.message
    else "Unknown error"
  }

  /** The outer `catch`: "Flight API error (status): text", the status part only for a truthy status. */
  function ErrorMessage(e: Error): (m: string)
    ensures e.status.Some? && e.status.value != 0 ==>
              m == "Flight API error (" + IntToString(e.status.value) + "): " + ErrorText(e)
    ensures e.status.None? || e.status.value == 0 ==> m == "Flight API error: " + ErrorText(e)
  {
    var statusPart := if e.status.Some? && e.status.value != 0 then " (" + IntToString(e.status.value) + ")" else "";
    "Flight API error" + statusPart + ": " + ErrorText(e)
  }

  // ---------------------------------------------------------------- simplification

  /** `offer.itineraries?.[0]?.segments || []` */
  function SegmentsOf(offer: FlightOffer): seq<Segment> {
    if offer.itineraries.Some? && |offer.itineraries.value| > 0
    then offer.itineraries.value[0].segments.GetOr([])
    else []
  }

  /** `Math.max(0, segments.length - 1)` */
  function Stops(segments: seq<Segment>): (n: nat)
    ensures segments == [] ==> n == 0
    ensures segments != [] ==> n == |segments| - 1
  {
    if |segments| == 0 then 0 else |segments| - 1
  }

  /** The record for one offer. */
  function SimplifyFlight(offer: FlightOffer): Flight {
    var segs := SegmentsOf(offer);
    var first := if segs == [] then None else Some(segs[0]);
    var last := if segs == [] then None else Some(segs[|segs| - 1]);
    var total := if offer.price.Some? then offer.price.value.total else Undefined;
    Flight(AirlineText(if first.Some? then first.value.carrierCode else None),
           FormatPrice(total, Some("USD")),
           OrNotAvailable(if first.Some? then first.value.departureAt else None),
           OrNotAvailable(if last.Some? then last.value.arrivalAt else None),
           Stops(segs))
  }

  /** The record's airline and departure come from the first segment of the first
      itinerary and its arrival from the last segment; with no segment they are "N/A"
      and the flight has no stop; the price is the dollar figure of the offer's total. */
  lemma SimplifyFlightFields(offer: FlightOffer)
    ensures var f := SimplifyFlight(offer);
            var segs := SegmentsOf(offer);
      && (segs == [] ==> f.airline == "N/A" && f.departTime == "N/A" && f.arriveTime == "N/A" && f.stops == 0)
      && (segs != [] ==>
            && f.airline == AirlineText(segs[0].carrierCode)
            && f.departTime == OrNotAvailable(segs[0].departureAt)
            && f.arriveTime == OrNotAvailable(segs[|segs| - 1].arrivalAt)
            && f.stops + 1 == |segs|)
      && (offer.price.None? ==> f.price == "N/A")
      && (offer.price.Some? ==> f.price == FormatPrice(offer.price.value.total, None))
  {
    var total := if offer.price.Some? then offer.price.value.total else Undefined;
    DefaultCurrencyIsUsd(total);
    assert ToUpper("USD") == "USD";
  }

  /** `offers.slice(0, 5).map(...)` */
  function Simplify(offers: seq<FlightOffer>): (r: seq<Flight>)
    ensures |r| == (if |offers| < 5 then |offers| else 5)
    ensures forall i :: 0 <= i < |r| ==> r[i] == SimplifyFlight(offers[i])
  {
    var first := Take(offers, 5);
    seq(|first|, i requires 0 <= i < |first| => SimplifyFlight(first[i]))
  }

  // ---------------------------------------------------------------- getFlightOptions

  datatype FlightsRun = FlightsRun(result: Result<seq<Flight>>, log: seq<Exchange<FlightRequest>>)

  /** The search the helper sends: upper-cased codes, one adult by default, five offers. */
  function SearchOf(q: FlightQuery): FlightRequest {
    FlightOffersSearch(ToUpper(q.origin), ToUpper(q.destination), q.departureDate, q.adults.GetOr(1), 5)
  }

  /** What the helper returns once the retried search has finished as `c`. */
  function AfterSearch(q: FlightQuery, c: Called<FlightResponse>): Result<seq<Flight>> {
    match c.result
    case Abrupt(e) => Fail(ErrorMessage(e))
    case Normal(response) =>
      var offers := response.data.GetOr([]);
      if offers == [] then Fail(NoFlightsMessage(q)) else Ok(Simplify(offers))
  }

  /** `getFlightOptions(query)`, the two environment variables and the SDK call passed in. */
  function FlightsRunOf(q: FlightQuery, clientId: Option<string>, clientSecret: Option<string>,
                        search: FlightRequest -> nat -> Call<FlightResponse>): FlightsRun
  {
    if q.origin == "" || q.destination == "" || q.departureDate == "" then FlightsRun(Fail(MissingFieldsMessage), [])
    else if !Truthy(clientId) || !Truthy(clientSecret) then FlightsRun(Fail(CredentialsMessage), [])
    else
      var c := CallRun(search(SearchOf(q)));
      FlightsRun(AfterSearch(q, c), [Exchange(SearchOf(q), c.calls, c.delays)])
  }

  method GetFlightOptions(q: FlightQuery, clientId: Option<string>, clientSecret: Option<string>,
                          search: FlightRequest -> nat -> Call<FlightResponse>)
    returns (result: Result<seq<Flight>>, log: seq<Exchange<FlightRequest>>)
    ensures FlightsRun(result, log) == FlightsRunOf(q, clientId, clientSecret, search)
  {
    if q.origin == "" || q.destination == "" || q.departureDate == "" {
      return Fail(MissingFieldsMessage), [];
    }
    if !Truthy(clientId) || !Truthy(clientSecret) {
      return Fail(CredentialsMessage), [];
    }
    var req := SearchOf(q);
    var c := CallWithRetries(search(req));
    log := [Exchange(req, c.calls, c.delays)];
    if c.result.Abrupt? {
      return Fail(ErrorMessage(c.result.error)), log;
    }
    var offers := c.result.value.data.GetOr([]);
    if offers == [] {
      return Fail(NoFlightsMessage(q)), log;
    }
    var simplified := Simplify(offers);
    return Ok(simplified), log;
  }

  // ---------------------------------------------------------------- properties

  /** A missing origin, destination or date is refused first, with no request. */
  lemma MissingFieldsNoRequest(q: FlightQuery, clientId: Option<string>, clientSecret: Option<string>,
                               search: FlightRequest -> nat -> Call<FlightResponse>)
    requires q.origin == "" || q.destination == "" || q.departureDate == ""
    ensures FlightsRunOf(q, clientId, clientSecret, search) == FlightsRun(Fail(MissingFieldsMessage), [])
  {
  }

  /** With every field present, missing credentials are refused with no request. */
  lemma MissingCredentialsNoRequest(q: FlightQuery, clientId: Option<string>, clientSecret: Option<string>,
                                    search: FlightRequest -> nat -> Call<FlightResponse>)
    requires q.origin != "" && q.destination != "" && q.departureDate != ""
    requires !Truthy(clientId) || !Truthy(clientSecret)
    ensures FlightsRunOf(q, clientId, clientSecret, search) == FlightsRun(Fail(CredentialsMessage), [])
  {
  }

  /** Otherwise exactly one search is sent, with the upper-cased codes and at most five
      offers asked for, in one to three calls with the 500 ms linear sleeps; an empty
      answer gives the "No flights found" message, a thrown error the API-error message,
      and a non-empty one at most five records in provider order. */
  lemma SearchOutcome(q: FlightQuery, clientId: Option<string>, clientSecret: Option<string>,
                      search: FlightRequest -> nat -> Call<FlightResponse>)
    requires q.origin != "" && q.destination != "" && q.departureDate != ""
    requires Truthy(clientId) && Truthy(clientSecret)
    ensures var r := FlightsRunOf(q, clientId, clientSecret, search);
            var c := CallRun(search(SearchOf(q)));
      && |r.log| == 1 && r.log[0].request == FlightOffersSearch(ToUpper(q.origin), ToUpper(q.destination), q.departureDate, q.adults.GetOr(1), 5)
      && 1 <= r.log[0].calls <= 3 && r.log[0].delays == LinearDelays(500, r.log[0].calls - 1)
      && (c.result.Abrupt? ==> r.result == Fail(ErrorMessage(c.result.error)))
      && (c.result.Normal? && (c.result.value.data.None? || c.result.value.data.value == []) ==>
            r.result == Fail(NoFlightsMessage(q)))
      && (c.result.Normal? && c.result.value.data.Some? && c.result.value.data.value != [] ==>
            var offers := c.result.value.data.value;
            && r.result.Ok? && 1 <= |r.result.value| <= 5
            && |r.result.value| == (if |offers| < 5 then |offers| else 5)
            && forall i :: 0 <= i < |r.result.value| ==> r.result.value[i] == SimplifyFlight(offers[i]))
  {
    CallRunContract(search(SearchOf(q)));
  }

  /** A 4xx answer to the first call is reported after that one call, with its status. */
  lemma ClientErrorReported(q: FlightQuery, clientId: Option<string>, clientSecret: Option<string>,
                            search: FlightRequest -> nat -> Call<FlightResponse>)
    requires q.origin != "" && q.destination != "" && q.departureDate != ""
    requires Truthy(clientId) && Truthy(clientSecret)
    requires search(SearchOf(q))(0).Threw? && IsClientError(search(SearchOf(q))(0).error)
    ensures var e := search(SearchOf(q))(0).error;
      FlightsRunOf(q, clientId, clientSecret, search) ==
      FlightsRun(Fail("Flight API error (" + IntToString(e.status.value) + "): " + ErrorText(e)),
                 [Exchange(SearchOf(q), 1, [])])
  {
    ClientErrorFailsFast(search(SearchOf(q)));
  }
}
