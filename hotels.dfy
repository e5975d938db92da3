/** `getHotelOptions`: a city's hotels, then their offers, each fetched through the
    retried Amadeus call, and the first five offers simplified to fixed records. */
module Hotels {
  import opened Basics
  import opened Text
  import opened Numbers
  import opened Retry
  import opened Amadeus

  // ---------------------------------------------------------------- inputs and bodies

  datatype HotelQuery = HotelQuery(cityCode: string, checkIn: string, checkOut: string, adults: int)

  /** The two environment variables; `None` or "" is missing. */
  datatype Credentials = Credentials(clientId: Option<string>, clientSecret: Option<string>)

  predicate Present(v: Option<string>) {
    v.Some? && v.value != ""
  }

  /** An entry of the hotel list: its `hotelId`, when it has one. */
  datatype HotelRef = HotelRef(hotelId: Option<string>)

  /** The hotel-list response: its `data` array, when there is one. */
  datatype HotelList = HotelList(data: Option<seq<HotelRef>>)

  datatype Price = Price(total: Option<string>, currency: Option<string>)

  datatype Offer = Offer(price: Option<Price>)

  datatype HotelInfo = HotelInfo(name: Option<string>, rating: Option<Number>)

  /** An entry of the offers response: the hotel and its offers, either may be missing. */
  datatype HotelOffer = HotelOffer(hotel: Option<HotelInfo>, offers: Option<seq<Offer>>)

  datatype OfferList = OfferList(data: Option<seq<HotelOffer>>)

  /** One simplified hotel. */
  datatype HotelOption = HotelOption(name: Option<string>, stars: Number, price: string, currency: string, city: string)

  /** The two requests the helper sends. */
  datatype HotelRequest =
    | HotelsByCity(cityCode: string)
    | HotelOffersSearch(hotelIds: string, checkInDate: string, checkOutDate: string, adults: int)

  // ---------------------------------------------------------------- messages

  const DatesMessage := "Error: Check-out date must be after check-in date."
  const CredentialsMessage := "Error: API credentials missing in .env file."
  const RateLimitMessage := "Amadeus rate limit reached. Please try again shortly."
  const GenericMessage := "Error communicating with Amadeus API."

  function NoHotelsMessage(cityCode: string): string {
    "No hotels found in **" + cityCode + "**."
  }

  function NoOffersMessage(cityCode: string): string {
    "Hotels found in " + cityCode + ", but **no available offers** for these dates/guests. (Sandbox API has limited data)."
  }

  function HubMessage(cityCode: string): string {
    "Could not find valid hotel data for **" + cityCode + "**. Try a major hub like LON, NYC, or PAR."
  }

  /** The outer `catch`: the message for an error by its status. */
  function ErrorMessage(e: Error, cityCode: string): (m: string)
    ensures e.status == Some(400) ==> m == HubMessage(cityCode)
    ensures e.status == Some(429) ==> m == RateLimitMessage
    ensures e.status != Some(400) && e.status != Some(429) ==> m == GenericMessage
  {
    if e.status == Some(400) then HubMessage(cityCode)
    else if e.status == Some(429) then RateLimitMessage
    else GenericMessage
  }

  // ---------------------------------------------------------------- validateDates

  /** `validateDates(checkIn, checkOut)`: both dates parse (as `new Date` would, to a
      time value) and the check-out is strictly later. */
  predicate ValidDates(checkIn: string, checkOut: string, parseDate: string -> Option<int>) {
    var d1 := parseDate(checkIn);
    var d2 := parseDate(checkOut);
    d1.Some? && d2.Some? && d2.value > d1.value
  }

  /** Equal, reversed and unparseable dates are all rejected. */
  lemma ValidDatesStrict(checkIn: string, checkOut: string, parseDate: string -> Option<int>)
    ensures !ValidDates(checkIn, checkIn, parseDate)
    ensures ValidDates(checkIn, checkOut, parseDate) ==> !ValidDates(checkOut, checkIn, parseDate)
    ensures parseDate(checkIn).None? || parseDate(checkOut).None? ==> !ValidDates(checkIn, checkOut, parseDate)
    ensures parseDate(checkIn).Some? && parseDate(checkOut).Some? && parseDate(checkOut).value <= parseDate(checkIn).value ==>
              !ValidDates(checkIn, checkOut, parseDate)
  {
  }

  // ---------------------------------------------------------------- simplification

  /** `data.slice(0, 5).map(h => h.hotelId).join(',')`; a missing id joins as "". */
  function HotelIds(data: seq<HotelRef>): string {
    var first := Take(data, 5);
    Join(seq(|first|, i requires 0 <= i < |first| => first[i].hotelId.GetOr("")), ",")
  }

  /** The offers request names the first five hotels: when their ids are present and
      comma-free, splitting the joined text at "," gives exactly those ids, in order. */
  lemma HotelIdsSplit(data: seq<HotelRef>)
    requires data != []
    requires forall i :: 0 <= i < |data| && i < 5 ==> data[i].hotelId.Some? && ',' !in data[i].hotelId.value
    ensures var ids := Split(HotelIds(data), ",");
      && |ids| == (if |data| < 5 then |data| else 5)
      && forall i :: 0 <= i < |ids| ==> ids[i] == data[i].hotelId.value
  {
    var first := Take(data, 5);
    var parts := seq(|first|, i requires 0 <= i < |first| => first[i].hotelId.GetOr(""));
    assert forall i :: 0 <= i < |parts| ==> parts[i] == data[i].hotelId.value;
    SplitJoinComma(parts);
  }

  predicate Priced(o: Offer) {
    o.price.Some? && o.price.value.total.Some?
  }

  /** `offers.find(o => o.price?.total != null)` */
  function FirstPriced(offers: seq<Offer>): (r: Option<Offer>)
    ensures r.None? <==> forall i :: 0 <= i < |offers| ==> !Priced(offers[i])
    ensures r.Some? ==> exists i :: 0 <= i < |offers| && offers[i] == r.value && Priced(offers[i])
                                    && forall j :: 0 <= j < i ==> !Priced(offers[j])
  {
    if offers == [] then None
    else if Priced(offers[0]) then Some(offers[0])
    else
      var r := FirstPriced(offers[1..]);
      assert r.Some? ==> forall j :: 1 <= j < |offers| && offers[1..][j - 1] == r.value ==> offers[j] == r.value;
      r
  }

  /** A rating that is truthy: present, not 0, not NaN. */
  predicate Truthy(rating: Option<Number>) {
    match rating
    case None => false
    case Some(NaN) => false
    case Some(Finite(x)) => x != 0.0
    case Some(Infinity(_)) => true
  }

  /** The record for one offers entry whose `hotel` is present. */
  function SimplifyOne(entry: HotelOffer, cityCode: string): (h: HotelOption)
    requires entry.hotel.Some?
  {
    var chosen := FirstPriced(entry.offers.GetOr([]));
    var hotel := entry.hotel.value;
    HotelOption(
      hotel.name,
      if Truthy(hotel.rating) then MathRound(hotel.rating.value) else Finite(0.0),
      if chosen.Some? then chosen.value.price.value.total.value else "N/A",
      if chosen.Some? then chosen.value.price.value.currency.GetOr("USD") else "USD",
      cityCode)
  }

  /** Reading `offer.hotel.name` of an entry with no `hotel` throws a TypeError, which
      has no status. */
  const MissingHotelError := Error(None, "Cannot read properties of undefined (reading 'name')", "")

  /** `data.slice(0, 5).map(...)`: the first entry with no `hotel` throws. */
  function Simplify(data: seq<HotelOffer>, cityCode: string): Completion<seq<HotelOption>> {
    var first := Take(data, 5);
    if exists i :: 0 <= i < |first| && first[i].hotel.None? then Abrupt(MissingHotelError)
    else Normal(seq(|first|, i requires 0 <= i < |first| => SimplifyOne(first[i], cityCode)))
  }

  /** The record keeps the hotel's name and the city; stars is 0 for a missing or zero
      rating and the rounded rating otherwise; price and currency come from the first
      offer with a total, with 'N/A' and 'USD' when there is none (or no currency). */
  lemma SimplifyOneFields(entry: HotelOffer, cityCode: string)
    requires entry.hotel.Some?
    ensures var h := SimplifyOne(entry, cityCode);
            var offers := entry.offers.GetOr([]);
      && h.name == entry.hotel.value.name && h.city == cityCode
      && (!Truthy(entry.hotel.value.rating) ==> h.stars == Finite(0.0))
      && (forall x :: entry.hotel.value.rating == Some(Finite(x)) && x != 0.0 ==>
            h.stars == Finite(RoundReal(x) as real))
      && ((forall i :: 0 <= i < |offers| ==> !Priced(offers[i])) ==> h.price == "N/A" && h.currency == "USD")
      && (forall i :: 0 <= i < |offers| && Priced(offers[i]) && (forall j :: 0 <= j < i ==> !Priced(offers[j])) ==>
            h.price == offers[i].price.value.total.value && h.currency == offers[i].price.value.currency.GetOr("USD"))
  {
    var offers := entry.offers.GetOr([]);
    var chosen := FirstPriced(offers);
    forall i | 0 <= i < |offers| && Priced(offers[i]) && (forall j :: 0 <= j < i ==> !Priced(offers[j]))
      ensures chosen == Some(offers[i])
    {
      var k :| 0 <= k < |offers| && offers[k] == chosen.value && Priced(offers[k])
                && forall j :: 0 <= j < k ==> !Priced(offers[j]);
      assert k == i;
    }
  }

  // ---------------------------------------------------------------- getHotelOptions

  /** What the helper returns and the requests it sent, with their calls and sleeps. */
  datatype HotelsRun = HotelsRun(result: Result<seq<HotelOption>>, log: seq<Exchange<HotelRequest>>)

  /** The part after the hotel list has come back as `list`. */
  function AfterList(q: HotelQuery, list: HotelList, searchOffers: HotelRequest -> nat -> Call<OfferList>): HotelsRun {
    if list.data.None? || list.data.value == [] then HotelsRun(Fail(NoHotelsMessage(q.cityCode)), [])
    else
      var req := HotelOffersSearch(HotelIds(list.data.value), q.checkIn, q.checkOut, q.adults);
      var c := CallRun(searchOffers(req));
      var log := [Exchange(req, c.calls, c.delays)];
      match c.result
      case Abrupt(e) => HotelsRun(Fail(ErrorMessage(e, q.cityCode)), log)
      case Normal(offers) =>
        if offers.data.None? || offers.data.value == [] then HotelsRun(Fail(NoOffersMessage(q.cityCode)), log)
        else
          match Simplify(offers.data.value, q.cityCode)
          case Abrupt(e) => HotelsRun(Fail(ErrorMessage(e, q.cityCode)), log)
          case Normal(hotels) => HotelsRun(Ok(hotels), log)
  }

  /** `getHotelOptions(query)`, the environment and the SDK calls passed in. */
  function HotelsRunOf(q: HotelQuery, env: Credentials, parseDate: string -> Option<int>,
                       listHotels: HotelRequest -> nat -> Call<HotelList>,
                       searchOffers: HotelRequest -> nat -> Call<OfferList>): HotelsRun
  {
    if !ValidDates(q.checkIn, q.checkOut, parseDate) then HotelsRun(Fail(DatesMessage), [])
    else if !Present(env.clientId) || !Present(env.clientSecret) then HotelsRun(Fail(CredentialsMessage), [])
    else
      var req := HotelsByCity(q.cityCode);
      var c := CallRun(listHotels(req));
      var first := Exchange(req, c.calls, c.delays);
      match c.result
      case Abrupt(e) => HotelsRun(Fail(ErrorMessage(e, q.cityCode)), [first])
      case Normal(list) =>
        var rest := AfterList(q, list, searchOffers);
        HotelsRun(rest.result, [first] + rest.log)
  }

  method SimplifyOffers(data: seq<HotelOffer>, cityCode: string) returns (r: Completion<seq<HotelOption>>)
    ensures r == Simplify(data, cityCode)
  {
    var first := Take(data, 5);
    var out: seq<HotelOption> := [];
    var i := 0;
    while i < |first|
      invariant 0 <= i <= |first|
      invariant |out| == i
      invariant forall j :: 0 <= j < i ==> first[j].hotel.Some? && out[j] == SimplifyOne(first[j], cityCode)
    {
      if first[i].hotel.None? {
        return Abrupt(MissingHotelError);
      }
      out := out + [SimplifyOne(first[i], cityCode)];
      i := i + 1;
    }
    assert out == seq(|first|, i requires 0 <= i < |first| => SimplifyOne(first[i], cityCode));
    return Normal(out);
  }

  method GetHotelOptions(q: HotelQuery, env: Credentials, parseDate: string -> Option<int>,
                         listHotels: HotelRequest -> nat -> Call<HotelList>,
                         searchOffers: HotelRequest -> nat -> Call<OfferList>)
    returns (result: Result<seq<HotelOption>>, log: seq<Exchange<HotelRequest>>)
    ensures HotelsRun(result, log) == HotelsRunOf(q, env, parseDate, listHotels, searchOffers)
  {
    if !ValidDates(q.checkIn, q.checkOut, parseDate) {
      return Fail(DatesMessage), [];
    }
    if !Present(env.clientId) || !Present(env.clientSecret) {
      return Fail(CredentialsMessage), [];
    }
    var req := HotelsByCity(q.cityCode);
    var c := CallWithRetries(listHotels(req));
    log := [Exchange(req, c.calls, c.delays)];
    if c.result.Abrupt? {
      return Fail(ErrorMessage(c.result.error, q.cityCode)), log;
    }
    var list := c.result.value;
    if list.data.None? || list.data.value == [] {
      return Fail(NoHotelsMessage(q.cityCode)), log;
    }
    var req2 := HotelOffersSearch(HotelIds(list.data.value), q.checkIn, q.checkOut, q.adults);
    var c2 := CallWithRetries(searchOffers(req2));
    log := log + [Exchange(req2, c2.calls, c2.delays)];
    if c2.result.Abrupt? {
      return Fail(ErrorMessage(c2.result.error, q.cityCode)), log;
    }
    var offers := c2.result.value;
    if offers.data.None? || offers.data.value == [] {
      return Fail(NoOffersMessage(q.cityCode)), log;
    }
    var simplified := SimplifyOffers(offers.data.value, q.cityCode);
    if simplified.Abrupt? {
      return Fail(ErrorMessage(simplified.error, q.cityCode)), log;
    }
    return Ok(simplified.value), log;
  }

  // ---------------------------------------------------------------- properties

  /** Dates that are not strictly increasing are refused before anything else, with no request. */
  lemma BadDatesNoRequest(q: HotelQuery, env: Credentials, parseDate: string -> Option<int>,
                          listHotels: HotelRequest -> nat -> Call<HotelList>,
                          searchOffers: HotelRequest -> nat -> Call<OfferList>)
    requires !ValidDates(q.checkIn, q.checkOut, parseDate)
    ensures HotelsRunOf(q, env, parseDate, listHotels, searchOffers) == HotelsRun(Fail(DatesMessage), [])
  {
  }

  /** With good dates, a missing client id or secret is refused with no request. */
  lemma MissingCredentialsNoRequest(q: HotelQuery, env: Credentials, parseDate: string -> Option<int>,
                                    listHotels: HotelRequest -> nat -> Call<HotelList>,
                                    searchOffers: HotelRequest -> nat -> Call<OfferList>)
    requires ValidDates(q.checkIn, q.checkOut, parseDate)
    requires !Present(env.clientId) || !Present(env.clientSecret)
    ensures HotelsRunOf(q, env, parseDate, listHotels, searchOffers) == HotelsRun(Fail(CredentialsMessage), [])
  {
  }

  /** The simplification keeps the first five entries, in order, one record each
      carrying the city; it throws exactly when one of them has no `hotel`. */
  lemma SimplifyShape(data: seq<HotelOffer>, cityCode: string)
    ensures var r := Simplify(data, cityCode);
      && (r.Abrupt? <==> exists i :: 0 <= i < |data| && i < 5 && data[i].hotel.None?)
      && (r.Abrupt? ==> r.error == MissingHotelError)
      && (r.Normal? ==>
            && |r.value| == (if |data| < 5 then |data| else 5)
            && forall i :: 0 <= i < |r.value| ==>
                 data[i].hotel.Some? && r.value[i] == SimplifyOne(data[i], cityCode) && r.value[i].city == cityCode)
  {
    var first := Take(data, 5);
    assert forall i :: 0 <= i < |first| ==> first[i] == data[i];
  }

  /** After the list: no offers request for an empty list; otherwise one, for the ids
      of the first five hotels, whose response, when it has entries, is simplified. */
  lemma AfterListShape(q: HotelQuery, list: HotelList, searchOffers: HotelRequest -> nat -> Call<OfferList>)
    ensures var r := AfterList(q, list, searchOffers);
      && (list.data.None? || list.data.value == [] ==> r == HotelsRun(Fail(NoHotelsMessage(q.cityCode)), []))
      && (list.data.Some? && list.data.value != [] ==>
            var req := HotelOffersSearch(HotelIds(list.data.value), q.checkIn, q.checkOut, q.adults);
            var c := CallRun(searchOffers(req));
            && r.log == [Exchange(req, c.calls, c.delays)]
            && 1 <= c.calls <= 3 && c.delays == LinearDelays(500, c.calls - 1)
            && (c.result.Abrupt? ==> r.result == Fail(ErrorMessage(c.result.error, q.cityCode)))
            && (c.result.Normal? && (c.result.value.data.None? || c.result.value.data.value == []) ==>
                  r.result == Fail(NoOffersMessage(q.cityCode)))
            && (c.result.Normal? && c.result.value.data.Some? && c.result.value.data.value != [] ==>
                  match Simplify(c.result.value.data.value, q.cityCode)
                  case Abrupt(e) => r.result == Fail(ErrorMessage(e, q.cityCode))
                  case Normal(hotels) => r.result == Ok(hotels)))
  {
    if list.data.Some? && list.data.value != [] {
      var req := HotelOffersSearch(HotelIds(list.data.value), q.checkIn, q.checkOut, q.adults);
      CallRunContract(searchOffers(req));
      var c := CallRun(searchOffers(req));
      var r := AfterList(q, list, searchOffers);
      assert r.log == [Exchange(req, c.calls, c.delays)];
      if c.result.Normal? && c.result.value.data.Some? && c.result.value.data.value != [] {
        var simplified := Simplify(c.result.value.data.value, q.cityCode);
        assert r.result == if simplified.Abrupt? then Fail(ErrorMessage(simplified.error, q.cityCode)) else Ok(simplified.value);
      }
    }
  }

  /** Every failure of a retried call, or a missing hotel, becomes the message for its status. */
  lemma ThrownErrorMessage(q: HotelQuery, env: Credentials, parseDate: string -> Option<int>,
                           listHotels: HotelRequest -> nat -> Call<HotelList>,
                           searchOffers: HotelRequest -> nat -> Call<OfferList>)
    requires ValidDates(q.checkIn, q.checkOut, parseDate) && Present(env.clientId) && Present(env.clientSecret)
    ensures var c := CallRun(listHotels(HotelsByCity(q.cityCode)));
      c.result.Abrupt? ==>
        HotelsRunOf(q, env, parseDate, listHotels, searchOffers) ==
        HotelsRun(Fail(ErrorMessage(c.result.error, q.cityCode)), [Exchange(HotelsByCity(q.cityCode), c.calls, c.delays)])
    ensures var c := CallRun(listHotels(HotelsByCity(q.cityCode)));
      c.result.Normal? ==>
        HotelsRunOf(q, env, parseDate, listHotels, searchOffers).result == AfterList(q, c.result.value, searchOffers).result
  {
  }

  /** The whole helper: at most two requests, the city's hotel list first and then the
      offers, each of one to three calls with the 500 ms linear sleeps. */
  lemma RequestLog(q: HotelQuery, env: Credentials, parseDate: string -> Option<int>,
                   listHotels: HotelRequest -> nat -> Call<HotelList>,
                   searchOffers: HotelRequest -> nat -> Call<OfferList>)
    ensures var r := HotelsRunOf(q, env, parseDate, listHotels, searchOffers);
      && |r.log| <= 2
      && (|r.log| >= 1 ==> r.log[0].request == HotelsByCity(q.cityCode))
      && (|r.log| == 2 ==> r.log[1].request.HotelOffersSearch?)
      && forall i :: 0 <= i < |r.log| ==> 1 <= r.log[i].calls <= 3 && r.log[i].delays == LinearDelays(500, r.log[i].calls - 1)
  {
    if ValidDates(q.checkIn, q.checkOut, parseDate) && Present(env.clientId) && Present(env.clientSecret) {
      var req := HotelsByCity(q.cityCode);
      CallRunContract(listHotels(req));
      var c := CallRun(listHotels(req));
      if c.result.Normal? {
        var rest := AfterList(q, c.result.value, searchOffers);
        AfterListShape(q, c.result.value, searchOffers);
        var r := HotelsRunOf(q, env, parseDate, listHotels, searchOffers);
        assert r.log == [Exchange(req, c.calls, c.delays)] + rest.log;
      }
    }
  }
}
