/** Turning an Open-Meteo forecast body into the helpers' day summaries and
    current conditions. Temperatures and speeds are exact reals. */
module Forecast {
  import opened Basics

  /** `cToF(c)` */
  function CToF(c: real): (f: real)
    ensures (f - 32.0) * 5.0 / 9.0 == c
  {
    (c * 9.0) / 5.0 + 32.0
  }

  /** `kmhToMph(kmh)`: one kilometre is 0.621371 miles. */
  function KmhToMph(kmh: real): (mph: real)
    ensures mph / 0.621371 == kmh
  {
    kmh * 0.621371
  }

  /** Freezing and boiling points, and the order of temperatures, carry over. */
  lemma CToFPoints(a: real, b: real)
    ensures CToF(0.0) == 32.0 && CToF(100.0) == 212.0
    ensures a < b ==> CToF(a) < CToF(b)
  {
  }

  /** `WEATHER_CODE_DESC`: the WMO weather interpretation codes Open-Meteo reports. */
  function CodeDescription(code: int): Option<string> {
    match code
    case 0 => Some("clear sky")
    case 1 => Some("mainly clear")
    case 2 => Some("partly cloudy")
    case 3 => Some("overcast")
    case 45 => Some("fog")
    case 48 => Some("fog")
    case 51 => Some("drizzle")
    case 53 => Some("drizzle")
    case 55 => Some("drizzle")
    case 56 => Some("freezing drizzle")
    case 57 => Some("freezing drizzle")
    case 61 => Some("rain")
    case 63 => Some("rain")
    case 65 => Some("rain")
    case 66 => Some("freezing rain")
    case 67 => Some("freezing rain")
    case 71 => Some("snow")
    case 73 => Some("snow")
    case 75 => Some("snow")
    case 77 => Some("snow grains")
    case 80 => Some("rain showers")
    case 81 => Some("rain showers")
    case 82 => Some("rain showers")
    case 85 => Some("snow showers")
    case 86 => Some("snow showers")
    case 95 => Some("thunderstorm")
    case 96 => Some("thunderstorm w/ hail")
    case 99 => Some("thunderstorm w/ hail")
    case _ => None
  }

  /** `weatherCodeToDesc(code)` */
  function WeatherCodeToDesc(code: Option<int>): (d: string)
    ensures code.None? ==> d == "forecast"
    ensures code.Some? && CodeDescription(code.value).Some? ==> d == CodeDescription(code.value).value
    ensures code.Some? && CodeDescription(code.value).None? ==> d == "mixed"
  {
    match code
    case None => "forecast"
    case Some(c) => CodeDescription(c).GetOr("mixed")
  }

  /** "forecast" and "mixed" are not descriptions in the table, so each tells which case made it. */
  lemma WeatherCodeToDescCases(code: Option<int>)
    ensures WeatherCodeToDesc(code) == "forecast" <==> code.None?
    ensures WeatherCodeToDesc(code) == "mixed" <==> code.Some? && CodeDescription(code.value).None?
    ensures WeatherCodeToDesc(Some(61)) == "rain" && WeatherCodeToDesc(Some(4)) == "mixed"
  {
    if code.Some? && CodeDescription(code.value).Some? {
      var d := CodeDescription(code.value).value;
      assert |d| >= 3 && (d[0] != 'm' || d[1] != 'i') && (d[0] != 'f' || d[1] != 'o' || |d| != 8);
    }
  }

  // ---------------------------------------------------------------- bodies

  /** The `daily` block: parallel arrays (absent ones read as empty); a `null` entry is `None`. */
  datatype Daily = Daily(time: seq<string>, minC: seq<Option<real>>, maxC: seq<Option<real>>,
                         precipitationPct: seq<Option<real>>, weatherCode: seq<Option<int>>)

  /** The `current` block; every field may be missing. */
  datatype CurrentBlock = CurrentBlock(temperatureC: Option<real>, humidity: Option<real>,
                                       windKmh: Option<real>, weatherCode: Option<int>)

  datatype ForecastBody = ForecastBody(current: Option<CurrentBlock>, daily: Option<Daily>)

  /** One entry of `nextDays`. */
  datatype DaySummary = DaySummary(dayLabel: string, min: real, max: real, desc: string, pop: real)

  datatype Conditions = Conditions(temp: Option<real>, feels: Option<real>, humidity: Option<real>,
                                   wind: Option<real>, desc: string)

  function Min(a: nat, b: nat): nat {
    if a <= b then a else b
  }

  /** How many days `summarizeNextDays(daily, days)` returns. */
  function DayCount(daily: Option<Daily>, days: nat): (n: nat)
    ensures daily.None? ==> n == 0
    ensures daily.Some? ==> n <= days && n <= |daily.value.time| && n <= |daily.value.minC| && n <= |daily.value.maxC|
    ensures daily.Some? ==> n == days || n == |daily.value.time| || n == |daily.value.minC| || n == |daily.value.maxC|
  {
    match daily
    case None => 0
    case Some(d) => Min(Min(Min(days, |d.time|), |d.minC|), |d.maxC|)
  }

  /** `cToF` of an array entry; `null` behaves as 0 under arithmetic. */
  function TempF(c: Option<real>): real {
    CToF(c.GetOr(0.0))
  }

  /** Day `i` of the summary. */
  function DayAt(d: Daily, i: nat, formatLabel: string -> string): (s: DaySummary)
    requires i < |d.time| && i < |d.minC| && i < |d.maxC|
    ensures s.dayLabel == formatLabel(d.time[i])
    ensures d.minC[i].Some? ==> s.min == CToF(d.minC[i].value)
    ensures d.maxC[i].Some? ==> s.max == CToF(d.maxC[i].value)
    ensures d.minC[i].None? ==> s.min == 32.0
    ensures d.maxC[i].None? ==> s.max == 32.0
    ensures i < |d.precipitationPct| && d.precipitationPct[i].Some? ==> s.pop * 100.0 == d.precipitationPct[i].value
    ensures !(i < |d.precipitationPct| && d.precipitationPct[i].Some?) ==> s.pop == 0.0
    ensures s.desc == WeatherCodeToDesc(if i < |d.weatherCode| then d.weatherCode[i] else None)
  {
    var popPct := if i < |d.precipitationPct| && d.precipitationPct[i].Some? then d.precipitationPct[i].value else 0.0;
    var code := if i < |d.weatherCode| then d.weatherCode[i] else None;
    DaySummary(formatLabel(d.time[i]), TempF(d.minC[i]), TempF(d.maxC[i]), WeatherCodeToDesc(code), popPct / 100.0)
  }

  /** `summarizeNextDays(daily, days)`, the day label (`formatDayLabel`) passed in. */
  method SummarizeNextDays(daily: Option<Daily>, days: nat, formatLabel: string -> string) returns (out: seq<DaySummary>)
    ensures |out| == DayCount(daily, days)
    ensures daily.Some? ==> forall i :: 0 <= i < |out| ==> out[i] == DayAt(daily.value, i, formatLabel)
  {
    var count := DayCount(daily, days);
    out := [];
    if daily.None? {
      return;
    }
    var d := daily.value;
    var i := 0;
    while i < count
      invariant 0 <= i <= count
      invariant |out| == i
      invariant forall j :: 0 <= j < i ==> out[j] == DayAt(d, j, formatLabel)
    {
      out := out + [DayAt(d, i, formatLabel)];
      i := i + 1;
    }
  }

  /** The days as a value, for the callers that are themselves functions. */
  function NextDays(daily: Option<Daily>, days: nat, formatLabel: string -> string): (out: seq<DaySummary>)
    ensures |out| == DayCount(daily, days)
    ensures daily.Some? ==> forall i :: 0 <= i < |out| ==> out[i] == DayAt(daily.value, i, formatLabel)
  {
    match daily
    case None => []
    case Some(d) => seq(DayCount(daily, days), i requires 0 <= i < DayCount(daily, days) => DayAt(d, i, formatLabel))
  }

  /** `extractCurrent(data)`: "feels like" repeats the temperature. */
  function ExtractCurrent(body: ForecastBody): (c: Conditions)
    ensures c.feels == c.temp
    ensures var cur := body.current.GetOr(CurrentBlock(None, None, None, None));
      && (c.temp.Some? <==> cur.temperatureC.Some?)
      && (c.temp.Some? ==> c.temp.value == CToF(cur.temperatureC.value))
      && c.humidity == cur.humidity
      && (c.wind.Some? <==> cur.windKmh.Some?)
      && (c.wind.Some? ==> c.wind.value == KmhToMph(cur.windKmh.value))
      && c.desc == WeatherCodeToDesc(cur.weatherCode)
  {
    var cur := body.current.GetOr(CurrentBlock(None, None, None, None));
    var temp := if cur.temperatureC.Some? then Some(CToF(cur.temperatureC.value)) else None;
    var wind := if cur.windKmh.Some? then Some(KmhToMph(cur.windKmh.value)) else None;
    Conditions(temp, temp, cur.humidity, wind, WeatherCodeToDesc(cur.weatherCode))
  }

  /** `hasDailyForecast(data)`: a `daily.time` array with at least one entry. */
  predicate HasDailyForecast(body: ForecastBody) {
    body.daily.Some? && |body.daily.value.time| > 0
  }
}
