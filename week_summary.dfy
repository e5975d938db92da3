/** The weather command's text: the week's range and peak rain chance, the current
    conditions and one line per day, for at most seven days. */
module WeekSummary {
  import opened Basics
  import opened Text
  import opened Numbers
  import Forecast

  /** A day as the command reads it: any field may be `null` (`None`) or not finite. */
  datatype Day = Day(dayLabel: string, min: Option<Number>, max: Option<Number>, desc: string, pop: Option<Number>)

  /** The current conditions as the command reads them. */
  datatype Current = Current(temp: Option<Number>, feels: Option<Number>, humidity: Option<Number>,
                             wind: Option<Number>, desc: Option<string>)

  datatype WeekStats = WeekStats(weekMin: Option<real>, weekMax: Option<real>, peakRainPct: int)

  datatype CurrentLines = CurrentLines(headline: string, metrics: string)

  /** `${round(n)}`: `null` when there is no value, `Math.round(n)` otherwise. */
  function RoundText(n: Option<Number>): string {
    match n
    case None => "null"
    case Some(v) => RoundedText(v)
  }

  // ---------------------------------------------------------------- statistics

  /** `pct01ToPct(pop01)`: a 0..1 probability as a whole percentage; no value or a
      result that is not finite gives 0. */
  function Pct01ToPct(pop01: Option<Number>): (p: int)
    ensures pop01.None? ==> p == 0
    ensures pop01.Some? && !pop01.value.Finite? ==> p == 0
    ensures pop01.Some? && pop01.value.Finite? ==> pop01.value.r * 100.0 - 0.5 < p as real <= pop01.value.r * 100.0 + 0.5
  {
    match pop01
    case None => 0
    case Some(Finite(x)) => RoundReal(x * 100.0)
    case Some(_) => 0
  }

  predicate IsFinite(v: Option<Number>) {
    v.Some? && v.value.Finite?
  }

  /** `safeFiniteList(values)`: the finite values, in order. */
  function FiniteValues(values: seq<Option<Number>>): (r: seq<real>)
    ensures |r| <= |values|
    ensures forall x :: x in r <==> Some(Finite(x)) in values
    ensures r == [] <==> forall i :: 0 <= i < |values| ==> !IsFinite(values[i])
  {
    if values == [] then []
    else
      var rest := FiniteValues(values[1..]);
      assert forall x :: Some(Finite(x)) in values <==> values[0] == Some(Finite(x)) || Some(Finite(x)) in values[1..];
      assert (forall i :: 0 <= i < |values| ==> !IsFinite(values[i])) <==>
             !IsFinite(values[0]) && forall i :: 0 <= i < |values[1..]| ==> !IsFinite(values[1..][i]);
      if IsFinite(values[0]) then [values[0].value.r] + rest else rest
  }

  /** `Math.min(...s)` */
  function MinOf(s: seq<real>): (m: real)
    requires s != []
    ensures m in s && forall x :: x in s ==> m <= x
  {
    if |s| == 1 then s[0]
    else
      var m := MinOf(s[1..]);
      assert forall x :: x in s <==> x == s[0] || x in s[1..];
      if s[0] < m then s[0] else m
  }

  /** `Math.max(...s)` */
  function MaxOf(s: seq<real>): (m: real)
    requires s != []
    ensures m in s && forall x :: x in s ==> x <= m
  {
    if |s| == 1 then s[0]
    else
      var m := MaxOf(s[1..]);
      assert forall x :: x in s <==> x == s[0] || x in s[1..];
      if s[0] > m then s[0] else m
  }

  /** The least finite value, absent when there is none. */
  function LeastFinite(values: seq<Option<Number>>): (m: Option<real>)
    ensures m.None? <==> forall i :: 0 <= i < |values| ==> !IsFinite(values[i])
    ensures m.Some? ==>
              (exists i :: 0 <= i < |values| && values[i] == Some(Finite(m.value)))
              && forall i :: 0 <= i < |values| && IsFinite(values[i]) ==> m.value <= values[i].value.r
  {
    var finite := FiniteValues(values);
    if finite == [] then None
    else
      var m := MinOf(finite);
      assert forall i :: 0 <= i < |values| && IsFinite(values[i]) ==> values[i].value.r in finite by {
        forall i | 0 <= i < |values| && IsFinite(values[i]) ensures values[i].value.r in finite {
          assert Some(Finite(values[i].value.r)) in values;
        }
      }
      Some(m)
  }

  /** The greatest finite value, absent when there is none. */
  function GreatestFinite(values: seq<Option<Number>>): (m: Option<real>)
    ensures m.None? <==> forall i :: 0 <= i < |values| ==> !IsFinite(values[i])
    ensures m.Some? ==>
              (exists i :: 0 <= i < |values| && values[i] == Some(Finite(m.value)))
              && forall i :: 0 <= i < |values| && IsFinite(values[i]) ==> values[i].value.r <= m.value
  {
    var finite := FiniteValues(values);
    if finite == [] then None
    else
      var m := MaxOf(finite);
      assert forall i :: 0 <= i < |values| && IsFinite(values[i]) ==> values[i].value.r in finite by {
        forall i | 0 <= i < |values| && IsFinite(values[i]) ensures values[i].value.r in finite {
          assert Some(Finite(values[i].value.r)) in values;
        }
      }
      Some(m)
  }

  function Mins(days: seq<Day>): (r: seq<Option<Number>>)
    ensures |r| == |days| && forall i :: 0 <= i < |days| ==> r[i] == days[i].min
  {
    seq(|days|, i requires 0 <= i < |days| => days[i].min)
  }

  function Maxs(days: seq<Day>): (r: seq<Option<Number>>)
    ensures |r| == |days| && forall i :: 0 <= i < |days| ==> r[i] == days[i].max
  {
    seq(|days|, i requires 0 <= i < |days| => days[i].max)
  }

  /** The greatest rain percentage of the days, 0 for no days. */
  function PeakRain(days: seq<Day>): (p: int)
    ensures days == [] ==> p == 0
    ensures days != [] ==>
              (exists i :: 0 <= i < |days| && p == Pct01ToPct(days[i].pop))
              && forall i :: 0 <= i < |days| ==> Pct01ToPct(days[i].pop) <= p
  {
    if days == [] then 0
    else
      var pcts := seq(|days|, i requires 0 <= i < |days| => Pct01ToPct(days[i].pop) as real);
      var m := MaxOf(pcts);
      assert forall i :: 0 <= i < |days| ==> Pct01ToPct(days[i].pop) as real in pcts by {
        forall i | 0 <= i < |days| ensures Pct01ToPct(days[i].pop) as real in pcts {
          assert pcts[i] == Pct01ToPct(days[i].pop) as real;
        }
      }
      assert exists i :: 0 <= i < |days| && m == Pct01ToPct(days[i].pop) as real by {
        var k :| 0 <= k < |pcts| && pcts[k] == m;
        assert m == Pct01ToPct(days[k].pop) as real;
      }
      m.Floor
  }

  /** `computeWeekStats(days)` */
  function ComputeWeekStats(days: seq<Day>): WeekStats {
    WeekStats(LeastFinite(Mins(days)), GreatestFinite(Maxs(days)), PeakRain(days))
  }

  /** The week's low is the least finite minimum, absent when no day has one. */
  lemma WeekMinIsLeast(days: seq<Day>)
    ensures var lo := ComputeWeekStats(days).weekMin;
      && (lo.None? <==> forall i :: 0 <= i < |days| ==> !IsFinite(days[i].min))
      && (lo.Some? ==>
            (exists i :: 0 <= i < |days| && days[i].min == Some(Finite(lo.value)))
            && forall i :: 0 <= i < |days| && IsFinite(days[i].min) ==> lo.value <= days[i].min.value.r)
  {
    var mins := Mins(days);
    assert ComputeWeekStats(days).weekMin == LeastFinite(mins);
    assert forall i :: 0 <= i < |days| ==> mins[i] == days[i].min;
  }

  /** The week's high is the greatest finite maximum, absent when no day has one. */
  lemma WeekMaxIsGreatest(days: seq<Day>)
    ensures var hi := ComputeWeekStats(days).weekMax;
      && (hi.None? <==> forall i :: 0 <= i < |days| ==> !IsFinite(days[i].max))
      && (hi.Some? ==>
            (exists i :: 0 <= i < |days| && days[i].max == Some(Finite(hi.value)))
            && forall i :: 0 <= i < |days| && IsFinite(days[i].max) ==> days[i].max.value.r <= hi.value)
  {
    var maxs := Maxs(days);
    assert ComputeWeekStats(days).weekMax == GreatestFinite(maxs);
    assert forall i :: 0 <= i < |days| ==> maxs[i] == days[i].max;
  }

  // ---------------------------------------------------------------- lines

  const NoRangeLine := "Next 7 days forecast available"

  const RangePrefix := "Next 7 days: **"

  function RangeDetails(lo: real, hi: real, peak: int): string {
    IntToString(RoundReal(lo)) + "\U{00B0}F\U{2013}" + IntToString(RoundReal(hi))
    + "\U{00B0}F** \U{2022} Peak rain chance: **" + IntToString(peak) + "%**"
  }

  /** `buildWeekSummaryLine(days)` */
  function WeekSummaryLine(days: seq<Day>): string {
    var s := ComputeWeekStats(days);
    if s.weekMin.Some? && s.weekMax.Some? then
      RangePrefix + RangeDetails(s.weekMin.value, s.weekMax.value, s.peakRainPct)
    else NoRangeLine
  }

  /** The summary falls back to the plain line exactly when the days have no
      finite minimum or no finite maximum. */
  lemma SummaryFallbackIff(days: seq<Day>)
    ensures WeekSummaryLine(days) == NoRangeLine <==>
              ComputeWeekStats(days).weekMin.None? || ComputeWeekStats(days).weekMax.None?
  {
    var s := ComputeWeekStats(days);
    if s.weekMin.Some? && s.weekMax.Some? {
      RangeLineDiffers(s.weekMin.value, s.weekMax.value, s.peakRainPct);
    }
  }

  lemma RangeLineDiffers(lo: real, hi: real, peak: int)
    ensures RangePrefix + RangeDetails(lo, hi, peak) != NoRangeLine
  {
    var details := RangeDetails(lo, hi, peak);
    assert (RangePrefix + details)[11] == RangePrefix[11] == ':';
    assert NoRangeLine[11] == ' ';
  }

  /** `formatTempF(value)`: the rounded value in degrees Fahrenheit, "N/A" for no value. */
  function FormatTempF(value: Option<Number>): (r: string)
    ensures value.None? ==> r == "N/A"
    ensures value.Some? && value.value.Finite? ==> r == IntToString(RoundReal(value.value.r)) + "\U{00B0}F"
    ensures value == Some(NaN) ==> r == "NaN\U{00B0}F"
    ensures value.Some? && value.value.Infinity? ==>
              r == (if value.value.negative then "-Infinity" else "Infinity") + "\U{00B0}F"
  {
    if value.Some? then RoundedText(value.value) + "\U{00B0}F" else "N/A"
  }

  /** `labeledMetric(name, value, suffix)`: "name: **rounded value and suffix**", or
      "name: **N/A**" for no value. */
  function LabeledMetric(name: string, value: Option<Number>, suffix: string): (r: string)
    ensures value.None? ==> r == name + ": **N/A**"
    ensures value.Some? && value.value.Finite? ==>
              r == name + ": **" + IntToString(RoundReal(value.value.r)) + suffix + "**"
    ensures value == Some(NaN) ==> r == name + ": **NaN" + suffix + "**"
    ensures value.Some? && value.value.Infinity? ==>
              r == name + ": **" + (if value.value.negative then "-Infinity" else "Infinity") + suffix + "**"
  {
    if value.Some? then name + ": **" + RoundedText(value.value) + suffix + "**" else name + ": **N/A**"
  }

  /** `buildCurrentLines(current)`; absent conditions read as all missing. */
  function BuildCurrentLines(current: Option<Current>): CurrentLines {
    var c := current.GetOr(Current(None, None, None, None, None));
    CurrentLines("**" + FormatTempF(c.temp) + " (feels like " + FormatTempF(c.feels) + ") \U{2014} "
                 + c.desc.GetOr("forecast") + "**",
                 LabeledMetric("Humidity", c.humidity, "%") + " \U{2022} " + LabeledMetric("Wind", c.wind, " mph"))
  }

  /** Without current conditions both lines show N/A and the description reads "forecast". */
  lemma MissingCurrentReadsNotAvailable()
    ensures BuildCurrentLines(None).headline == "**N/A (feels like N/A) \U{2014} forecast**"
    ensures BuildCurrentLines(None).metrics == "Humidity: **N/A** \U{2022} Wind: **N/A**"
  {
    var na := FormatTempF(None);
    assert na == "N/A";
    assert "**" + na + " (feels like " + na + ") \U{2014} " + "forecast" + "**"
        == "**N/A (feels like N/A) \U{2014} forecast**";
    assert LabeledMetric("Humidity", None, "%") == "Humidity: **N/A**";
    assert LabeledMetric("Wind", None, " mph") == "Wind: **N/A**";
  }

  /** The part of a day line before the rain chance. */
  function DayBase(d: Day): string {
    "\U{2022} **" + d.dayLabel + ":** " + RoundText(d.min) + "\U{00B0}F\U{2013}" + RoundText(d.max)
    + "\U{00B0}F \U{2014} " + d.desc
  }

  function RainText(popPct: int): (r: string)
    ensures popPct <= 0 ==> r == ""
    ensures popPct > 0 ==> r == " \U{2022} Rain chance: **" + IntToString(popPct) + "%**"
  {
    if popPct > 0 then " \U{2022} Rain chance: **" + IntToString(popPct) + "%**" else ""
  }

  /** `formatDayLine(d)` */
  function FormatDayLine(d: Day): string {
    DayBase(d) + RainText(Pct01ToPct(d.pop))
  }

  /** A day line mentions the rain chance exactly when its percentage is positive
      (given a label and description that do not themselves mention it). */
  lemma RainChanceIff(d: Day)
    requires !Contains(DayBase(d), "Rain chance")
    ensures Contains(FormatDayLine(d), "Rain chance") <==> Pct01ToPct(d.pop) > 0
  {
    var base := DayBase(d);
    var line := FormatDayLine(d);
    var p := Pct01ToPct(d.pop);
    if p > 0 {
      var tail := "Rain chance: **" + IntToString(p) + "%**";
      assert line == base + " \U{2022} " + tail;
      assert line[|base| + 3..|base| + 14] == tail[..11];
      assert OccursAt(line, "Rain chance", |base| + 3);
    } else {
      assert line == base;
    }
  }

  // ---------------------------------------------------------------- the message

  const FooterLine := "_Open-Meteo provides forecasts up to ~16 days (we show 7 here)._"

  /** One line per day, in order. */
  function DayLines(days: seq<Day>): (r: seq<string>)
    ensures |r| == |days| && forall i :: 0 <= i < |days| ==> r[i] == FormatDayLine(days[i])
  {
    seq(|days|, i requires 0 <= i < |days| => FormatDayLine(days[i]))
  }

  /** The title, the week's summary, the current conditions and the days' heading. */
  function Header(location: string, current: Option<Current>, days: seq<Day>): (h: seq<string>)
    ensures |h| == 6
  {
    var cur := BuildCurrentLines(current);
    ["**Weather for " + location + "**", WeekSummaryLine(days), cur.headline, cur.metrics, "", "**Next 7 days**"]
  }

  /** The message's lines, before they are joined with newlines. */
  function MessageLines(location: string, current: Option<Current>, nextDays: Option<seq<Day>>): seq<string> {
    var days := Take(nextDays.GetOr([]), 7);
    Header(location, current, days) + DayLines(days) + ["", FooterLine]
  }

  /** `buildWeatherMessage({ location, current, nextDays })` */
  function BuildWeatherMessage(location: string, current: Option<Current>, nextDays: Option<seq<Day>>): string {
    Join(MessageLines(location, current, nextDays), "\n")
  }

  /** The message has eight fixed lines and one line per day for at most the first
      seven days, in order; the summary covers only those seven. */
  lemma MessageShape(location: string, current: Option<Current>, nextDays: Option<seq<Day>>)
    ensures var lines := MessageLines(location, current, nextDays);
            var all := nextDays.GetOr([]);
            var days := Take(all, 7);
      && |days| == (if |all| < 7 then |all| else 7)
      && |lines| == 8 + |days|
      && lines[..6] == Header(location, current, days)
      && (forall i :: 0 <= i < |days| ==> lines[6 + i] == FormatDayLine(all[i]))
      && lines[6 + |days|] == "" && lines[7 + |days|] == FooterLine
  {
    var all := nextDays.GetOr([]);
    var days := Take(all, 7);
    var head, body, tail := Header(location, current, days), DayLines(days), ["", FooterLine];
    Layout(head, body, tail);
    DayLinesOfPrefix(all, days);
  }

  /** The lines of a prefix of the days are the lines of the first days. */
  lemma DayLinesOfPrefix(all: seq<Day>, days: seq<Day>)
    requires |days| <= |all| && days == all[..|days|]
    ensures forall i :: 0 <= i < |days| ==> DayLines(days)[i] == FormatDayLine(all[i])
  {
    forall i | 0 <= i < |days| ensures DayLines(days)[i] == FormatDayLine(all[i]) {
      assert days[i] == all[i];
    }
  }

  lemma Layout(head: seq<string>, body: seq<string>, tail: seq<string>)
    requires |head| == 6 && |tail| == 2
    ensures var lines := head + body + tail;
      && |lines| == 8 + |body|
      && lines[..6] == head
      && (forall i :: 0 <= i < |body| ==> lines[6 + i] == body[i])
      && lines[6 + |body|] == tail[0] && lines[7 + |body|] == tail[1]
  {
    var lines := head + body + tail;
    assert lines[..6] == head;
  }

  // ---------------------------------------------------------------- from the helper's report

  /** A day of the helper's report as the command reads it. */
  function DayOf(s: Forecast.DaySummary): Day {
    Day(s.dayLabel, Some(Finite(s.min)), Some(Finite(s.max)), s.desc, Some(Finite(s.pop)))
  }

  /** The report's days always have finite temperatures, so a non-empty report's
      summary always shows the week's range. */
  lemma ReportShowsRange(days: seq<Forecast.DaySummary>)
    requires days != []
    ensures var ds := seq(|days|, i requires 0 <= i < |days| => DayOf(days[i]));
      WeekSummaryLine(ds) != NoRangeLine
  {
    var ds := seq(|days|, i requires 0 <= i < |days| => DayOf(days[i]));
    assert IsFinite(ds[0].min) && IsFinite(ds[0].max);
    WeekMinIsLeast(ds);
    WeekMaxIsGreatest(ds);
    SummaryFallbackIff(ds);
  }
}
