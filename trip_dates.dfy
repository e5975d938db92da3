/** The trip planner's date check: "start to end", each side trimmed, both dates
    readable and the end not before the start. Reading a date (the `Date`
    constructor) is a parameter giving the date's time value, `None` when it is
    not a date. */
module TripDates {
  import opened Basics
  import opened Text

  datatype DateRange = DateRange(start: int, end: int)

  const FormatMessage := "Dates must be in format YYYY-MM-DD to YYYY-MM-DD."
  const InvalidMessage := "Invalid date(s). Use YYYY-MM-DD."
  const OrderMessage := "End date cannot be before start date."

  /** `input.split('to').map(p => p.trim())` */
  function DateParts(input: string): (parts: seq<string>)
    ensures |parts| == |Split(input, "to")|
    ensures forall i :: 0 <= i < |parts| ==> parts[i] == Trim(Split(input, "to")[i])
  {
    var raw := Split(input, "to");
    seq(|raw|, i requires 0 <= i < |raw| => Trim(raw[i]))
  }

  /** `validateDates(input)` */
  function ValidateDates(input: string, parseDate: string -> Option<int>): (r: Result<DateRange>)
    ensures var parts := DateParts(input);
      && (r == Fail(FormatMessage) <==> |parts| != 2)
      && (r == Fail(InvalidMessage) <==> |parts| == 2 && (parseDate(parts[0]).None? || parseDate(parts[1]).None?))
      && (r == Fail(OrderMessage) <==>
            |parts| == 2 && parseDate(parts[0]).Some? && parseDate(parts[1]).Some?
            && parseDate(parts[1]).value < parseDate(parts[0]).value)
      && (r.Ok? <==>
            |parts| == 2 && parseDate(parts[0]).Some? && parseDate(parts[1]).Some?
            && parseDate(parts[0]).value <= parseDate(parts[1]).value)
      && (r.Ok? ==> r.value == DateRange(parseDate(parts[0]).value, parseDate(parts[1]).value))
  {
    var parts := DateParts(input);
    if |parts| != 2 then Fail(FormatMessage)
    else
      var start := parseDate(parts[0]);
      var end := parseDate(parts[1]);
      if start.None? || end.None? then Fail(InvalidMessage)
      else if end.value < start.value then Fail(OrderMessage)
      else Ok(DateRange(start.value, end.value))
  }

  /** An input without the separator is one part, so it is rejected for its format
      before any date is read. */
  lemma NoSeparatorRejected(input: string, parseDate: string -> Option<int>)
    requires !Contains(input, "to")
    ensures ValidateDates(input, parseDate) == Fail(FormatMessage)
  {
    assert IndexOf(input, "to").None?;
    assert Split(input, "to") == [input];
  }

  /** Two pieces that do not contain the separator split around it back into
      themselves: no occurrence can straddle the join, because "to" does not begin
      with its own last letter. */
  lemma SplitAround(a: string, b: string)
    requires !Contains(a, "to") && !Contains(b, "to")
    ensures Split(a + "to" + b, "to") == [a, b]
  {
    var s := a + "to" + b;
    assert OccursAt(s, "to", |a|) by {
      assert s[|a|..|a| + 2] == "to";
    }
    forall j | 0 <= j < |a| ensures !OccursAt(s, "to", j) {
      if j + 2 <= |a| {
        assert s[j..j + 2] == a[j..j + 2];
        assert !OccursAt(a, "to", j);
      } else {
        assert s[j + 1] == 't';
      }
    }
    var k := IndexOf(s, "to");
    assert k == Some(|a|);
    assert s[|a| + 2..] == b;
    assert IndexOf(b, "to").None?;
    assert Split(b, "to") == [b];
  }

  /** "start to end" with readable dates in order is accepted as that range; equal
      dates included. */
  lemma RangeAccepted(a: string, b: string, parseDate: string -> Option<int>, start: int, end: int)
    requires !Contains(a, "to") && !Contains(b, "to")
    requires parseDate(Trim(a)) == Some(start) && parseDate(Trim(b)) == Some(end)
    requires start <= end
    ensures ValidateDates(a + "to" + b, parseDate) == Ok(DateRange(start, end))
  {
    SplitAround(a, b);
  }

  /** The same input with the two dates swapped is rejected for its order exactly
      when the dates differ. */
  lemma SwappedRejected(a: string, b: string, parseDate: string -> Option<int>, start: int, end: int)
    requires !Contains(a, "to") && !Contains(b, "to")
    requires parseDate(Trim(a)) == Some(start) && parseDate(Trim(b)) == Some(end)
    requires start < end
    ensures ValidateDates(b + "to" + a, parseDate) == Fail(OrderMessage)
  {
    SplitAround(b, a);
  }
}
