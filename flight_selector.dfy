/** The flight list of the booking wizard (components/FlightSelector.tsx):
    the distinct sorted dates, the date filter, the 24-hour to 12-hour time
    format (shared with the coordinator's flight card), the availability
    badge and the select button. */
module FlightSelector {
  import opened Wrappers
  import opened Types
  import opened Text
  import opened Seqs

  predicate StrictlySorted(s: seq<string>) {
    forall i, j :: 0 <= i < j < |s| ==> Less(s[i], s[j])
  }

  /** Insert `d` into a sorted list of distinct dates unless it is there. */
  function Insert(d: string, s: seq<string>): (r: seq<string>)
    ensures forall x :: x in r <==> x in s || x == d
  {
    if s == [] then [d]
    else if d == s[0] then s
    else if Less(d, s[0]) then [d] + s
    else [s[0]] + Insert(d, s[1..])
  }

  lemma {:induction false} InsertSorted(d: string, s: seq<string>)
    requires StrictlySorted(s)
    ensures StrictlySorted(Insert(d, s))
  {
    if s != [] && d != s[0] {
      if Less(d, s[0]) {
        forall j | 1 <= j < |s| + 1 ensures Less(([d] + s)[0], ([d] + s)[j]) {
          if j > 1 { LessTransitive(d, s[0], s[j - 1]); }
        }
      } else {
        LessTotal(d, s[0]);
        InsertSorted(d, s[1..]);
        var r := Insert(d, s[1..]);
        forall j | 0 <= j < |r| ensures Less(s[0], r[j]) {
          if r[j] != d {
            assert r[j] in s[1..];
            var k :| 0 <= k < |s[1..]| && s[1..][k] == r[j];
            assert s[k + 1] == r[j];
          }
        }
      }
    }
  }

  /** `Array.from(new Set(dates)).sort()`. */
  function SortedDistinct(dates: seq<string>): (r: seq<string>)
    ensures forall x :: x in r <==> x in dates
  {
    if dates == [] then [] else Insert(dates[0], SortedDistinct(dates[1..]))
  }

  /** The dates come out strictly ascending, so each occurs once. */
  lemma {:induction false} SortedDistinctSorted(dates: seq<string>)
    ensures StrictlySorted(SortedDistinct(dates))
  {
    if dates != [] {
      SortedDistinctSorted(dates[1..]);
      InsertSorted(dates[0], SortedDistinct(dates[1..]));
    }
  }

  function Dates(flights: seq<AvailableFlight>): (r: seq<string>)
    ensures |r| == |flights|
    ensures forall i :: 0 <= i < |r| ==> r[i] == flights[i].flight.scheduled_date
  {
    if flights == [] then [] else [flights[0].flight.scheduled_date] + Dates(flights[1..])
  }

  /** `uniqueDates`: exactly the flights' dates, strictly ascending. */
  function UniqueDates(flights: seq<AvailableFlight>): (r: seq<string>)
    ensures StrictlySorted(r)
    ensures forall d :: d in r <==> exists i :: 0 <= i < |flights| && flights[i].flight.scheduled_date == d
  {
    SortedDistinctSorted(Dates(flights));
    var r := SortedDistinct(Dates(flights));
    assert forall d :: d in Dates(flights) <==>
      exists i :: 0 <= i < |flights| && flights[i].flight.scheduled_date == d by {
      forall d ensures d in Dates(flights) ==>
        exists i :: 0 <= i < |flights| && flights[i].flight.scheduled_date == d {
        if d in Dates(flights) {
          var i :| 0 <= i < |Dates(flights)| && Dates(flights)[i] == d;
        }
      }
    }
    r
  }

  /** `filteredFlights`: everything for an empty date, else that day's
      flights in their original order. */
  function FilteredFlights(flights: seq<AvailableFlight>, selectedDate: string): (r: seq<AvailableFlight>)
    ensures selectedDate == "" ==> r == flights
    ensures selectedDate != "" ==>
      && (forall i :: 0 <= i < |r| ==> r[i] in flights && r[i].flight.scheduled_date == selectedDate)
      && (forall i :: 0 <= i < |flights| && flights[i].flight.scheduled_date == selectedDate ==> flights[i] in r)
  {
    if selectedDate == "" then flights
    else Filter(flights, (f: AvailableFlight) => f.flight.scheduled_date == selectedDate)
  }

  /** The date selected once the list has loaded: the first flight's date
      when there is one, otherwise the date already selected. */
  function LoadedSelectedDate(flights: seq<AvailableFlight>, current: string): (d: string)
    ensures flights != [] ==> d == flights[0].flight.scheduled_date
    ensures flights == [] ==> d == current
  {
    if |flights| > 0 then flights[0].flight.scheduled_date else current
  }

  /** Dates in the list are never empty, so after loading a non-empty list
      the filter is on, and the first flight is always shown. */
  lemma FirstFlightShown(flights: seq<AvailableFlight>)
    requires flights != []
    ensures flights[0] in FilteredFlights(flights, LoadedSelectedDate(flights, ""))
  {
  }

  /** `parseInt(hours)`: None stands for NaN. */
  function Hour(pieces: seq<string>): Option<nat>
    requires |pieces| >= 1
  {
    ParseInt(pieces[0])
  }

  /** `hour % 12 || 12` for a numeric hour. */
  function ClockHour(n: nat): (c: nat)
    ensures 1 <= c <= 12
  {
    if n % 12 != 0 then n % 12 else 12
  }

  /** `formatTime`: `${hour % 12 || 12}:${minutes} ${hour >= 12 ? 'PM' : 'AM'}`.
      A missing minutes piece prints as `undefined`; a NaN hour is not
      `>= 12` and `NaN % 12` is falsy, so it prints as 12 AM. */
  function FormatTime(t: string): string
  {
    var pieces := SplitColon(t);
    var minutes := if |pieces| >= 2 then pieces[1] else "undefined";
    var hour := Hour(pieces);
    var display := if hour.Some? then ClockHour(hour.value) else 12;
    var pm := hour.Some? && hour.value >= 12;
    NatToString(display) + ":" + minutes + (if pm then " PM" else " AM")
  }

  /** `"HH:MM"` and `"HH:MM:SS"` split into the hour and the minutes. */
  lemma SplitTime(h: string, m: string, rest: string)
    requires ':' !in h && ':' !in m && (rest == "" || rest[0] == ':')
    ensures var pieces := SplitColon(h + ":" + m + rest);
      |pieces| >= 2 && pieces[0] == h && pieces[1] == m
  {
    assert h + ":" + m + rest == h + ":" + (m + rest);
    SplitColonPiece(h, m + rest);
    if rest == "" {
      assert m + rest == m;
      SplitColonNoColon(m);
    } else {
      assert m + rest == m + ":" + rest[1..];
      SplitColonPiece(m, rest[1..]);
    }
  }

  lemma FormatTimeOfDigits(h: string, m: string, rest: string)
    requires h != [] && forall i :: 0 <= i < |h| ==> IsDigit(h[i])
    requires ':' !in m && (rest == "" || rest[0] == ':')
    ensures var n := DigitsValue(h);
      FormatTime(h + ":" + m + rest)
      == NatToString(ClockHour(n)) + ":" + m + (if n >= 12 then " PM" else " AM")
  {
    assert ':' !in h;
    SplitTime(h, m, rest);
    ParseIntOfDigits(h);
  }

  lemma TwelveText()
    ensures NatToString(12) == "12"
  {
    assert NatToString(12) == NatToString(1) + [DigitChar(2)];
  }

  /** The four cases of the 12-hour clock, for an hour written in digits
      and minutes copied verbatim; `rest` is empty or the `:ss` seconds. */
  lemma FormatTimeCases(h: string, m: string, rest: string)
    requires h != [] && forall i :: 0 <= i < |h| ==> IsDigit(h[i])
    requires ':' !in m && (rest == "" || rest[0] == ':')
    ensures var n := DigitsValue(h);
      && (n == 0 ==> FormatTime(h + ":" + m + rest) == "12:" + m + " AM")
      && (n == 12 ==> FormatTime(h + ":" + m + rest) == "12:" + m + " PM")
      && (13 <= n <= 23 ==> FormatTime(h + ":" + m + rest) == NatToString(n - 12) + ":" + m + " PM")
      && (1 <= n <= 11 ==> FormatTime(h + ":" + m + rest) == NatToString(n) + ":" + m + " AM")
  {
    FormatTimeOfDigits(h, m, rest);
    var n := DigitsValue(h);
    if n == 0 || n == 12 {
      assert ClockHour(n) == 12;
      TwelveText();
    } else if 13 <= n <= 23 {
      assert ClockHour(n) == n - 12;
    } else if 1 <= n <= 11 {
      assert ClockHour(n) == n;
    }
  }

  /** An hour that is not a number (empty, or not starting with a digit)
      still formats: `parseInt` gives NaN, which is not `>= 12`, and
      `NaN % 12 || 12` is 12, so the text is 12 AM. */
  lemma FormatTimeNotANumber(h: string, m: string, rest: string)
    requires ':' !in h && (h == [] || !IsDigit(h[0]))
    requires ':' !in m && (rest == "" || rest[0] == ':')
    ensures FormatTime(h + ":" + m + rest) == "12:" + m + " AM"
  {
    SplitTime(h, m, rest);
    TwelveText();
  }

  /** The badge text of each availability level. */
  function BadgeLabel(level: AvailabilityLevel): (text: string)
    ensures text != ""
  {
    match level
    case High => "Available"
    case Low => "Limited"
    case Full => "Full"
    case Unavailable => "Unavailable"
  }

  /** Different levels always show different badges. */
  lemma BadgeLabelsDistinct(a: AvailabilityLevel, b: AvailabilityLevel)
    requires a != b
    ensures BadgeLabel(a) != BadgeLabel(b)
  {
  }

  predicate SelectDisabled(f: AvailableFlight) {
    f.availability_level == Full || f.remaining_seats == 0
  }

  function ButtonLabel(f: AvailableFlight): (text: string)
    ensures text == "Fully Booked" <==> f.remaining_seats == 0
    ensures text == "Fully Booked" ==> SelectDisabled(f)
  {
    if f.remaining_seats == 0 then "Fully Booked" else "Select"
  }
}
