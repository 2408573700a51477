/** The coordinator's list of the day's flights
    (components/coordinator/TodaysFlights.tsx): date buttons, the date
    filter, today's flights and the four counters above the list. */
module TodaysFlights {
  import opened Wrappers
  import opened Types
  import opened Seqs
  import FlightSelector

  /** `todayFlights`: the shown flights that are on `today`. */
  function TodayFlights(flights: seq<AvailableFlight>, selectedDate: string, today: string): (r: seq<AvailableFlight>)
    ensures forall i :: 0 <= i < |r| ==>
      r[i] in FlightSelector.FilteredFlights(flights, selectedDate) && r[i].flight.scheduled_date == today
    ensures var shown := FlightSelector.FilteredFlights(flights, selectedDate);
      forall i :: 0 <= i < |shown| && shown[i].flight.scheduled_date == today ==> shown[i] in r
  {
    Filter(FlightSelector.FilteredFlights(flights, selectedDate),
           (f: AvailableFlight) => f.flight.scheduled_date == today)
  }

  datatype Stats = Stats(total: nat, confirmed: nat, empty: nat, full: nat)

  predicate HasPassengers(f: AvailableFlight) { f.flight.current_passengers > 0 }
  predicate IsEmpty(f: AvailableFlight) { f.flight.current_passengers == 0 }
  predicate IsFull(f: AvailableFlight) { f.availability_level == Full }

  function ComputeStats(flights: seq<AvailableFlight>, selectedDate: string, today: string): (s: Stats)
    ensures s.total == |TodayFlights(flights, selectedDate, today)|
    ensures s.confirmed <= s.total && s.empty <= s.total && s.full <= s.total
  {
    var t := TodayFlights(flights, selectedDate, today);
    Stats(|t|, Count(t, HasPassengers), Count(t, IsEmpty), Count(t, IsFull))
  }

  /** With no negative passenger count, every flight of the day is either
      booked or empty. */
  lemma ConfirmedPlusEmpty(flights: seq<AvailableFlight>, selectedDate: string, today: string)
    requires forall i :: 0 <= i < |flights| ==> flights[i].flight.current_passengers >= 0
    ensures var s := ComputeStats(flights, selectedDate, today); s.confirmed + s.empty == s.total
  {
    var t := TodayFlights(flights, selectedDate, today);
    forall i | 0 <= i < |t| ensures IsEmpty(t[i]) == !HasPassengers(t[i]) {
      assert t[i] in FlightSelector.FilteredFlights(flights, selectedDate);
      assert t[i] in flights;
    }
    CountComplement(t, HasPassengers, IsEmpty);
  }

  /** A day other than today, once selected, shows all-zero counters. */
  lemma OtherDayShowsZero(flights: seq<AvailableFlight>, selectedDate: string, today: string)
    requires selectedDate != "" && selectedDate != today
    ensures ComputeStats(flights, selectedDate, today) == Stats(0, 0, 0, 0)
  {
    var shown := FlightSelector.FilteredFlights(flights, selectedDate);
    FilterKeepsNone(shown, (f: AvailableFlight) => f.flight.scheduled_date == today);
  }

  /** After a load the selected date is today, and today's flights are
      exactly the day's flights of the whole list. */
  lemma LoadedShowsToday(flights: seq<AvailableFlight>, today: string)
    requires today != ""
    ensures TodayFlights(flights, today, today) == FlightSelector.FilteredFlights(flights, today)
  {
    FilterIdempotent(flights, (f: AvailableFlight) => f.flight.scheduled_date == today);
  }

  /** `uniqueDates.slice(0, 7)`: the first seven distinct dates in order. */
  function DateButtons(flights: seq<AvailableFlight>): (r: seq<string>)
    ensures |r| <= 7
    ensures FlightSelector.StrictlySorted(r)
    ensures forall i :: 0 <= i < |r| ==>
      exists j :: 0 <= j < |flights| && flights[j].flight.scheduled_date == r[i]
    ensures |r| <= |FlightSelector.UniqueDates(flights)| && r == FlightSelector.UniqueDates(flights)[..|r|]
    ensures |FlightSelector.UniqueDates(flights)| >= 7 ==> |r| == 7
  {
    var dates := FlightSelector.UniqueDates(flights);
    var r := if |dates| <= 7 then dates else dates[..7];
    assert forall i :: 0 <= i < |r| ==> r[i] == dates[i] && dates[i] in dates;
    r
  }

  /** The answer of `GET /api/flights` as `fetchFlights` reads it: a body
      whose `error` is the empty string when absent (it is tested for
      truthiness), or a request that throws. */
  datatype FlightsReply = Answer(error: string, flights: seq<AvailableFlight>) | Thrown

  const LoadFailedMessage: string := "Failed to load flights"

  class Dashboard {
    var flights: seq<AvailableFlight>
    var selectedDate: string
    var refreshKey: nat
    var error: Option<string>

    constructor ()
      ensures flights == [] && selectedDate == "" && refreshKey == 0 && error == None
    {
      flights, selectedDate, refreshKey, error := [], "", 0, None;
    }

    /** `if (error)`: the error view with its Retry button replaces the list. */
    predicate ShowsError()
      reads this
    {
      error.Some?
    }

    /** `handleRefresh`: the key that re-runs the load effect goes up by one. */
    method HandleRefresh()
      modifies this
      ensures refreshKey == old(refreshKey) + 1
      ensures flights == old(flights) && selectedDate == old(selectedDate) && error == old(error)
    {
      refreshKey := refreshKey + 1;
    }

    /** `fetchFlights`: an error body or a thrown request sets the error and
        keeps the list; a good body replaces the list and selects today, and
        leaves `error` as it was. */
    method LoadFlights(reply: FlightsReply, today: string)
      modifies this
      ensures reply.Answer? && reply.error == "" ==>
        flights == reply.flights && selectedDate == today && error == old(error)
      ensures reply.Answer? && reply.error != "" ==>
        error == Some(reply.error) && flights == old(flights) && selectedDate == old(selectedDate)
      ensures reply.Thrown? ==>
        error == Some(LoadFailedMessage) && flights == old(flights) && selectedDate == old(selectedDate)
      ensures refreshKey == old(refreshKey)
    {
      match reply
      case Thrown =>
        error := Some(LoadFailedMessage);
      case Answer(message, fs) =>
        if message != "" {
          error := Some(message);
        } else {
          flights := fs;
          selectedDate := today;
        }
    }

    /** As written, Retry never leaves the error view: the reload it
        triggers can succeed, but nothing clears `error`. */
    method RetryKeepsError(fs: seq<AvailableFlight>, today: string)
      requires ShowsError()
      modifies this
      ensures ShowsError() && error == old(error)
      ensures flights == fs && selectedDate == today
    {
      HandleRefresh();
      LoadFlights(Answer("", fs), today);
    }

    /** `fetchFlights` as evidently intended: a good body also clears the
        error (`setError(null)`). */
    method LoadFlightsCorrected(reply: FlightsReply, today: string)
      modifies this
      ensures reply.Answer? && reply.error == "" ==>
        flights == reply.flights && selectedDate == today && error == None
      ensures reply.Answer? && reply.error != "" ==>
        error == Some(reply.error) && flights == old(flights) && selectedDate == old(selectedDate)
      ensures reply.Thrown? ==>
        error == Some(LoadFailedMessage) && flights == old(flights) && selectedDate == old(selectedDate)
      ensures refreshKey == old(refreshKey)
    {
      LoadFlights(reply, today);
      if reply.Answer? && reply.error == "" {
        error := None;
      }
    }

    /** With the correction, a Retry whose reload succeeds shows the list again. */
    method RetryRecovers(fs: seq<AvailableFlight>, today: string)
      requires ShowsError()
      modifies this
      ensures !ShowsError() && flights == fs && selectedDate == today
    {
      HandleRefresh();
      LoadFlightsCorrected(Answer("", fs), today);
    }

    /** A date button's `onClick`. */
    method SelectDate(date: string)
      modifies this
      ensures selectedDate == date && flights == old(flights) && refreshKey == old(refreshKey)
      ensures error == old(error)
    {
      selectedDate := date;
    }
  }
}
