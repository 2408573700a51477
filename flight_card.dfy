/** The coordinator's flight card (components/coordinator/FlightCard.tsx):
    the border colour, the row of passenger icons, the check-in button and
    when the booking list is fetched. Its `formatTime` is the one of the
    flight selector: FlightSelector.FormatTime. */
module FlightCard {
  import opened Types
  import opened Seqs

  datatype CardColor = Red | Gray | Yellow | Green

  /** `getStatusColor`: full first, then an empty flight, then low. */
  function StatusColor(f: AvailableFlight): (c: CardColor)
    ensures c == Red <==> f.availability_level == Full
    ensures c == Gray <==> f.availability_level != Full && f.flight.current_passengers == 0
    ensures c == Yellow <==>
      f.availability_level == Low && f.flight.current_passengers != 0
    ensures c == Green <==>
      f.availability_level != Full && f.availability_level != Low && f.flight.current_passengers != 0
  {
    if f.availability_level == Full then Red
    else if f.flight.current_passengers == 0 then Gray
    else if f.availability_level == Low then Yellow
    else Green
  }

  /** `[...Array(max_passengers)].map((_, i) => i < current_passengers)`:
      one icon per seat, filled or not. */
  function PassengerIcons(maxPassengers: nat, currentPassengers: int): (icons: seq<bool>)
    ensures |icons| == maxPassengers
    ensures forall i :: 0 <= i < maxPassengers ==> (icons[i] <==> i < currentPassengers)
  {
    seq(maxPassengers, i => i < currentPassengers)
  }

  /** The number of filled icons is the passenger count, clamped to the
      number of seats. */
  lemma {:induction false} FilledIcons(maxPassengers: nat, currentPassengers: int)
    ensures Count(PassengerIcons(maxPassengers, currentPassengers), (b: bool) => b)
      == if currentPassengers < 0 then 0
         else if currentPassengers > maxPassengers then maxPassengers
         else currentPassengers
  {
    if maxPassengers > 0 {
      var icons := PassengerIcons(maxPassengers, currentPassengers);
      var prefix := PassengerIcons(maxPassengers - 1, currentPassengers);
      assert icons == prefix + [maxPassengers - 1 < currentPassengers];
      FilledIcons(maxPassengers - 1, currentPassengers);
      FilterAppend(prefix, [maxPassengers - 1 < currentPassengers], (b: bool) => b);
      FilterSingleton(maxPassengers - 1 < currentPassengers, (b: bool) => b);
    }
  }

  predicate CheckInShown(status: BookingStatus) {
    status == BookingStatus.Confirmed
  }

  /** The bookings that show a Check In button, in display order. */
  function CheckInBookings(bookings: seq<Booking>): (r: seq<Booking>)
    ensures forall i :: 0 <= i < |r| ==> r[i] in bookings && r[i].status == BookingStatus.Confirmed
    ensures forall i :: 0 <= i < |bookings| && bookings[i].status == BookingStatus.Confirmed ==> bookings[i] in r
  {
    Filter(bookings, (b: Booking) => CheckInShown(b.status))
  }

  /** The effect on `expanded`: fetch only when the card is open and no
      booking has been loaded yet. */
  predicate ShouldFetchBookings(expanded: bool, loaded: seq<Booking>) {
    expanded && |loaded| == 0
  }

  /** Collapsing never fetches, nor does reopening a card that already has
      its bookings. */
  lemma FetchOnlyOnce(loaded: seq<Booking>)
    ensures !ShouldFetchBookings(false, loaded)
    ensures loaded != [] ==> !ShouldFetchBookings(true, loaded)
  {
  }
}
