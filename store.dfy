/** The persistent store the route handlers talk to: the flights table (only
    read by the modelled code), the bookings and passengers tables written by
    the create route, and the `flight_holds` table of the hold routes. Row ids
    come from counters, so a new id never equals an existing one. */
module Store {
  import opened Types

  class Database {
    var flights: map<string, Flight>
    var bookings: seq<Booking>
    var passengers: seq<Passenger>
    var holds: seq<FlightHold>
    var nextBookingId: nat
    var nextHoldId: nat

    /** Every stored id, and every passenger's booking reference, was issued
        before the current counter value. */
    ghost predicate Valid()
      reads this
    {
      && (forall i :: 0 <= i < |bookings| ==> bookings[i].id < nextBookingId)
      && (forall i :: 0 <= i < |passengers| ==> passengers[i].booking_id < nextBookingId)
      && (forall i :: 0 <= i < |holds| ==> holds[i].id < nextHoldId)
    }

    constructor (flights: map<string, Flight>)
      ensures Valid()
      ensures this.flights == flights
      ensures bookings == [] && passengers == [] && holds == []
    {
      this.flights := flights;
      bookings, passengers, holds := [], [], [];
      nextBookingId, nextHoldId := 0, 0;
    }
  }
}
