/** POST /api/bookings/validate: the pre-check of a passenger list against a
    flight's committed totals. Seats are checked before weight, both limits
    are inclusive, and every answer carries the remaining capacity. */
module ValidateRoute {
  import opened Wrappers
  import opened Types
  import opened Weights
  import Store

  /** The response: the two error bodies, or a BookingCheckResult. */
  datatype CheckResult =
    | MissingFields
    | FlightNotFound
    | PassengerLimit(remainingSeats: int)
    | WeightLimit(remainingCapacity: real, requestedWeight: real)
    | Bookable(remainingSeats: int, remainingWeight: real)
  {
    /** The HTTP status; the two capacity refusals are normal 200 answers. */
    function Status(): int {
      if MissingFields? then 400 else if FlightNotFound? then 404 else 200
    }
  }

  /** `!flight_id || !passengers || passengers.length === 0`. */
  predicate MissingInput(flightId: string, passengers: Option<seq<PassengerInput>>) {
    flightId == "" || passengers.None? || passengers.value == []
  }

  predicate SeatsFit(f: Flight, count: int) {
    f.current_passengers + count <= f.max_passengers
  }

  predicate WeightFits(f: Flight, weight: real) {
    f.current_weight_kg + weight <= f.max_weight_kg
  }

  /** The decision over one snapshot of the flights table. */
  function Check(flights: map<string, Flight>, flightId: string, passengers: Option<seq<PassengerInput>>): (r: CheckResult)
    ensures r.MissingFields? <==> MissingInput(flightId, passengers)
    ensures r.FlightNotFound? <==> !MissingInput(flightId, passengers) && flightId !in flights
    ensures r.PassengerLimit? <==>
      !MissingInput(flightId, passengers) && flightId in flights
      && !SeatsFit(flights[flightId], |passengers.value|)
    ensures r.WeightLimit? <==>
      !MissingInput(flightId, passengers) && flightId in flights
      && SeatsFit(flights[flightId], |passengers.value|)
      && !WeightFits(flights[flightId], ParsedTotal(passengers.value))
    ensures r.PassengerLimit? ==>
      r.remainingSeats == flights[flightId].max_passengers - flights[flightId].current_passengers
      && r.remainingSeats < |passengers.value|
    ensures r.WeightLimit? ==>
      r.remainingCapacity == flights[flightId].max_weight_kg - flights[flightId].current_weight_kg
      && r.requestedWeight == ParsedTotal(passengers.value)
      && r.remainingCapacity < r.requestedWeight
    ensures r.Bookable? ==>
      r.remainingSeats == flights[flightId].max_passengers - flights[flightId].current_passengers - |passengers.value|
      && r.remainingWeight == flights[flightId].max_weight_kg - flights[flightId].current_weight_kg - ParsedTotal(passengers.value)
      && r.remainingSeats >= 0 && r.remainingWeight >= 0.0
  {
    if MissingInput(flightId, passengers) then MissingFields
    else if flightId !in flights then FlightNotFound
    else
      var f := flights[flightId];
      var totalNewWeight := ParsedTotal(passengers.value);
      var passengerCount := |passengers.value|;
      if f.current_passengers + passengerCount > f.max_passengers then
        PassengerLimit(f.max_passengers - f.current_passengers)
      else if f.current_weight_kg + totalNewWeight > f.max_weight_kg then
        WeightLimit(f.max_weight_kg - f.current_weight_kg, totalNewWeight)
      else
        Bookable(f.max_passengers - f.current_passengers - passengerCount,
                 f.max_weight_kg - f.current_weight_kg - totalNewWeight)
  }

  /** The handler: it reads the flights table and writes nothing (no `modifies`). */
  method Post(db: Store.Database, flightId: string, passengers: Option<seq<PassengerInput>>) returns (r: CheckResult)
    ensures r == Check(db.flights, flightId, passengers)
    ensures r.Status() == 400 <==> MissingInput(flightId, passengers)
  {
    if flightId == "" || passengers.None? || |passengers.value| == 0 {
      return MissingFields;
    }
    if flightId !in db.flights {
      return FlightNotFound;
    }
    r := Check(db.flights, flightId, passengers);
  }

  /** Filling the last seat and the last kilogram exactly is still bookable. */
  lemma ExactFillIsBookable(flights: map<string, Flight>, flightId: string, passengers: seq<PassengerInput>)
    requires flightId != "" && passengers != [] && flightId in flights
    requires flights[flightId].current_passengers + |passengers| == flights[flightId].max_passengers
    requires flights[flightId].current_weight_kg + ParsedTotal(passengers) == flights[flightId].max_weight_kg
    ensures Check(flights, flightId, Some(passengers)) == Bookable(0, 0.0)
  {
  }

  /** When both limits are broken, the seat refusal is the one reported. */
  lemma SeatRefusalWins(flights: map<string, Flight>, flightId: string, passengers: seq<PassengerInput>)
    requires flightId != "" && passengers != [] && flightId in flights
    requires !SeatsFit(flights[flightId], |passengers|)
    requires !WeightFits(flights[flightId], ParsedTotal(passengers))
    ensures Check(flights, flightId, Some(passengers)).PassengerLimit?
  {
  }
}
