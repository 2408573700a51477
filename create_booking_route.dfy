/** POST /api/bookings/create: the booking commit. In order: required-field
    check, flight lookup, final capacity check, reference generation, booking
    insert, passenger insert, and a compensating delete of the booking when
    the passenger insert fails. The outcome of each store write, and the
    reference the store's generator returns, are parameters. */
module CreateBookingRoute {
  import opened Wrappers
  import opened Types
  import opened Weights
  import opened Seqs
  import opened Text
  import opened Store

  /** The request body: BookingFormData plus the client's `total_weight_kg`. */
  datatype CreateRequest = CreateRequest(
    flight_id: string,
    customer_name: string,
    customer_email: string,
    customer_phone: string,
    passengers: Option<seq<PassengerInput>>,
    total_weight_kg: Weight)

  datatype CreateResponse =
    | MissingFields
    | FlightNotFound
    | CapacityExceeded
    | BookingInsertFailed
    | PassengerInsertFailed
    | Created(id: nat, booking_reference: string, qr_code: string)
  {
    function Status(): int {
      match this
      case MissingFields => 400
      case FlightNotFound => 404
      case CapacityExceeded => 400
      case BookingInsertFailed => 500
      case PassengerInsertFailed => 500
      case Created(_, _, _) => 200
    }

    /** The `error` text of a refusal. */
    function Error(): (e: string)
      requires !Created?
      ensures e != ""
    {
      match this
      case MissingFields => "Missing required fields"
      case FlightNotFound => "Flight not found"
      case CapacityExceeded => "Flight capacity exceeded. Please select another flight."
      case BookingInsertFailed => "Failed to create booking"
      case PassengerInsertFailed => "Failed to create passenger records"
    }
  }

  predicate MissingInput(req: CreateRequest) {
    || req.flight_id == ""
    || req.customer_name == ""
    || req.customer_email == ""
    || req.customer_phone == ""
    || req.passengers.None?
    || req.passengers.value == []
  }

  /** `total_weight_kg || sum`: a client total that is a non-zero number wins. */
  predicate ClientTotalUsed(req: CreateRequest) {
    req.total_weight_kg.Kg? && req.total_weight_kg.kg != 0.0
  }

  /** The weight the commit checks and stores, with the passenger weights
      added as the validate route adds them. */
  function CommitWeight(req: CreateRequest): (w: real)
    requires req.passengers.Some?
    ensures ClientTotalUsed(req) ==> w == req.total_weight_kg.kg
    ensures !ClientTotalUsed(req) ==> w == ParsedTotal(req.passengers.value)
  {
    if ClientTotalUsed(req) then req.total_weight_kg.kg else ParsedTotal(req.passengers.value)
  }

  /** The final check: one refusal covers both limits, and equality is accepted. */
  predicate Exceeds(f: Flight, count: int, weight: real) {
    f.current_passengers + count > f.max_passengers || f.current_weight_kg + weight > f.max_weight_kg
  }

  /** Line 47 exactly as written: the fallback adds the raw weights with `+`. */
  function CommitWeightAsWritten(req: CreateRequest): (w: Weight)
    requires req.passengers.Some?
    ensures ClientTotalUsed(req) ==> w == req.total_weight_kg
    ensures !ClientTotalUsed(req) ==> w == RawTotal(req.passengers.value)
  {
    if ClientTotalUsed(req) then req.total_weight_kg else RawTotal(req.passengers.value)
  }

  /** Lines 50-58 exactly as written: a comparison with NaN is false, so a NaN
      total never trips the weight half of the check (a `null` adds as 0). */
  predicate ExceedsAsWritten(f: Flight, count: int, weight: Weight) {
    f.current_passengers + count > f.max_passengers
    || (!weight.NotANumber? && f.current_weight_kg + AsNumber(weight) > f.max_weight_kg)
  }

  /** `refData || \`HT-${Date.now()}\``. */
  function Reference(generated: Option<string>, now: nat): (reference: string)
    ensures reference != ""
    ensures generated.Some? && generated.value != "" ==> reference == generated.value
    ensures (generated.None? || generated.value == "") ==> reference == "HT-" + NatToString(now)
  {
    if generated.Some? && generated.value != "" then generated.value else "HT-" + NatToString(now)
  }

  /** The booking row the route inserts. */
  function NewBooking(id: nat, req: CreateRequest, reference: string, weight: real): (b: Booking)
    requires req.passengers.Some?
    ensures b.id == id && b.flight_id == req.flight_id && b.booking_reference == reference
    ensures b.passenger_count == |req.passengers.value| && b.total_weight_kg == weight
    ensures b.booking_type == Online
    ensures b.payment_status == PaymentStatus.Pending && b.status == BookingStatus.Pending
    ensures b.qr_code == Some("QR-" + reference)
  {
    Booking(id, req.flight_id, reference, req.customer_name, req.customer_email,
            req.customer_phone, |req.passengers.value|, weight, Online,
            PaymentStatus.Pending, BookingStatus.Pending, Some("QR-" + reference), None)
  }

  /** `passengers.map(p => ({booking_id, name, weight_kg}))`: one row per
      input passenger, in order, each pointing at the booking. */
  function PassengerRows(bookingId: nat, ps: seq<PassengerInput>): (rows: seq<Passenger>)
    ensures |rows| == |ps|
    ensures forall i :: 0 <= i < |ps| ==>
      rows[i].booking_id == bookingId && rows[i].name == ps[i].name
      && rows[i].weight_kg == ps[i].weight_kg && rows[i].seat_number.None?
  {
    if ps == [] then []
    else [Passenger(bookingId, ps[0].name, ps[0].weight_kg, None)] + PassengerRows(bookingId, ps[1..])
  }

  /** `bookings.delete().eq('id', id)`. */
  function WithoutBooking(bookings: seq<Booking>, id: nat): seq<Booking> {
    Filter(bookings, (b: Booking) => b.id != id)
  }

  /** How many passenger rows point at booking `id`. */
  function LinkedPassengers(rows: seq<Passenger>, id: nat): nat {
    Count(rows, (p: Passenger) => p.booking_id == id)
  }

  /** The request gets past every check and reaches the booking insert. */
  predicate Admitted(flights: map<string, Flight>, req: CreateRequest) {
    && !MissingInput(req)
    && req.flight_id in flights
    && !Exceeds(flights[req.flight_id], |req.passengers.value|, CommitWeight(req))
  }

  /** Deleting a freshly inserted booking leaves exactly the earlier table. */
  lemma RollbackRestores(bookings: seq<Booking>, b: Booking)
    requires forall i :: 0 <= i < |bookings| ==> bookings[i].id < b.id
    ensures WithoutBooking(bookings + [b], b.id) == bookings
  {
    var keep := (x: Booking) => x.id != b.id;
    FilterAppend(bookings, [b], keep);
    FilterKeepsAll(bookings, keep);
    FilterSingleton(b, keep);
  }

  /** Rows appended for a new booking are exactly the rows linked to it. */
  lemma LinkedAfterInsert(old_rows: seq<Passenger>, id: nat, ps: seq<PassengerInput>)
    requires forall i :: 0 <= i < |old_rows| ==> old_rows[i].booking_id < id
    ensures LinkedPassengers(old_rows, id) == 0
    ensures LinkedPassengers(old_rows + PassengerRows(id, ps), id) == |ps|
  {
    var linked := (p: Passenger) => p.booking_id == id;
    var rows := PassengerRows(id, ps);
    FilterAppend(old_rows, rows, linked);
    FilterKeepsAll(rows, linked);
    FilterKeepsNone(old_rows, linked);
  }

  /** What one create request does, given the tables it started from: the
      response, and the bookings and passengers tables it leaves. The checks
      run in order; nothing is written before the booking insert succeeds;
      a failed passenger insert is compensated by deleting the booking. */
  ghost predicate Outcome(flights: map<string, Flight>, bookings: seq<Booking>, passengers: seq<Passenger>,
                          nextBookingId: nat, req: CreateRequest, generated: Option<string>, now: nat,
                          bookingInsertOk: bool, passengersInsertOk: bool, rollbackOk: bool,
                          r: CreateResponse, bookings': seq<Booking>, passengers': seq<Passenger>)
  {
    && (r.MissingFields? <==> MissingInput(req))
    && (r.FlightNotFound? <==> !MissingInput(req) && req.flight_id !in flights)
    && (r.CapacityExceeded? <==>
          !MissingInput(req) && req.flight_id in flights
          && Exceeds(flights[req.flight_id], |req.passengers.value|, CommitWeight(req)))
    && (r.BookingInsertFailed? <==> Admitted(flights, req) && !bookingInsertOk)
    && (r.PassengerInsertFailed? <==> Admitted(flights, req) && bookingInsertOk && !passengersInsertOk)
    && (r.Created? <==> Admitted(flights, req) && bookingInsertOk && passengersInsertOk)
    && ((r.MissingFields? || r.FlightNotFound? || r.CapacityExceeded? || r.BookingInsertFailed?) ==>
          bookings' == bookings && passengers' == passengers)
    && ((r.Created? || r.PassengerInsertFailed?) ==>
          && req.passengers.Some?
          && var b := NewBooking(nextBookingId, req, Reference(generated, now), CommitWeight(req));
          && (r.Created? ==>
                && bookings' == bookings + [b]
                && passengers' == passengers + PassengerRows(b.id, req.passengers.value)
                && LinkedPassengers(passengers', b.id) == b.passenger_count
                && r == Created(b.id, b.booking_reference, "QR-" + b.booking_reference))
          && (r.PassengerInsertFailed? ==>
                && passengers' == passengers
                && (rollbackOk ==> bookings' == bookings)
                && (!rollbackOk ==>
                      bookings' == bookings + [b]
                      && LinkedPassengers(passengers', b.id) == 0 < b.passenger_count)))
  }

  /** A created booking is one new row at the end of the bookings table:
      the booking `NewBooking` builds from the request. */
  lemma CreatedAppendsBooking(flights: map<string, Flight>, bookings: seq<Booking>, passengers: seq<Passenger>,
                              nextBookingId: nat, req: CreateRequest, generated: Option<string>, now: nat,
                              bookingInsertOk: bool, passengersInsertOk: bool, rollbackOk: bool,
                              r: CreateResponse, bookings': seq<Booking>, passengers': seq<Passenger>)
    requires Outcome(flights, bookings, passengers, nextBookingId, req, generated, now,
                     bookingInsertOk, passengersInsertOk, rollbackOk, r, bookings', passengers')
    requires r.Created?
    ensures req.passengers.Some?
    ensures bookings' == bookings + [NewBooking(nextBookingId, req, Reference(generated, now), CommitWeight(req))]
    ensures r.booking_reference == Reference(generated, now)
  {
  }

  /** The handler. It checks and stores the corrected weight `CommitWeight`;
      `AsWrittenAgrees` says on which requests that is line 47 as written. */
  method Post(db: Database, req: CreateRequest, generated: Option<string>, now: nat,
              bookingInsertOk: bool, passengersInsertOk: bool, rollbackOk: bool)
    returns (r: CreateResponse)
    requires db.Valid()
    modifies db
    ensures db.Valid()
    ensures db.flights == old(db.flights) && db.holds == old(db.holds) && db.nextHoldId == old(db.nextHoldId)
    ensures Outcome(old(db.flights), old(db.bookings), old(db.passengers), old(db.nextBookingId),
                    req, generated, now, bookingInsertOk, passengersInsertOk, rollbackOk,
                    r, db.bookings, db.passengers)
  {
    if req.flight_id == "" || req.customer_name == "" || req.customer_email == ""
       || req.customer_phone == "" || req.passengers.None? || |req.passengers.value| == 0 {
      return MissingFields;
    }
    if req.flight_id !in db.flights {
      return FlightNotFound;
    }
    var flight := db.flights[req.flight_id];
    var ps := req.passengers.value;
    var totalWeight := CommitWeight(req);
    if flight.current_passengers + |ps| > flight.max_passengers
       || flight.current_weight_kg + totalWeight > flight.max_weight_kg {
      return CapacityExceeded;
    }
    var reference := Reference(generated, now);
    if !bookingInsertOk {
      return BookingInsertFailed;
    }
    var booking := NewBooking(db.nextBookingId, req, reference, totalWeight);
    r := WriteBooking(db, booking, ps, passengersInsertOk, rollbackOk);
  }

  /** A client's `fetch` of the route: the route's response, or None when
      the request throws before reaching it (`reachable` false), in which
      case nothing is written. */
  method Fetch(db: Database, req: CreateRequest, generated: Option<string>, now: nat,
               bookingInsertOk: bool, passengersInsertOk: bool, rollbackOk: bool, reachable: bool)
    returns (reply: Option<CreateResponse>)
    requires db.Valid()
    modifies db
    ensures db.Valid()
    ensures db.flights == old(db.flights) && db.holds == old(db.holds)
    ensures reply.Some? <==> reachable
    ensures reply.None? ==> db.bookings == old(db.bookings) && db.passengers == old(db.passengers)
    ensures reply.Some? ==>
      Outcome(old(db.flights), old(db.bookings), old(db.passengers), old(db.nextBookingId),
              req, generated, now, bookingInsertOk, passengersInsertOk, rollbackOk,
              reply.value, db.bookings, db.passengers)
  {
    if !reachable {
      return None;
    }
    var r := Post(db, req, generated, now, bookingInsertOk, passengersInsertOk, rollbackOk);
    reply := Some(r);
  }

  /** The writes after the booking insert succeeded: the passenger rows, or
      the compensating delete when their insert fails. */
  method WriteBooking(db: Database, booking: Booking, ps: seq<PassengerInput>,
                      passengersInsertOk: bool, rollbackOk: bool)
    returns (r: CreateResponse)
    requires db.Valid() && booking.id == db.nextBookingId
    requires ps != [] && booking.passenger_count == |ps| && booking.qr_code.Some?
    modifies db
    ensures db.Valid()
    ensures db.flights == old(db.flights) && db.holds == old(db.holds) && db.nextHoldId == old(db.nextHoldId)
    ensures r == if passengersInsertOk then Created(booking.id, booking.booking_reference, booking.qr_code.value)
                 else PassengerInsertFailed
    ensures passengersInsertOk ==>
      && db.bookings == old(db.bookings) + [booking]
      && db.passengers == old(db.passengers) + PassengerRows(booking.id, ps)
      && LinkedPassengers(db.passengers, booking.id) == booking.passenger_count
    ensures !passengersInsertOk ==>
      && db.passengers == old(db.passengers)
      && (rollbackOk ==> db.bookings == old(db.bookings))
      && (!rollbackOk ==>
            db.bookings == old(db.bookings) + [booking]
            && LinkedPassengers(db.passengers, booking.id) == 0 < booking.passenger_count)
  {
    ghost var oldBookings, oldPassengers := db.bookings, db.passengers;
    LinkedAfterInsert(oldPassengers, booking.id, ps);
    RollbackRestores(oldBookings, booking);
    db.bookings := db.bookings + [booking];
    db.nextBookingId := db.nextBookingId + 1;
    assert db.Valid();
    if !passengersInsertOk {
      if rollbackOk {
        db.bookings := WithoutBooking(db.bookings, booking.id);
        assert db.bookings == oldBookings;
      }
      return PassengerInsertFailed;
    }
    var rows := PassengerRows(booking.id, ps);
    db.passengers := db.passengers + rows;
    assert forall i :: 0 <= i < |db.passengers| ==> db.passengers[i].booking_id < db.nextBookingId by {
      forall i | 0 <= i < |db.passengers| ensures db.passengers[i].booking_id < db.nextBookingId {
        if i >= |oldPassengers| {
          assert db.passengers[i] == rows[i - |oldPassengers|];
        }
      }
    }
    r := Created(booking.id, booking.booking_reference, booking.qr_code.value);
  }

  /** Finding, as written: with no client total and one weight left out of
      the request, 150 kg of numeric passenger weight is admitted to a flight with
      100 kg left. The corrected check refuses it. */
  lemma NaNWeightSlipsThrough()
    ensures
      var f := Flight("f1", "r1", "2025-01-01", "10:00:00", 4, 100.0, 0, 0.0, FlightStatus.Scheduled);
      var ps := [PassengerInput("A", Kg(150.0)), PassengerInput("B", NotANumber)];
      var req := CreateRequest("f1", "C", "c@example.com", "555", Some(ps), NotANumber);
      && !ExceedsAsWritten(f, |ps|, CommitWeightAsWritten(req))
      && f.current_weight_kg + ParsedTotal(ps) > f.max_weight_kg
      && Exceeds(f, |ps|, CommitWeight(req))
  {
    var ps := [PassengerInput("A", Kg(150.0)), PassengerInput("B", NotANumber)];
    RawTotalNaN(ps, 1);
    assert ParsedTotal(ps) == 150.0 + ParsedTotal(ps[1..]);
    assert ParsedTotal(ps[1..]) == 0.0 + ParsedTotal(ps[2..]);
  }

  /** Corrected: when the client supplies no total, an admitted request's
      numeric passenger weights fit the flight's remaining weight. */
  lemma AdmittedWeightFits(flights: map<string, Flight>, req: CreateRequest)
    requires Admitted(flights, req) && !ClientTotalUsed(req)
    ensures flights[req.flight_id].current_weight_kg + ParsedTotal(req.passengers.value)
            <= flights[req.flight_id].max_weight_kg
    ensures flights[req.flight_id].current_passengers + |req.passengers.value|
            <= flights[req.flight_id].max_passengers
  {
  }

  /** The corrected and the as-written weight agree, and so do the two
      capacity checks, whenever a non-zero client total is sent or every
      passenger weight is a number or `null`: the finding needs a request
      without a total that leaves out a weight. */
  lemma AsWrittenAgrees(f: Flight, req: CreateRequest)
    requires req.passengers.Some?
    requires ClientTotalUsed(req) || Summable(req.passengers.value)
    ensures CommitWeightAsWritten(req) == Kg(CommitWeight(req))
    ensures ExceedsAsWritten(f, |req.passengers.value|, CommitWeightAsWritten(req))
            <==> Exceeds(f, |req.passengers.value|, CommitWeight(req))
  {
    if !ClientTotalUsed(req) {
      RawTotalOfNumbers(req.passengers.value);
    }
  }
}
