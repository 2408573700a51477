/** The coordinator's walk-in form (components/coordinator/WalkInBooking.tsx):
    today's bookable flights, the passenger list, the post to the create
    route, and the reset after a booking. */
module WalkInBooking {
  import opened Wrappers
  import opened Types
  import opened Weights
  import opened Seqs
  import opened Store
  import PassengerForm
  import CreateBookingRoute

  /** `f.scheduled_date === today && f.remaining_seats > 0`. */
  predicate Offered(f: AvailableFlight, today: string) {
    f.flight.scheduled_date == today && f.remaining_seats > 0
  }

  function TodayAvailable(all: seq<AvailableFlight>, today: string): (r: seq<AvailableFlight>)
    ensures forall i :: 0 <= i < |r| ==> r[i] in all && Offered(r[i], today)
    ensures forall i :: 0 <= i < |all| && Offered(all[i], today) ==> all[i] in r
  {
    Filter(all, (f: AvailableFlight) => Offered(f, today))
  }

  /** The offered list keeps the original order: it is the flights on the
      offered prefix followed by those of the rest. */
  lemma TodayAvailableAppend(a: seq<AvailableFlight>, b: seq<AvailableFlight>, today: string)
    ensures TodayAvailable(a + b, today) == TodayAvailable(a, today) + TodayAvailable(b, today)
  {
    FilterAppend(a, b, (f: AvailableFlight) => Offered(f, today));
  }

  /** `flights.find((f) => f.id === selectedFlight)`: a flight with that id
      (the first one; flight ids are unique). */
  function FindFlight(flights: seq<AvailableFlight>, id: string): (r: Option<AvailableFlight>)
    ensures r.Some? ==> r.value in flights && r.value.flight.id == id
    ensures r.None? <==> forall i :: 0 <= i < |flights| ==> flights[i].flight.id != id
  {
    if flights == [] then None
    else if flights[0].flight.id == id then Some(flights[0])
    else FindFlight(flights[1..], id)
  }

  class WalkInForm {
    var flights: seq<AvailableFlight>
    var selectedFlight: string
    var customerName: string
    var customerEmail: string
    var customerPhone: string
    var passengerCount: int
    var passengers: seq<PassengerInput>
    var submitting: bool
    var success: bool
    var error: Option<string>
    var bookingReference: string

    /** The state `resetForm` restores (the flight list aside). */
    predicate IsInitial()
      reads this
    {
      && customerName == "" && customerEmail == "" && customerPhone == ""
      && passengerCount == 1 && passengers == [PassengerForm.EmptyPassenger]
      && selectedFlight == "" && !success && error.None?
    }

    constructor ()
      ensures IsInitial() && flights == [] && !submitting && bookingReference == ""
    {
      flights := [];
      selectedFlight := "";
      customerName, customerEmail, customerPhone := "", "", "";
      passengerCount := 1;
      passengers := [PassengerForm.EmptyPassenger];
      submitting, success := false, false;
      error := None;
      bookingReference := "";
    }

    /** `fetchTodayFlights`: `all` is the `flights` field of the answer,
        None when the answer has none or the request throws. */
    method LoadFlights(all: Option<seq<AvailableFlight>>, today: string)
      modifies this
      ensures flights == if all.Some? then TodayAvailable(all.value, today) else old(flights)
      ensures selectedFlight == old(selectedFlight) && passengers == old(passengers)
      ensures passengerCount == old(passengerCount) && success == old(success) && error == old(error)
      ensures customerName == old(customerName) && customerEmail == old(customerEmail)
      ensures customerPhone == old(customerPhone) && submitting == old(submitting)
      ensures bookingReference == old(bookingReference)
    {
      if all.Some? {
        flights := TodayAvailable(all.value, today);
      }
    }

    method HandlePassengerCountChange(count: int)
      modifies this
      ensures passengerCount == count && passengers == PassengerForm.Resize(old(passengers), count)
      ensures flights == old(flights) && selectedFlight == old(selectedFlight)
      ensures error == old(error) && success == old(success) && submitting == old(submitting)
      ensures customerName == old(customerName) && customerEmail == old(customerEmail)
      ensures customerPhone == old(customerPhone) && bookingReference == old(bookingReference)
    {
      passengerCount := count;
      passengers := PassengerForm.Resize(passengers, count);
    }

    method UpdatePassenger(index: nat, u: PassengerForm.FieldUpdate)
      requires index < |passengers|
      modifies this
      ensures passengers == PassengerForm.Updated(old(passengers), index, u)
      ensures flights == old(flights) && selectedFlight == old(selectedFlight)
      ensures passengerCount == old(passengerCount)
      ensures error == old(error) && success == old(success) && submitting == old(submitting)
      ensures customerName == old(customerName) && customerEmail == old(customerEmail)
      ensures customerPhone == old(customerPhone) && bookingReference == old(bookingReference)
    {
      passengers := PassengerForm.Updated(passengers, index, u);
    }

    /** The form fields' `onChange` handlers for the flight and contact. */
    method SetFields(flightId: string, name: string, email: string, phone: string)
      modifies this
      ensures selectedFlight == flightId && customerName == name
      ensures customerEmail == email && customerPhone == phone
      ensures flights == old(flights) && passengers == old(passengers)
      ensures passengerCount == old(passengerCount) && submitting == old(submitting)
      ensures error == old(error) && success == old(success) && bookingReference == old(bookingReference)
    {
      selectedFlight, customerName, customerEmail, customerPhone := flightId, name, email, phone;
    }

    /** The request the form posts: no booking type, and a total that is
        always a number. */
    function Request(): (req: CreateBookingRoute.CreateRequest)
      reads this
      ensures req.passengers == Some(passengers) && req.flight_id == selectedFlight
      ensures req.total_weight_kg == Kg(ParsedTotal(passengers))
    {
      CreateBookingRoute.CreateRequest(selectedFlight, customerName, customerEmail, customerPhone,
                                       Some(passengers), Kg(ParsedTotal(passengers)))
    }

    /** `handleSubmit`: post to the create route; on a created booking
        remember its reference, otherwise show the route's error (or the
        generic message when the request throws). The form is only
        rendered while no success is shown. `reply` is the route's
        response, None when the request threw. */
    method HandleSubmit(db: Database, generated: Option<string>, now: nat,
                        bookingInsertOk: bool, passengersInsertOk: bool, rollbackOk: bool,
                        reachable: bool)
      returns (ghost reply: Option<CreateBookingRoute.CreateResponse>)
      requires db.Valid() && !success
      modifies this, db
      ensures db.Valid() && !submitting
      ensures db.flights == old(db.flights) && db.holds == old(db.holds)
      ensures flights == old(flights) && passengers == old(passengers)
      ensures selectedFlight == old(selectedFlight) && passengerCount == old(passengerCount)
      ensures customerName == old(customerName) && customerEmail == old(customerEmail)
      ensures customerPhone == old(customerPhone)
      ensures reply.Some? <==> reachable
      ensures reply.None? ==> error == Some("An error occurred. Please try again.") && !success
      ensures reply.None? ==> db.bookings == old(db.bookings) && db.passengers == old(db.passengers)
      ensures reply.Some? ==>
        CreateBookingRoute.Outcome(old(db.flights), old(db.bookings), old(db.passengers), old(db.nextBookingId),
                                   old(Request()), generated, now, bookingInsertOk, passengersInsertOk,
                                   rollbackOk, reply.value, db.bookings, db.passengers)
      ensures success <==> reply.Some? && reply.value.Created?
      ensures success ==> error.None? && bookingReference == reply.value.booking_reference
      ensures reply.Some? && !reply.value.Created? ==>
        error == Some(reply.value.Error()) && bookingReference == old(bookingReference)
    {
      var req := Request();
      submitting := true;
      error := None;
      var r := CreateBookingRoute.Fetch(db, req, generated, now,
                                        bookingInsertOk, passengersInsertOk, rollbackOk, reachable);
      reply := r;
      ShowReply(r);
    }

    /** The part of `handleSubmit` after the request: the message or the
        reference it shows, and `submitting` cleared. */
    method ShowReply(r: Option<CreateBookingRoute.CreateResponse>)
      modifies this
      ensures !submitting
      ensures flights == old(flights) && passengers == old(passengers)
      ensures selectedFlight == old(selectedFlight) && passengerCount == old(passengerCount)
      ensures customerName == old(customerName) && customerEmail == old(customerEmail)
      ensures customerPhone == old(customerPhone)
      ensures r.None? ==> error == Some("An error occurred. Please try again.") && success == old(success)
      ensures r.Some? && r.value.Created? ==>
        success && error == old(error) && bookingReference == r.value.booking_reference
      ensures r.Some? && !r.value.Created? ==>
        error == Some(r.value.Error()) && success == old(success) && bookingReference == old(bookingReference)
      ensures r.None? ==> bookingReference == old(bookingReference)
    {
      if r.None? {
        error := Some("An error occurred. Please try again.");
      } else if r.value.Created? {
        success := true;
        bookingReference := r.value.booking_reference;
      } else {
        error := Some(r.value.Error());
      }
      submitting := false;
    }

    /** `resetForm`, run three seconds after a booking: the initial state,
        then a fresh load of today's flights. */
    method ResetForm(all: Option<seq<AvailableFlight>>, today: string)
      modifies this
      ensures IsInitial()
      ensures flights == if all.Some? then TodayAvailable(all.value, today) else old(flights)
      ensures submitting == old(submitting) && bookingReference == old(bookingReference)
    {
      customerName, customerEmail, customerPhone := "", "", "";
      passengerCount := 1;
      passengers := [PassengerForm.EmptyPassenger];
      selectedFlight := "";
      success := false;
      error := None;
      if all.Some? {
        flights := TodayAvailable(all.value, today);
      }
    }

    /** `disabled={submitting || !selectedFlight}`. */
    predicate SubmitDisabled()
      reads this
    {
      submitting || selectedFlight == ""
    }

    /** A count button is disabled only once a known flight is selected and
        the count exceeds its remaining seats. */
    predicate CountDisabled(count: int)
      reads this
    {
      var f := FindFlight(flights, selectedFlight);
      f.Some? && count > f.value.remaining_seats
    }
  }

  /** Walk-ins post without a booking type: a created walk-in booking is one
      new row of type `online` for the chosen flight, carrying the reference
      the form shows and the parsed total of its passengers. */
  lemma WalkInStoredOnline(flights: map<string, Flight>, bookings: seq<Booking>, passengers: seq<Passenger>,
                           nextBookingId: nat, req: CreateBookingRoute.CreateRequest,
                           generated: Option<string>, now: nat,
                           bookingInsertOk: bool, passengersInsertOk: bool, rollbackOk: bool,
                           r: CreateBookingRoute.CreateResponse, bookings': seq<Booking>, passengers': seq<Passenger>)
    requires req.passengers.Some? && req.total_weight_kg == Kg(ParsedTotal(req.passengers.value))
    requires CreateBookingRoute.Outcome(flights, bookings, passengers, nextBookingId, req, generated, now,
                                        bookingInsertOk, passengersInsertOk, rollbackOk, r, bookings', passengers')
    requires r.Created?
    ensures |bookings'| == |bookings| + 1 && bookings'[..|bookings|] == bookings
    ensures var b := bookings'[|bookings|];
      && b.booking_type == Online
      && b.flight_id == req.flight_id
      && b.booking_reference == r.booking_reference
      && b.total_weight_kg == ParsedTotal(req.passengers.value)
  {
    CreateBookingRoute.CreatedAppendsBooking(flights, bookings, passengers, nextBookingId, req, generated, now,
                                             bookingInsertOk, passengersInsertOk, rollbackOk, r, bookings', passengers');
    assert (bookings + [bookings'[|bookings|]])[..|bookings|] == bookings;
  }

  /** With no flight chosen every count is allowed, and the form cannot be
      submitted. */
  lemma NoFlightNoLimits(form: WalkInForm, count: int)
    requires form.selectedFlight == "" && forall i :: 0 <= i < |form.flights| ==> form.flights[i].flight.id != ""
    ensures !form.CountDisabled(count) && form.SubmitDisabled()
  {
  }
}
