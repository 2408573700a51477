/** The confirmation step (components/BookingSummary.tsx): the displayed
    totals, the create request it sends, and what the page does with the
    answer. */
module BookingSummary {
  import opened Wrappers
  import opened Types
  import opened Weights
  import opened Store
  import CreateBookingRoute
  import AnalyticsRoute

  /** `parseFloat(p.weight_kg)`: a number stays; `null`, NaN and an absent
      weight all parse as NaN. */
  function ParseFloat(w: Weight): Weight {
    if w.Kg? then w else NotANumber
  }

  /** Each passenger with its weight passed through `parseFloat`. */
  function FloatWeights(ps: seq<PassengerInput>): (r: seq<PassengerInput>)
    ensures |r| == |ps|
    ensures forall i :: 0 <= i < |r| ==> r[i] == PassengerInput(ps[i].name, ParseFloat(ps[i].weight_kg))
  {
    seq(|ps|, i requires 0 <= i < |ps| => PassengerInput(ps[i].name, ParseFloat(ps[i].weight_kg)))
  }

  /** `reduce((sum, p) => sum + parseFloat(p.weight_kg), 0)`: plain `+` after
      `parseFloat`, so one weight that is not a number, `null` included,
      makes the total NaN. */
  function TotalWeight(data: BookingFormData): (w: Weight)
    ensures AllNumeric(data.passengers) ==> w == Kg(ParsedTotal(data.passengers))
    ensures (exists i :: 0 <= i < |data.passengers| && !data.passengers[i].weight_kg.Kg?) ==>
      w.NotANumber?
  {
    var floats := FloatWeights(data.passengers);
    if AllNumeric(data.passengers) then
      assert floats == data.passengers;
      RawTotalOfNumbers(data.passengers);
      RawTotal(floats)
    else
      var i :| 0 <= i < |data.passengers| && !data.passengers[i].weight_kg.Kg?;
      RawTotalNaN(floats, i);
      RawTotal(floats)
  }

  /** `JSON.stringify` writes a NaN total as `null`. The total is computed,
      so NotANumber here is NaN, never an absent value. */
  function OnWire(w: Weight): (r: Weight)
    ensures !r.NotANumber?
    ensures w.Kg? ==> r == w
  {
    if w.NotANumber? then Null else w
  }

  /** `flight.base_price * passengerData.passengers.length`. */
  function TotalPrice(flight: AvailableFlight, data: BookingFormData): real {
    flight.base_price * |data.passengers| as real
  }

  /** The price the summary shows is what the analytics route later counts
      for the booking the create route inserts: once that booking joins the
      window's bookings, with its flight's route price, the revenue grows by
      exactly `totalPrice` and the passenger total by the party's size. */
  lemma SummaryPriceIsRevenue(flight: AvailableFlight, data: BookingFormData, id: nat, reference: string,
                              weight: real, time: Option<string>, window: seq<AnalyticsRoute.AnalyticsBooking>)
    ensures var b := CreateBookingRoute.NewBooking(id, RequestBody(data), reference, weight);
      var row := AnalyticsRoute.AnalyticsBooking(b.passenger_count, b.booking_type, b.status,
                                                 Some(flight.base_price), time);
      && AnalyticsRoute.Revenue(window + [row]) == AnalyticsRoute.Revenue(window) + TotalPrice(flight, data)
      && AnalyticsRoute.TotalPassengers(window + [row]) == AnalyticsRoute.TotalPassengers(window) + |data.passengers|
  {
    var b := CreateBookingRoute.NewBooking(id, RequestBody(data), reference, weight);
    var row := AnalyticsRoute.AnalyticsBooking(b.passenger_count, b.booking_type, b.status,
                                               Some(flight.base_price), time);
    AnalyticsRoute.TotalsAppend(window, [row]);
    assert [row][1..] == [];
  }

  /** `{ ...passengerData, total_weight_kg: totalWeight }`; a NaN total is
      serialised as `null`, which the route's `||` skips. The passengers go
      as they are: the form only ever holds numbers. */
  function RequestBody(data: BookingFormData): (req: CreateBookingRoute.CreateRequest)
    ensures req.flight_id == data.flight_id && req.customer_name == data.customer_name
    ensures req.customer_email == data.customer_email && req.customer_phone == data.customer_phone
    ensures req.passengers == Some(data.passengers)
    ensures req.total_weight_kg == OnWire(TotalWeight(data))
  {
    CreateBookingRoute.CreateRequest(data.flight_id, data.customer_name, data.customer_email,
                                     data.customer_phone, Some(data.passengers), OnWire(TotalWeight(data)))
  }

  /** Whatever total the summary sends, the route commits the weight the
      passengers add up to: the client total and the server's own sum agree
      (for a weight left out of the data, with the corrected fallback). */
  lemma CommittedWeightIsPassengerTotal(data: BookingFormData)
    ensures CreateBookingRoute.CommitWeight(RequestBody(data)) == ParsedTotal(data.passengers)
  {
    var req := RequestBody(data);
    if !AllNumeric(data.passengers) {
      assert !CreateBookingRoute.ClientTotalUsed(req);
    }
  }

  /** Data whose weights are numbers or `null`, which is all the passenger
      form hands over, commits the same weight under line 47 as written: the
      correction never matters for the summary's requests. */
  lemma SummaryAsWrittenAgrees(data: BookingFormData)
    requires Summable(data.passengers)
    ensures CreateBookingRoute.CommitWeightAsWritten(RequestBody(data)) == Kg(ParsedTotal(data.passengers))
  {
    if !CreateBookingRoute.ClientTotalUsed(RequestBody(data)) {
      RawTotalOfNumbers(data.passengers);
    }
  }

  /** What the page does after the request. */
  datatype SummaryOutcome = Navigate(path: string) | ShowError(message: string)

  /** `response.ok && result.booking` leads to the confirmation page; any
      other answer shows its `error` (`'Failed to create booking'` when it
      has none); a request that throws shows the generic message. */
  function Outcome(reply: Option<CreateBookingRoute.CreateResponse>): (o: SummaryOutcome)
    ensures o.Navigate? <==> reply.Some? && reply.value.Created?
    ensures o.Navigate? ==> o.path == "/booking-confirmation/" + reply.value.booking_reference
    ensures reply.Some? && !reply.value.Created? ==> o == ShowError(reply.value.Error())
    ensures reply.None? ==> o == ShowError("An error occurred. Please try again.")
  {
    match reply
    case None => ShowError("An error occurred. Please try again.")
    case Some(r) =>
      if r.Created? then Navigate("/booking-confirmation/" + r.booking_reference)
      else ShowError(r.Error())
  }

  /** `handleConfirmBooking` against the store; `reachable` is false when
      the request throws before reaching the route. `reply` is the route's
      response, None when the request threw. */
  method HandleConfirmBooking(db: Database, data: BookingFormData, generated: Option<string>, now: nat,
                              bookingInsertOk: bool, passengersInsertOk: bool, rollbackOk: bool,
                              reachable: bool)
    returns (o: SummaryOutcome, ghost reply: Option<CreateBookingRoute.CreateResponse>)
    requires db.Valid()
    modifies db
    ensures db.Valid()
    ensures db.flights == old(db.flights) && db.holds == old(db.holds)
    ensures reply.Some? <==> reachable
    ensures o == Outcome(reply)
    ensures reply.None? ==> db.bookings == old(db.bookings) && db.passengers == old(db.passengers)
    ensures reply.Some? ==>
      CreateBookingRoute.Outcome(old(db.flights), old(db.bookings), old(db.passengers), old(db.nextBookingId),
                                 RequestBody(data), generated, now, bookingInsertOk, passengersInsertOk,
                                 rollbackOk, reply.value, db.bookings, db.passengers)
    ensures o.Navigate? ==>
      && |db.bookings| == |old(db.bookings)| + 1
      && o.path == "/booking-confirmation/" + db.bookings[|db.bookings| - 1].booking_reference
      && db.bookings[|db.bookings| - 1].total_weight_kg == ParsedTotal(data.passengers)
  {
    if !reachable {
      return Outcome(None), None;
    }
    CommittedWeightIsPassengerTotal(data);
    var r := CreateBookingRoute.Post(db, RequestBody(data), generated, now,
                                     bookingInsertOk, passengersInsertOk, rollbackOk);
    o, reply := Outcome(Some(r)), Some(r);
  }
}
