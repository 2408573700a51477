/** The passenger step of the wizard (components/PassengerForm.tsx): the
    passenger list and its resizing, the ordered client checks, and the call
    to the validate route that decides whether the data is handed on. */
module PassengerForm {
  import opened Wrappers
  import opened Types
  import opened Weights
  import opened Text
  import opened Seqs
  import Store
  import ValidateRoute

  /** `{ name: '', weight_kg: 0 }`. */
  const EmptyPassenger: PassengerInput := PassengerInput("", Kg(0.0))

  /** `Array.from({ length: n }, ...)`: a negative length gives no entries. */
  function Length(n: int): nat {
    if n < 0 then 0 else n
  }

  function InitialPassengers(n: int): (r: seq<PassengerInput>)
    ensures |r| == Length(n)
    ensures forall i :: 0 <= i < |r| ==> r[i] == EmptyPassenger
  {
    seq(Length(n), _ => EmptyPassenger)
  }

  /** The entry kept at a retained index: `name || ''`, `weight_kg || 0`. */
  function Kept(p: PassengerInput): PassengerInput {
    PassengerInput(p.name, Kg(Parsed(p.weight_kg)))
  }

  /** `handlePassengerCountChange`: the new list of `count` entries. */
  function Resize(ps: seq<PassengerInput>, count: int): (r: seq<PassengerInput>)
    ensures |r| == Length(count)
    ensures forall i :: 0 <= i < |r| && i < |ps| ==>
      r[i].name == ps[i].name && r[i].weight_kg == Kg(Parsed(ps[i].weight_kg))
    ensures forall i :: |ps| <= i < |r| ==> r[i] == EmptyPassenger
  {
    seq(Length(count), i => if 0 <= i < |ps| then Kept(ps[i]) else EmptyPassenger)
  }

  /** Resizing a list of numeric weights to its own length changes nothing. */
  lemma ResizeSameLength(ps: seq<PassengerInput>)
    requires AllNumeric(ps)
    ensures Resize(ps, |ps|) == ps
  {
    var r := Resize(ps, |ps|);
    forall i | 0 <= i < |ps| ensures r[i] == ps[i] {
      assert ps[i].weight_kg.Kg?;
    }
  }

  /** Shrinking in two steps is shrinking once; growing again pads with
      empty entries instead of bringing back the dropped ones. */
  lemma ResizeTwice(ps: seq<PassengerInput>, a: nat, b: nat)
    ensures b <= a ==> Resize(Resize(ps, a), b) == Resize(ps, b)
    ensures a < b && a < |ps| ==> Resize(Resize(ps, a), b)[a] == EmptyPassenger
  {
    if b <= a {
      var l, r := Resize(Resize(ps, a), b), Resize(ps, b);
      forall i | 0 <= i < b ensures l[i] == r[i] {
        if i < |ps| {
          assert Parsed(Kg(Parsed(ps[i].weight_kg))) == Parsed(ps[i].weight_kg);
        }
      }
    }
  }

  /** Adding passengers does not change the total weight. */
  lemma {:induction false} GrowKeepsTotal(ps: seq<PassengerInput>, count: int)
    requires count >= |ps|
    ensures ParsedTotal(Resize(ps, count)) == ParsedTotal(ps)
  {
    var r := Resize(ps, count);
    KeptTotal(ps);
    assert r == seq(|ps|, i requires 0 <= i < |ps| => Kept(ps[i])) + seq(count - |ps|, _ => EmptyPassenger);
    ParsedTotalAppend(seq(|ps|, i requires 0 <= i < |ps| => Kept(ps[i])), seq(count - |ps|, _ => EmptyPassenger));
    EmptyTotal(count - |ps|);
  }

  lemma {:induction false} KeptTotal(ps: seq<PassengerInput>)
    ensures ParsedTotal(seq(|ps|, i requires 0 <= i < |ps| => Kept(ps[i]))) == ParsedTotal(ps)
  {
    if ps != [] {
      var k := seq(|ps|, i requires 0 <= i < |ps| => Kept(ps[i]));
      KeptTotal(ps[1..]);
      assert k[1..] == seq(|ps[1..]|, i requires 0 <= i < |ps[1..]| => Kept(ps[1..][i]));
    }
  }

  lemma {:induction false} EmptyTotal(n: nat)
    ensures ParsedTotal(seq(n, _ => EmptyPassenger)) == 0.0
  {
    if n > 0 {
      EmptyTotal(n - 1);
      assert seq(n, _ => EmptyPassenger)[1..] == seq(n - 1, _ => EmptyPassenger);
    }
  }

  /** The two fields `updatePassenger` can set; the weight input stores
      `parseFloat(value) || 0`, always a number. */
  datatype FieldUpdate = SetName(name: string) | SetWeight(kg: real)

  /** `updatePassenger(index, field, value)`. */
  function Updated(ps: seq<PassengerInput>, index: nat, u: FieldUpdate): (r: seq<PassengerInput>)
    requires index < |ps|
    ensures |r| == |ps|
    ensures forall j :: 0 <= j < |ps| && j != index ==> r[j] == ps[j]
    ensures u.SetName? ==> r[index] == PassengerInput(u.name, ps[index].weight_kg)
    ensures u.SetWeight? ==> r[index] == PassengerInput(ps[index].name, Kg(u.kg))
  {
    match u
    case SetName(n) => ps[index := ps[index].(name := n)]
    case SetWeight(w) => ps[index := ps[index].(weight_kg := Kg(w))]
  }

  /** `!p.name.trim()`. */
  predicate BlankName(p: PassengerInput) {
    Trim(p.name) == ""
  }

  /** `p.weight_kg < 20 || p.weight_kg > 200`: `null` compares as 0, so it is
      below the bound; either comparison with NaN or `undefined` is false. */
  predicate OutOfRange(w: Weight) {
    w.Null? || (w.Kg? && (w.kg < 20.0 || w.kg > 200.0))
  }

  predicate SomeBlankName(ps: seq<PassengerInput>) {
    exists i :: 0 <= i < |ps| && BlankName(ps[i])
  }

  predicate SomeOutOfRange(ps: seq<PassengerInput>) {
    exists i :: 0 <= i < |ps| && OutOfRange(ps[i].weight_kg)
  }

  /** The messages the form can show, in the order the checks run. */
  datatype FormError =
    | ContactMissing
    | WeightsMissing
    | NamesMissing
    | WeightOutOfRange
    | CapacityExceeded(totalWeight: real, remainingCapacity: real)
    | SeatsUnavailable
    | CannotAccommodate
    | ValidationFailed
  {
    /** The fixed message text; the capacity message also prints both
        figures with one decimal, which is not modelled. */
    function Message(): string {
      match this
      case ContactMissing => "Please fill in all contact information"
      case WeightsMissing => "Please enter weights for all passengers"
      case NamesMissing => "Please enter names for all passengers"
      case WeightOutOfRange => "Passenger weight must be between 20kg and 200kg"
      case CapacityExceeded(_, _) => "Total weight exceeds available capacity"
      case SeatsUnavailable => "Not enough seats available for this booking"
      case CannotAccommodate => "This flight cannot accommodate your booking"
      case ValidationFailed => "Failed to validate booking. Please try again."
    }
  }

  /** The client-side part of `handleSubmit` and `validateWeights`: the
      first failing check, or None when all pass. */
  function ClientCheck(name: string, email: string, phone: string, ps: seq<PassengerInput>): (r: Option<FormError>)
    ensures r == Some(ContactMissing) <==> name == "" || email == "" || phone == ""
    ensures r == Some(WeightsMissing) <==>
      name != "" && email != "" && phone != "" && ParsedTotal(ps) == 0.0
    ensures r == Some(NamesMissing) <==>
      name != "" && email != "" && phone != "" && ParsedTotal(ps) != 0.0 && SomeBlankName(ps)
    ensures r == Some(WeightOutOfRange) <==>
      name != "" && email != "" && phone != "" && ParsedTotal(ps) != 0.0 && !SomeBlankName(ps)
      && SomeOutOfRange(ps)
    ensures r.None? <==>
      name != "" && email != "" && phone != "" && ParsedTotal(ps) != 0.0 && !SomeBlankName(ps)
      && !SomeOutOfRange(ps)
  {
    if name == "" || email == "" || phone == "" then Some(ContactMissing)
    else if ParsedTotal(ps) == 0.0 then Some(WeightsMissing)
    else if SomeBlankName(ps) then Some(NamesMissing)
    else if SomeOutOfRange(ps) then Some(WeightOutOfRange)
    else None
  }

  /** How the answer of the validate route is shown. `reply` is None when
      the request itself threw; `totalWeight` is the form's own total. */
  function ServerError(reply: Option<ValidateRoute.CheckResult>, totalWeight: real): (r: Option<FormError>)
    ensures r.None? <==> reply.Some? && reply.value.Bookable?
    ensures reply.Some? && reply.value.WeightLimit? ==>
      r == Some(CapacityExceeded(totalWeight, reply.value.remainingCapacity))
    ensures reply.Some? && reply.value.PassengerLimit? ==> r == Some(SeatsUnavailable)
    ensures reply.Some? && (reply.value.MissingFields? || reply.value.FlightNotFound?) ==>
      r == Some(CannotAccommodate)
    ensures reply.None? ==> r == Some(ValidationFailed)
  {
    match reply
    case None => Some(ValidationFailed)
    case Some(result) =>
      match result
      case Bookable(_, _) => None
      case WeightLimit(remaining, _) => Some(CapacityExceeded(totalWeight, remaining))
      case PassengerLimit(_) => Some(SeatsUnavailable)
      // the error bodies carry neither `canBook`, `reason` nor `message`
      case _ => Some(CannotAccommodate)
  }

  /** A weight inside both bounds, bounds included. */
  predicate InRange(w: Weight) {
    w.Kg? && 20.0 <= w.kg <= 200.0
  }

  /** Weights of at least 20 kg add up to at least 20 kg per passenger. */
  lemma {:induction false} InRangeTotal(ps: seq<PassengerInput>)
    requires forall i :: 0 <= i < |ps| ==> InRange(ps[i].weight_kg)
    ensures ParsedTotal(ps) >= 20.0 * |ps| as real
  {
    if ps != [] {
      InRangeTotal(ps[1..]);
    }
  }

  /** Both weight bounds are inclusive: with the contact filled in, any
      non-empty list of named passengers weighing from 20 kg to 200 kg
      passes every client check. */
  lemma BoundaryWeightsAccepted(name: string, email: string, phone: string, ps: seq<PassengerInput>)
    requires name != "" && email != "" && phone != "" && ps != []
    requires forall i :: 0 <= i < |ps| ==> !BlankName(ps[i]) && InRange(ps[i].weight_kg)
    ensures ClientCheck(name, email, phone, ps).None?
  {
    InRangeTotal(ps);
  }

  /** A name of white space only is as blank as an empty one. */
  lemma SpacesAreBlank(p: PassengerInput)
    requires AllSpace(p.name)
    ensures BlankName(p)
  {
    TrimEmpty(p.name);
  }

  /** The count buttons 1 to 3; button `n` is enabled iff `n <= remaining`. */
  function CountChoices(remaining: int): (r: seq<int>)
    ensures forall n :: n in r <==> 1 <= n <= 3 && n <= remaining
  {
    Filter([1, 2, 3], (n: int) => n <= remaining)
  }

  class Form {
    const flight: AvailableFlight
    var passengerCount: int
    var passengers: seq<PassengerInput>
    var customerName: string
    var customerEmail: string
    var customerPhone: string
    var validationError: Option<FormError>
    var validating: bool

    /** `initialPassengerCount` defaults to 1 when the prop is undefined. */
    constructor (flight: AvailableFlight, initialPassengerCount: Option<int>)
      ensures this.flight == flight
      ensures passengerCount == initialPassengerCount.GetOr(1)
      ensures passengers == InitialPassengers(initialPassengerCount.GetOr(1))
      ensures customerName == "" && customerEmail == "" && customerPhone == ""
      ensures validationError == None && !validating
      ensures AllNumeric(passengers)
    {
      this.flight := flight;
      passengerCount := initialPassengerCount.GetOr(1);
      passengers := InitialPassengers(initialPassengerCount.GetOr(1));
      customerName, customerEmail, customerPhone := "", "", "";
      validationError := None;
      validating := false;
    }

    method HandlePassengerCountChange(count: int)
      modifies this
      ensures passengerCount == count && passengers == Resize(old(passengers), count)
      ensures validationError == None && validating == old(validating)
      ensures AllNumeric(passengers)
      ensures customerName == old(customerName) && customerEmail == old(customerEmail)
      ensures customerPhone == old(customerPhone)
    {
      passengerCount := count;
      passengers := Resize(passengers, count);
      validationError := None;
    }

    method UpdatePassenger(index: nat, u: FieldUpdate)
      requires index < |passengers|
      modifies this
      ensures passengers == Updated(old(passengers), index, u) && validationError == None
      ensures AllNumeric(old(passengers)) ==> AllNumeric(passengers)
      ensures passengerCount == old(passengerCount) && validating == old(validating)
      ensures customerName == old(customerName) && customerEmail == old(customerEmail)
      ensures customerPhone == old(customerPhone)
    {
      passengers := Updated(passengers, index, u);
      validationError := None;
    }

    /** The three contact inputs' `onChange` handlers. */
    method SetContact(name: string, email: string, phone: string)
      modifies this
      ensures customerName == name && customerEmail == email && customerPhone == phone
      ensures passengers == old(passengers) && passengerCount == old(passengerCount)
      ensures validationError == old(validationError) && validating == old(validating)
    {
      customerName, customerEmail, customerPhone := name, email, phone;
    }

    /** `handleSubmit`: the client checks in order, then the validate route
        (read from `db`, or a thrown request when `!reachable`), and the
        form data handed to `onSubmit` only when every check passed.
        `serverCalled` reports whether the validate route was asked. */
    method HandleSubmit(db: Store.Database, reachable: bool)
      returns (submitted: Option<BookingFormData>, serverCalled: bool)
      modifies this
      ensures passengers == old(passengers) && passengerCount == old(passengerCount)
      ensures customerName == old(customerName) && customerEmail == old(customerEmail)
      ensures customerPhone == old(customerPhone)
      ensures var client := ClientCheck(customerName, customerEmail, customerPhone, passengers);
        && (serverCalled <==> client.None? && reachable)
        && (client.Some? ==> validationError == client && submitted.None?)
        && (client == Some(ContactMissing) ==> validating == old(validating))
        && (client != Some(ContactMissing) ==> !validating)
        && (client.None? ==>
              var reply := if reachable
                then Some(ValidateRoute.Check(db.flights, flight.flight.id, Some(passengers)))
                else None;
              var err := ServerError(reply, ParsedTotal(passengers));
              validationError == err
              && (submitted.Some? <==> err.None?)
              && (submitted.Some? ==> submitted.value == BookingFormData(
                    flight.flight.id, customerName, customerEmail, customerPhone, passengers)))
    {
      submitted, serverCalled := None, false;
      if customerName == "" || customerEmail == "" || customerPhone == "" {
        validationError := Some(ContactMissing);
        return;
      }
      validating := true;
      validationError := None;
      var totalWeight := ParsedTotal(passengers);
      if totalWeight == 0.0 {
        validationError := Some(WeightsMissing);
        validating := false;
        return;
      }
      if SomeBlankName(passengers) {
        validationError := Some(NamesMissing);
        validating := false;
        return;
      }
      if SomeOutOfRange(passengers) {
        validationError := Some(WeightOutOfRange);
        validating := false;
        return;
      }
      var reply: Option<ValidateRoute.CheckResult> := None;
      if reachable {
        var result := ValidateRoute.Post(db, flight.flight.id, Some(passengers));
        reply := Some(result);
        serverCalled := true;
      }
      validationError := ServerError(reply, totalWeight);
      validating := false;
      if validationError.None? {
        submitted := Some(BookingFormData(flight.flight.id, customerName, customerEmail,
                                          customerPhone, passengers));
      }
    }
  }

  /** A submission that reaches `onSubmit` is one the validate route would
      book: seats and weight both fit the flight's committed totals. */
  lemma SubmittedFits(flights: map<string, Flight>, flightId: string, ps: seq<PassengerInput>)
    requires ServerError(Some(ValidateRoute.Check(flights, flightId, Some(ps))), ParsedTotal(ps)).None?
    ensures flightId in flights && ps != []
    ensures flights[flightId].current_passengers + |ps| <= flights[flightId].max_passengers
    ensures flights[flightId].current_weight_kg + ParsedTotal(ps) <= flights[flightId].max_weight_kg
  {
  }
}
