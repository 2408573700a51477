/** The records of the booking database and of the booking form
    (lib/types.ts). Weights are kilograms as reals; timestamps are
    milliseconds; booking and hold ids are assigned by the store. */
module Types {
  import opened Wrappers

  datatype FlightStatus = Scheduled | Confirmed | Completed | Cancelled
  datatype BookingType = Online | Phone | Walkin
  datatype PaymentStatus = Pending | Confirmed | Refunded
  datatype BookingStatus = Pending | Confirmed | CheckedIn | Completed | Cancelled
  /** `availability_level`: 'high', 'low', 'full' or 'none'. */
  datatype AvailabilityLevel = High | Low | Full | Unavailable

  /** A weight as it sits in a form or arrives in a request body: a number;
      JSON `null`, which `+` and `<` read as 0 but `parseFloat` reads as NaN;
      or NotANumber, standing for NaN itself or for an absent key
      (`undefined`), either of which turns every sum into NaN. */
  datatype Weight = Kg(kg: real) | Null | NotANumber

  /** One scheduled departure with its committed totals. */
  datatype Flight = Flight(
    id: string,
    route_id: string,
    scheduled_date: string,
    scheduled_time: string,
    max_passengers: int,
    max_weight_kg: real,
    current_passengers: int,
    current_weight_kg: real,
    status: FlightStatus)

  /** A flight as the `available_flights` view returns it: the flight plus its
      route price and the derived availability figures. */
  datatype AvailableFlight = AvailableFlight(
    flight: Flight,
    route_name: string,
    base_price: real,
    remaining_seats: int,
    held_seats: int,
    actual_available_seats: int,
    remaining_weight_kg: real,
    availability_level: AvailabilityLevel)

  datatype Booking = Booking(
    id: nat,
    flight_id: string,
    booking_reference: string,
    customer_name: string,
    customer_email: string,
    customer_phone: string,
    passenger_count: int,
    total_weight_kg: real,
    booking_type: BookingType,
    payment_status: PaymentStatus,
    status: BookingStatus,
    qr_code: Option<string>,
    notes: Option<string>)

  /** A passenger row; `weight_kg` is stored as the request carried it. */
  datatype Passenger = Passenger(
    booking_id: nat,
    name: string,
    weight_kg: Weight,
    seat_number: Option<int>)

  /** A provisional seat claim of one browsing session on one flight. */
  datatype FlightHold = FlightHold(
    id: nat,
    flight_id: string,
    session_id: string,
    passenger_count: int,
    expires_at: int)

  datatype PassengerInput = PassengerInput(name: string, weight_kg: Weight)

  datatype BookingFormData = BookingFormData(
    flight_id: string,
    customer_name: string,
    customer_email: string,
    customer_phone: string,
    passengers: seq<PassengerInput>)
}
