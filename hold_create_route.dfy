/** POST /api/holds/create: sweep expired holds, check the flight's actual
    availability, replace the session's hold on that flight, and insert a new
    hold that expires fifteen minutes from now. */
module HoldCreateRoute {
  import opened Wrappers
  import opened Types
  import opened Seqs
  import opened Store

  /** `15 * 60 * 1000` milliseconds, reported as `15 * 60` seconds. */
  const HoldTtlMs: int := 15 * 60 * 1000
  const HoldTtlSeconds: int := 15 * 60

  datatype HoldResponse =
    | MissingFields
    | NotEnoughSeats(actual_available: int)
    | HoldInsertFailed
    | HoldCreated(hold: FlightHold, expires_in_seconds: int)
  {
    function Status(): int {
      match this
      case MissingFields => 400
      case NotEnoughSeats(_) => 400
      case HoldInsertFailed => 500
      case HoldCreated(_, _) => 200
    }
  }

  /** `!flight_id || !passenger_count || !session_id`. */
  predicate MissingInput(flightId: string, passengerCount: Option<int>, sessionId: string) {
    flightId == "" || passengerCount.None? || passengerCount.value == 0 || sessionId == ""
  }

  /** The effect of the `cleanup_expired_holds` procedure: holds whose expiry
      is not after `now` are deleted. */
  function Swept(holds: seq<FlightHold>, now: int): (r: seq<FlightHold>)
    ensures forall i :: 0 <= i < |r| ==> r[i].expires_at > now && r[i] in holds
    ensures forall i :: 0 <= i < |holds| && holds[i].expires_at > now ==> holds[i] in r
  {
    Filter(holds, (h: FlightHold) => h.expires_at > now)
  }

  predicate SamePair(h: FlightHold, flightId: string, sessionId: string) {
    h.flight_id == flightId && h.session_id == sessionId
  }

  /** `flight_holds.delete().eq('flight_id', f).eq('session_id', s)`. */
  function WithoutPair(holds: seq<FlightHold>, flightId: string, sessionId: string): seq<FlightHold> {
    Filter(holds, (h: FlightHold) => !SamePair(h, flightId, sessionId))
  }

  /** How many holds the table holds for one (flight, session) pair. */
  function PairCount(holds: seq<FlightHold>, flightId: string, sessionId: string): nat {
    Count(holds, (h: FlightHold) => SamePair(h, flightId, sessionId))
  }

  /** What one create request does to the hold table `holds`, whose next
      id is `nextHoldId`: the response and the table it leaves. The sweep
      comes first and availability is read from the swept table; no
      availability row skips the gate (fail-open). The error of the pair
      delete is ignored, so when that delete fails the insert still runs. */
  ghost predicate Outcome(holds: seq<FlightHold>, nextHoldId: nat, flightId: string,
                          passengerCount: Option<int>, sessionId: string, now: int,
                          availability: (string, seq<FlightHold>) -> Option<int>, deleteOk: bool,
                          insertOk: bool, r: HoldResponse, holds': seq<FlightHold>)
  {
    && (r.MissingFields? <==> MissingInput(flightId, passengerCount, sessionId))
    && (r.MissingFields? ==> holds' == holds)
    && (!r.MissingFields? ==>
          var swept := Swept(holds, now);
          var available := availability(flightId, swept);
          var replaced := if deleteOk then WithoutPair(swept, flightId, sessionId) else swept;
          && (r.NotEnoughSeats? <==> available.Some? && available.value < passengerCount.value)
          && (r.NotEnoughSeats? ==> r.actual_available == available.value && holds' == swept)
          && (r.HoldInsertFailed? <==> !r.NotEnoughSeats? && !insertOk)
          && (r.HoldInsertFailed? ==> holds' == replaced)
          && (r.HoldCreated? <==> !r.NotEnoughSeats? && insertOk)
          && (r.HoldCreated? ==>
                && r.hold == FlightHold(nextHoldId, flightId, sessionId, passengerCount.value, now + HoldTtlMs)
                && r.expires_in_seconds == 900
                && holds' == replaced + [r.hold]))
  }

  /** The handler. `availability` stands for the `get_flight_available_seats`
      procedure: given the flight and the hold table it reads, the
      `actual_available` of its first row, or None when it returns no row.
      `deleteOk` and `insertOk` are the outcomes of the two writes. */
  method Post(db: Database, flightId: string, passengerCount: Option<int>, sessionId: string,
              now: int, availability: (string, seq<FlightHold>) -> Option<int>,
              deleteOk: bool, insertOk: bool)
    returns (r: HoldResponse)
    requires db.Valid()
    modifies db
    ensures db.Valid()
    ensures db.flights == old(db.flights) && db.bookings == old(db.bookings)
    ensures db.passengers == old(db.passengers) && db.nextBookingId == old(db.nextBookingId)
    ensures Outcome(old(db.holds), old(db.nextHoldId), flightId, passengerCount, sessionId, now,
                    availability, deleteOk, insertOk, r, db.holds)
  {
    if flightId == "" || passengerCount.None? || passengerCount.value == 0 || sessionId == "" {
      return MissingFields;
    }
    var swept := Swept(db.holds, now);
    db.holds := swept;
    var available := availability(flightId, swept);
    if available.Some? {
      if available.value < passengerCount.value {
        return NotEnoughSeats(available.value);
      }
    }
    var replaced := swept;
    if deleteOk {
      replaced := WithoutPair(swept, flightId, sessionId);
      db.holds := replaced;
    }
    var expiresAt := now + HoldTtlMs;
    if !insertOk {
      return HoldInsertFailed;
    }
    var hold := FlightHold(db.nextHoldId, flightId, sessionId, passengerCount.value, expiresAt);
    db.holds := replaced + [hold];
    db.nextHoldId := db.nextHoldId + 1;
    r := HoldCreated(hold, HoldTtlSeconds);
  }

  /** After a successful create whose pair delete succeeded, the pair has
      exactly one hold: the new one. */
  lemma OneHoldPerPair(holds: seq<FlightHold>, hold: FlightHold)
    ensures PairCount(WithoutPair(holds, hold.flight_id, hold.session_id) + [hold],
                      hold.flight_id, hold.session_id) == 1
  {
    var f, s := hold.flight_id, hold.session_id;
    var same := (h: FlightHold) => SamePair(h, f, s);
    var rest := WithoutPair(holds, f, s);
    FilterAppend(rest, [hold], same);
    FilterKeepsNone(rest, same);
    FilterSingleton(hold, same);
  }

  /** The replace touches only the pair's own holds: for any other
      (flight, session) pair, the holds of that pair after a successful create
      are exactly those it had before, in order. */
  lemma ReplaceKeepsOthers(holds: seq<FlightHold>, hold: FlightHold, flightId: string, sessionId: string)
    requires flightId != hold.flight_id || sessionId != hold.session_id
    ensures var other := (h: FlightHold) => SamePair(h, flightId, sessionId);
      Filter(WithoutPair(holds, hold.flight_id, hold.session_id) + [hold], other) == Filter(holds, other)
  {
    var mine := (h: FlightHold) => !SamePair(h, hold.flight_id, hold.session_id);
    var other := (h: FlightHold) => SamePair(h, flightId, sessionId);
    var rest := WithoutPair(holds, hold.flight_id, hold.session_id);
    FilterAppend(rest, [hold], other);
    FilterSingleton(hold, other);
    FilterFilter(holds, mine, other, other);
  }

  /** When the ignored pair delete fails, a successful create adds a second
      hold for a pair that already had one. */
  lemma {:induction false} FailedDeleteDuplicates(holds: seq<FlightHold>, hold: FlightHold)
    requires PairCount(holds, hold.flight_id, hold.session_id) >= 1
    ensures PairCount(holds + [hold], hold.flight_id, hold.session_id)
            == PairCount(holds, hold.flight_id, hold.session_id) + 1 >= 2
  {
    var same := (h: FlightHold) => SamePair(h, hold.flight_id, hold.session_id);
    FilterAppend(holds, [hold], same);
    FilterSingleton(hold, same);
  }
}
