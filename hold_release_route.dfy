/** POST /api/holds/release: delete the holds of a session, or only its
    holds on one flight when a flight id is given. */
module HoldReleaseRoute {
  import opened Types
  import opened Seqs
  import opened Store

  datatype ReleaseResponse = SessionRequired | ReleaseFailed | Released
  {
    function Status(): int {
      match this
      case SessionRequired => 400
      case ReleaseFailed => 500
      case Released => 200
    }
  }

  /** Whether the delete query matches a hold: `.eq('session_id', s)`, with
      `.eq('flight_id', f)` added only when `f` is non-empty. */
  predicate Matches(h: FlightHold, sessionId: string, flightId: string) {
    h.session_id == sessionId && (flightId == "" || h.flight_id == flightId)
  }

  /** The hold table after the delete. */
  function Remaining(holds: seq<FlightHold>, sessionId: string, flightId: string): seq<FlightHold> {
    Filter(holds, (h: FlightHold) => !Matches(h, sessionId, flightId))
  }

  method Post(db: Database, sessionId: string, flightId: string, deleteOk: bool)
    returns (r: ReleaseResponse)
    requires db.Valid()
    modifies db
    ensures db.Valid()
    ensures db.flights == old(db.flights) && db.bookings == old(db.bookings)
    ensures db.passengers == old(db.passengers)
    ensures db.nextBookingId == old(db.nextBookingId) && db.nextHoldId == old(db.nextHoldId)
    ensures r.SessionRequired? <==> sessionId == ""
    ensures r.ReleaseFailed? <==> sessionId != "" && !deleteOk
    ensures r.Released? <==> sessionId != "" && deleteOk
    ensures db.holds == if r.Released? then Remaining(old(db.holds), sessionId, flightId) else old(db.holds)
  {
    if sessionId == "" {
      return SessionRequired;
    }
    if !deleteOk {
      return ReleaseFailed;
    }
    db.holds := Remaining(db.holds, sessionId, flightId);
    r := Released;
  }

  /** A second release with the same arguments changes nothing. */
  lemma ReleaseIdempotent(holds: seq<FlightHold>, sessionId: string, flightId: string)
    ensures Remaining(Remaining(holds, sessionId, flightId), sessionId, flightId)
            == Remaining(holds, sessionId, flightId)
  {
    FilterIdempotent(holds, (h: FlightHold) => !Matches(h, sessionId, flightId));
  }

  /** Exactly the matching holds go: a hold survives iff it does not match. */
  lemma RemovesExactlyMatching(holds: seq<FlightHold>, sessionId: string, flightId: string, i: nat)
    requires i < |holds|
    ensures holds[i] in Remaining(holds, sessionId, flightId) <==> !Matches(holds[i], sessionId, flightId)
    ensures forall j :: 0 <= j < |Remaining(holds, sessionId, flightId)| ==>
      !Matches(Remaining(holds, sessionId, flightId)[j], sessionId, flightId)
  {
  }

  /** The holds of every other session are kept, all of them and in order. */
  lemma OtherSessionsKept(holds: seq<FlightHold>, sessionId: string, flightId: string, other: string)
    requires other != sessionId
    ensures var theirs := (h: FlightHold) => h.session_id == other;
      Filter(Remaining(holds, sessionId, flightId), theirs) == Filter(holds, theirs)
  {
    var keep := (h: FlightHold) => !Matches(h, sessionId, flightId);
    var theirs := (h: FlightHold) => h.session_id == other;
    FilterFilter(holds, keep, theirs, theirs);
  }

  /** With a flight id, the session's holds on other flights are kept too. */
  lemma OtherFlightsKept(holds: seq<FlightHold>, sessionId: string, flightId: string, otherFlight: string)
    requires flightId != "" && otherFlight != flightId
    ensures var theirs := (h: FlightHold) => h.flight_id == otherFlight;
      Filter(Remaining(holds, sessionId, flightId), theirs) == Filter(holds, theirs)
  {
    var keep := (h: FlightHold) => !Matches(h, sessionId, flightId);
    var theirs := (h: FlightHold) => h.flight_id == otherFlight;
    FilterFilter(holds, keep, theirs, theirs);
  }

  /** Without a flight id, no hold of the session is left. */
  lemma ReleaseAllClearsSession(holds: seq<FlightHold>, sessionId: string)
    ensures Count(Remaining(holds, sessionId, ""), (h: FlightHold) => h.session_id == sessionId) == 0
  {
    var rest := Remaining(holds, sessionId, "");
    FilterKeepsNone(rest, (h: FlightHold) => h.session_id == sessionId);
  }

  /** A release that matches nothing still succeeds and leaves the table as
      it was. */
  lemma NothingToRelease(holds: seq<FlightHold>, sessionId: string, flightId: string)
    requires forall i :: 0 <= i < |holds| ==> !Matches(holds[i], sessionId, flightId)
    ensures Remaining(holds, sessionId, flightId) == holds
  {
    FilterKeepsAll(holds, (h: FlightHold) => !Matches(h, sessionId, flightId));
  }
}
