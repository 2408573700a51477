/** The three-step booking wizard of app/book/page.tsx: select a flight
    (which requests a hold), enter passengers, confirm. The hold routes are
    called directly on the store in place of the `fetch` round trips. */
module BookPage {
  import opened Wrappers
  import opened Types
  import opened Text
  import opened Store
  import HoldCreateRoute
  import HoldReleaseRoute

  const SessionKey: string := "booking_session_id"

  /** The browser's per-tab key/value store. */
  class SessionStorage {
    var items: map<string, string>

    constructor ()
      ensures items == map[]
    {
      items := map[];
    }

    /** `getSessionId`: return the stored id, or store and return a fresh
        `session_<now>_<random>` when none (or an empty one) is stored.
        `random` stands for the base-36 digits drawn from `Math.random`. */
    method GetSessionId(now: nat, random: string) returns (id: string)
      modifies this
      ensures id != ""
      ensures items == old(items)[SessionKey := id]
      ensures SessionKey in old(items) && old(items)[SessionKey] != "" ==> id == old(items)[SessionKey]
      ensures !(SessionKey in old(items) && old(items)[SessionKey] != "") ==>
        id == "session_" + NatToString(now) + "_" + random
    {
      if SessionKey in items && items[SessionKey] != "" {
        id := items[SessionKey];
      } else {
        id := "session_" + NatToString(now) + "_" + random;
        items := items[SessionKey := id];
      }
    }
  }

  /** Get-or-create: once the first call has stored an id, a later call
      returns the same id, whatever clock and random values it sees. */
  method SessionIdStable(storage: SessionStorage, now1: nat, random1: string, now2: nat, random2: string)
    returns (first: string, second: string)
    modifies storage
    ensures first == second && storage.items == old(storage.items)[SessionKey := first]
  {
    first := storage.GetSessionId(now1, random1);
    second := storage.GetSessionId(now2, random2);
  }

  class BookingPage {
    var step: int
    var selectedFlight: Option<AvailableFlight>
    /** The second argument of `onSelect`, absent when the caller passes only the flight. */
    var passengerCount: Option<int>
    var passengerData: Option<BookingFormData>
    var holdId: Option<nat>
    const db: Database
    const storage: SessionStorage

    ghost predicate Valid()
      reads this, db
    {
      db.Valid()
    }

    constructor (db: Database, storage: SessionStorage)
      requires db.Valid()
      ensures Valid() && this.db == db && this.storage == storage
      ensures step == 1 && selectedFlight == None && passengerCount == Some(1)
      ensures passengerData == None && holdId == None
    {
      this.db := db;
      this.storage := storage;
      step := 1;
      selectedFlight := None;
      passengerCount := Some(1);
      passengerData := None;
      holdId := None;
    }

    /** The component each step renders (the `{step === k && ...}` guards). */
    predicate ShowsSelector() reads this { step == 1 }
    predicate ShowsPassengerForm() reads this { step == 2 && selectedFlight.Some? }
    predicate ShowsSummary() reads this {
      step == 3 && selectedFlight.Some? && passengerData.Some?
    }

    /** The session id held in storage after any handler has run. */
    ghost function SessionId(): string
      reads this, storage
    {
      if SessionKey in storage.items then storage.items[SessionKey] else ""
    }

    /** `createHold`: post the hold request; remember the hold id only when
        the route answered with a created hold. `reply` is the route's
        response, None when the request throws (`reachable` false), which
        the handler swallows. */
    method CreateHold(flightId: string, count: Option<int>, now: nat, random: string,
                      availability: (string, seq<FlightHold>) -> Option<int>,
                      pairDeleteOk: bool, insertOk: bool, reachable: bool)
      returns (reply: Option<HoldCreateRoute.HoldResponse>)
      requires Valid()
      modifies this, db, storage
      ensures Valid() && step == old(step)
      ensures selectedFlight == old(selectedFlight) && passengerCount == old(passengerCount)
      ensures passengerData == old(passengerData)
      ensures db.flights == old(db.flights) && db.bookings == old(db.bookings)
      ensures db.passengers == old(db.passengers)
      ensures reply.Some? <==> reachable
      ensures reply.None? ==> db.holds == old(db.holds)
      ensures reply.Some? ==>
        HoldCreateRoute.Outcome(old(db.holds), old(db.nextHoldId), flightId, count, SessionId(), now,
                                availability, pairDeleteOk, insertOk, reply.value, db.holds)
      ensures holdId == if reply.Some? && reply.value.HoldCreated? then Some(reply.value.hold.id) else old(holdId)
      ensures reply.Some? && reply.value.HoldCreated? ==>
        && reply.value.hold.session_id == SessionId() && reply.value.hold.flight_id == flightId
        && |db.holds| > 0 && db.holds[|db.holds| - 1] == reply.value.hold
      ensures count.None? ==> db.holds == old(db.holds) && holdId == old(holdId)
    {
      var sid := storage.GetSessionId(now, random);
      if !reachable {
        return None;
      }
      var r := HoldCreateRoute.Post(db, flightId, count, sid, now, availability, pairDeleteOk, insertOk);
      if r.HoldCreated? {
        holdId := Some(r.hold.id);
      }
      reply := Some(r);
    }

    /** `releaseHold`: post only the session id, so every hold of the session
        goes, then forget the hold id whatever the route answered. A request
        that throws (`reachable` false) keeps the hold id. */
    method ReleaseHold(now: nat, random: string, deleteOk: bool, reachable: bool)
      requires Valid()
      modifies this, db, storage
      ensures Valid() && step == old(step)
      ensures holdId == if reachable then None else old(holdId)
      ensures selectedFlight == old(selectedFlight) && passengerCount == old(passengerCount)
      ensures passengerData == old(passengerData)
      ensures db.flights == old(db.flights) && db.bookings == old(db.bookings)
      ensures db.passengers == old(db.passengers)
      ensures db.holds == if reachable && deleteOk then HoldReleaseRoute.Remaining(old(db.holds), SessionId(), "")
                          else old(db.holds)
      ensures reachable && deleteOk ==> forall i :: 0 <= i < |db.holds| ==> db.holds[i].session_id != SessionId()
    {
      var sid := storage.GetSessionId(now, random);
      if reachable {
        var r := HoldReleaseRoute.Post(db, sid, "", deleteOk);
        holdId := None;
      }
    }

    /** `onSelect(flight, count)`: record the choice, request a hold, and
        move to step 2 whether or not the hold was created. `reply` is the
        hold route's response, None when the request threw. */
    method SelectFlight(flight: AvailableFlight, count: Option<int>, now: nat, random: string,
                        availability: (string, seq<FlightHold>) -> Option<int>,
                        pairDeleteOk: bool, insertOk: bool, reachable: bool)
      returns (ghost reply: Option<HoldCreateRoute.HoldResponse>)
      requires Valid() && ShowsSelector()
      modifies this, db, storage
      ensures Valid() && ShowsPassengerForm()
      ensures selectedFlight == Some(flight) && passengerCount == count
      ensures passengerData == old(passengerData)
      ensures db.flights == old(db.flights) && db.bookings == old(db.bookings)
      ensures db.passengers == old(db.passengers)
      ensures reply.Some? <==> reachable
      ensures reply.None? ==> db.holds == old(db.holds)
      ensures reply.Some? ==>
        HoldCreateRoute.Outcome(old(db.holds), old(db.nextHoldId), flight.flight.id, count, SessionId(), now,
                                availability, pairDeleteOk, insertOk, reply.value, db.holds)
      ensures holdId == if reply.Some? && reply.value.HoldCreated? then Some(reply.value.hold.id) else old(holdId)
      ensures holdId != old(holdId) ==>
        holdId.Some? && |db.holds| > 0 && db.holds[|db.holds| - 1].id == holdId.value
      ensures count.None? ==> holdId == old(holdId) && db.holds == old(db.holds)
    {
      selectedFlight := Some(flight);
      passengerCount := count;
      var r := CreateHold(flight.flight.id, count, now, random, availability, pairDeleteOk, insertOk, reachable);
      reply := r;
      step := 2;
    }

    /** The flight selector calls `onSelect(flight)` with no count, so the
        hold request lacks `passenger_count`: the route answers 400, no
        hold is ever placed, and the wizard still moves on to step 2. */
    method SelectFromFlightSelector(flight: AvailableFlight, now: nat, random: string,
                                    availability: (string, seq<FlightHold>) -> Option<int>,
                                    pairDeleteOk: bool, insertOk: bool, reachable: bool)
      requires Valid() && ShowsSelector()
      modifies this, db, storage
      ensures Valid() && ShowsPassengerForm() && selectedFlight == Some(flight)
      ensures passengerCount == None && holdId == old(holdId) && db.holds == old(db.holds)
    {
      var _ := SelectFlight(flight, None, now, random, availability, pairDeleteOk, insertOk, reachable);
    }

    /** `onBack` of the passenger form: release, then step 1. */
    method BackToFlights(now: nat, random: string, deleteOk: bool, reachable: bool)
      requires Valid() && ShowsPassengerForm()
      modifies this, db, storage
      ensures Valid() && ShowsSelector()
      ensures holdId == if reachable then None else old(holdId)
      ensures selectedFlight == old(selectedFlight) && passengerData == old(passengerData)
      ensures passengerCount == old(passengerCount)
      ensures db.flights == old(db.flights) && db.bookings == old(db.bookings)
      ensures db.passengers == old(db.passengers)
      ensures db.holds == if reachable && deleteOk then HoldReleaseRoute.Remaining(old(db.holds), SessionId(), "")
                          else old(db.holds)
    {
      ReleaseHold(now, random, deleteOk, reachable);
      step := 1;
    }

    /** `onSubmit` of the passenger form: keep the data, release, then
        step 3; no hold is requested again before confirming. */
    method SubmitPassengers(data: BookingFormData, now: nat, random: string, deleteOk: bool, reachable: bool)
      requires Valid() && ShowsPassengerForm()
      modifies this, db, storage
      ensures Valid() && ShowsSummary()
      ensures holdId == if reachable then None else old(holdId)
      ensures passengerData == Some(data) && selectedFlight == old(selectedFlight)
      ensures passengerCount == old(passengerCount)
      ensures db.flights == old(db.flights) && db.bookings == old(db.bookings)
      ensures db.passengers == old(db.passengers)
      ensures db.holds == if reachable && deleteOk then HoldReleaseRoute.Remaining(old(db.holds), SessionId(), "")
                          else old(db.holds)
      ensures |db.holds| <= |old(db.holds)|
    {
      passengerData := Some(data);
      ReleaseHold(now, random, deleteOk, reachable);
      step := 3;
    }

    /** `onBack` of the summary: return to step 2 and touch nothing else. */
    method BackToPassengers()
      requires ShowsSummary()
      modifies this
      ensures ShowsPassengerForm() && holdId == old(holdId)
      ensures selectedFlight == old(selectedFlight) && passengerData == old(passengerData)
      ensures passengerCount == old(passengerCount)
    {
      step := 2;
    }

    /** The clean-up of the effect on `[holdId]`. React runs it on unmount
        and also each time `holdId` changes, with the `holdId` of the render
        before (on unmount, the current one). So a release that clears the hold id is followed by a second,
        identical release, which `HoldReleaseRoute.ReleaseIdempotent` shows
        changes nothing. `previous` is that earlier hold id. */
    method CleanUp(previous: Option<nat>, now: nat, random: string, deleteOk: bool, reachable: bool)
      requires Valid()
      modifies this, db, storage
      ensures Valid() && step == old(step)
      ensures selectedFlight == old(selectedFlight) && passengerData == old(passengerData)
      ensures passengerCount == old(passengerCount)
      ensures db.flights == old(db.flights) && db.bookings == old(db.bookings)
      ensures db.passengers == old(db.passengers)
      ensures previous.None? ==> db.holds == old(db.holds) && holdId == old(holdId)
      ensures previous.Some? ==> holdId == if reachable then None else old(holdId)
      ensures db.holds == if previous.Some? && reachable && deleteOk
                          then HoldReleaseRoute.Remaining(old(db.holds), SessionId(), "")
                          else old(db.holds)
    {
      if previous.Some? {
        ReleaseHold(now, random, deleteOk, reachable);
      }
    }
  }
}
