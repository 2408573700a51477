# Helicopter-tour booking: seat holds and booking commit

A Dafny model of the booking flow of a helicopter-tour booking app, with proofs about it. The app is a Next.js application over a Supabase database. The model covers:

- **The route handlers.**
  - `POST /api/bookings/validate` (module `ValidateRoute`) checks seats, then weight.
  - `POST /api/bookings/create` (module `CreateBookingRoute`) commits a booking. It checks in order, inserts the booking and its passengers, and deletes the booking again when the passenger insert fails.
  - `POST /api/holds/create` and `POST /api/holds/release` (modules `HoldCreateRoute`, `HoldReleaseRoute`) manage seat holds. Create sweeps expired holds, gates on availability, replaces the session's hold on that flight and inserts a 15-minute hold. Release deletes holds by session, optionally only for one flight.
  - `GET /api/analytics` (module `AnalyticsRoute`) computes totals, revenue, bookings per type, a time-slot tally with its top five, and utilisation averages.
- **The three-step booking wizard** (`BookPage`). This covers the get-or-create session id, the step machine, and how hold create and release are tied to its transitions.
- **The client components.**
  - The passenger form (`PassengerForm`): list resizing, field updates, the ordered checks, and the mapping of the validate route's answer.
  - The booking summary (`BookingSummary`).
  - The coordinator's walk-in form (`WalkInBooking`).
  - The flight selector (`FlightSelector`): dates, filter, 12-hour time, badge and button.
  - The coordinator's flight card (`FlightCard`) and day dashboard (`TodaysFlights`).

Each handler is a method on `Store.Database`. This class holds:

- the flights table, as a map from flight id;
- the `bookings`, `passengers` and `flight_holds` tables, as sequences;
- id counters.

`Database.Valid()` says every stored id was issued before its counter. So a new row's id is fresh.

Some things the handlers depend on are parameters instead:

- the success of each store write;
- the result of the `get_flight_available_seats` procedure (a function of the flight id and the hold table);
- the value `generate_booking_reference` returns;
- the current time in milliseconds, the `Math.random` digits, and "today".

Components with state are classes whose methods update their fields. Their handlers call the route methods directly in place of `fetch`. A `reachable` flag stands for a request that throws; the wizard's hold requests, the summary and the walk-in form each take one.

Weights are `real`. A weight in a form or a request body is `Weight = Kg(real) | Null | NotANumber`. `Null` is JSON `null`. `NotANumber` is NaN or an absent key. The code reads weights in three different ways:

- `parseFloat(..) || 0` (`Weights.Parsed`, `ParsedTotal`) reads every non-number as 0;
- plain `+` (`Weights.Add`, `RawTotal`) reads `null` as 0 and turns the whole sum into NaN for NaN or an absent weight;
- plain `+` after `parseFloat` (`BookingSummary.TotalWeight`) turns the sum into NaN for any non-number, `null` included.

Where the description of the system and the code disagree, the model follows the code:

- The 20–200 kg passenger bounds are enforced only by the passenger form, not by either route.
- The create route never updates a flight's `current_passengers` or `current_weight_kg`.
- The create route's weight fallback at `app/api/bookings/create/route.ts:47` is modelled in its corrected form, and the rest of the model uses that form (see Findings). `CreateBookingRoute.AsWrittenAgrees` proves it equals the code as written whenever a non-zero client total is sent or every weight is a number. The booking wizard and the walk-in form always send such requests.
- The flight selector calls `onSelect(flight)` without a count. The wizard's hold request then lacks `passenger_count`, and the hold route always answers 400. So the booking wizard never actually places a hold (`BookPage.BookingPage.SelectFromFlightSelector`).

## Model

| member | source | states |
|---|---|---|
| Weights.Parsed | app/api/bookings/validate/route.ts:38-41 | a numeric weight counts as itself and a non-number as 0 |
| Weights.Add | app/api/bookings/create/route.ts:47 | JavaScript `+` on weights: NaN if either side is NaN or absent, otherwise the sum with `null` as 0, never `null` itself |
| Weights.ParsedTotalAppend | components/PassengerForm.tsx:46-48 | the parsed total of two concatenated lists is the sum of their totals |
| Weights.NonNumberAddsNothing | app/api/bookings/validate/route.ts:38-41 | inserting a passenger whose weight is `null`, NaN or absent leaves the parsed total unchanged |
| Weights.RawTotalOfNumbers | app/api/bookings/create/route.ts:47 | when every weight is a number or `null`, the plain sum equals the parsed total |
| Weights.RawTotalNaN | app/api/bookings/create/route.ts:47 | one NaN or absent weight makes the plain sum NaN |
| Text.ParseInt | components/FlightSelector.tsx:84-90 | `parseInt` is NaN exactly when the string does not start with a digit |
| Text.SplitColon | components/FlightSelector.tsx:84-90 | `split(':')` yields at least one piece and no piece contains a colon |
| Text.SplitColonPiece | components/FlightSelector.tsx:84-90 | splitting `a:b` where `a` has no colon gives `a` followed by the pieces of `b` |
| Text.Prefix | app/api/analytics/route.ts:103 | `slice(0, n)` is the first `min(n, length)` characters |
| Text.LessIrreflexive | components/FlightSelector.tsx:42-44 | the default string order of `sort()` is irreflexive |
| Text.LessTransitive | components/FlightSelector.tsx:42-44 | the default string order is transitive |
| Text.LessTotal | components/FlightSelector.tsx:42-44 | two distinct strings are always ordered one way or the other |
| Text.TrimEmpty | components/PassengerForm.tsx:64 | `trim()` gives the empty string exactly when the string is all white space |
| Text.NatToStringValue | app/api/bookings/create/route.ts:62 | the decimal text of a number reads back as that number |
| ValidateRoute.Check | app/api/bookings/validate/route.ts:14-77 | 400 iff the flight id or passenger list is missing or empty; otherwise 404 iff the flight is unknown; otherwise `passenger_limit` iff the seats overflow, whatever the weight; `weight_limit` iff the seats fit and the parsed total overflows; otherwise bookable. Each answer carries the remaining seats and weight, and bookable remainders are non-negative |
| ValidateRoute.Post | app/api/bookings/validate/route.ts:14-26 | the handler answers `Check` over the flights table, writes nothing, and answers 400 exactly for missing input |
| ValidateRoute.ExactFillIsBookable | app/api/bookings/validate/route.ts:51-77 | filling the last seat and the last kilogram exactly is bookable with zero remainders |
| ValidateRoute.SeatRefusalWins | app/api/bookings/validate/route.ts:51-69 | when both limits are broken, the seat refusal is reported |
| CreateBookingRoute.CreateResponse.Error | app/api/bookings/create/route.ts:18-110 | every refusal carries a non-empty error message |
| CreateBookingRoute.CommitWeight | app/api/bookings/create/route.ts:47 | the committed weight is the client total when that is a non-zero number, otherwise the passengers' parsed sum (corrected fallback) |
| CreateBookingRoute.CommitWeightAsWritten | app/api/bookings/create/route.ts:47 | as written, the fallback is the plain sum, which adds `null` as 0 and is NaN once a weight is NaN or absent |
| CreateBookingRoute.Reference | app/api/bookings/create/route.ts:61-62 | the reference is the generated one when non-empty, else `HT-<now>`; never empty |
| CreateBookingRoute.NewBooking | app/api/bookings/create/route.ts:65-81 | the inserted booking has the passenger count, type `online`, pending payment and status, and `qr_code = "QR-" + reference` |
| CreateBookingRoute.PassengerRows | app/api/bookings/create/route.ts:92-96 | one row per input passenger, in order, each with its name and weight and pointing at the booking |
| CreateBookingRoute.RollbackRestores | app/api/bookings/create/route.ts:102-110 | deleting the freshly inserted booking gives back exactly the earlier bookings table |
| CreateBookingRoute.LinkedAfterInsert | app/api/bookings/create/route.ts:92-100 | before the insert no row points at the new id; afterwards exactly one row per passenger does |
| CreateBookingRoute.Post | app/api/bookings/create/route.ts:18-120 | each outcome iff its condition, in order: 400 missing fields, 404 unknown flight, 400 capacity (one refusal for both limits, equality accepted, the weight being the corrected `CommitWeight`), 500 booking insert, 500 passenger insert, success. Nothing is written before the booking insert. Success appends the booking, with the corrected weight, and its rows. A failed passenger insert with a successful delete leaves the bookings table as before; a failed delete leaves a booking with no passengers. Flights and holds are untouched |
| CreateBookingRoute.CreatedAppendsBooking | app/api/bookings/create/route.ts:65-81 | a created booking is exactly one new row at the end of the table, the one `NewBooking` builds, with the reference the response carries |
| CreateBookingRoute.Fetch | components/BookingSummary.tsx:33-40 | a client's request: the route's response and its writes, or nothing written and no response when the request throws |
| CreateBookingRoute.AsWrittenAgrees | app/api/bookings/create/route.ts:47-58 | with a non-zero client total or all weights numeric, the weight as written is the corrected weight, and the capacity check as written refuses exactly what the corrected one refuses |
| CreateBookingRoute.WriteBooking | app/api/bookings/create/route.ts:83-120 | after the booking insert: either the booking and its rows are appended and linked, or the passengers table is unchanged and the booking is rolled back when the delete succeeds |
| CreateBookingRoute.NaNWeightSlipsThrough | app/api/bookings/create/route.ts:47-58 | as written, passengers weighing 150 kg plus one absent weight pass the check on a flight with 100 kg left; the corrected check refuses them |
| CreateBookingRoute.AdmittedWeightFits | app/api/bookings/create/route.ts:47-58 | with the corrected fallback, an admitted request without a client total fits both the seats and the passengers' weight |
| HoldCreateRoute.Swept | app/api/holds/create/route.ts:17 | the sweep keeps exactly the holds that expire after now |
| HoldCreateRoute.Post | app/api/holds/create/route.ts:9-72 | 400 with the hold table unchanged iff a field is missing or the count is 0. Otherwise the sweep happens first and availability is read from the swept table. 400 with only the sweep done iff availability is known and below the count; no availability row skips the gate. The pair delete's error is ignored: when it succeeds the pair's old holds go, when it fails they stay. An insert failure leaves the table after the delete. Success adds one new hold with the count and `expires_at = now + 900000` to that table, and reports 900 seconds. No other table changes |
| HoldCreateRoute.OneHoldPerPair | app/api/holds/create/route.ts:39-58 | after a successful create whose pair delete succeeded, the (flight, session) pair has exactly one hold |
| HoldCreateRoute.FailedDeleteDuplicates | app/api/holds/create/route.ts:39-58 | when the ignored delete fails, a successful create leaves a pair that had a hold with one more, so at least two |
| HoldCreateRoute.ReplaceKeepsOthers | app/api/holds/create/route.ts:39-44 | the holds of every other (flight, session) pair are unchanged, in order |
| HoldReleaseRoute.Post | app/api/holds/release/route.ts:9-37 | 400 and nothing deleted iff the session id is missing; 500 and nothing deleted iff the delete fails; otherwise exactly the matching holds are removed |
| HoldReleaseRoute.ReleaseIdempotent | app/api/holds/release/route.ts:17-37 | a second identical release leaves the table unchanged |
| HoldReleaseRoute.RemovesExactlyMatching | app/api/holds/release/route.ts:17-25 | a hold survives iff it does not match the session (and the flight, when given) |
| HoldReleaseRoute.OtherSessionsKept | app/api/holds/release/route.ts:20 | every hold of another session is kept, in order |
| HoldReleaseRoute.OtherFlightsKept | app/api/holds/release/route.ts:22-25 | with a flight id, the holds on other flights are kept, in order |
| HoldReleaseRoute.ReleaseAllClearsSession | app/api/holds/release/route.ts:17-20 | without a flight id no hold of the session remains |
| HoldReleaseRoute.NothingToRelease | app/api/holds/release/route.ts:27-37 | a release that matches nothing leaves the table as it was |
| BookPage.SessionStorage.GetSessionId | app/book/page.tsx:10-18 | returns the stored id when there is one; otherwise stores and returns `session_<now>_<random>`; never empty |
| BookPage.SessionIdStable | app/book/page.tsx:10-18 | a second call returns the id of the first, whatever clock and random values it sees |
| BookPage.BookingPage.constructor | app/book/page.tsx:21-25 | the wizard starts at step 1 with no flight, count 1, no data and no hold |
| BookPage.BookingPage.CreateHold | app/book/page.tsx:36-55 | when the request arrives, the hold table changes exactly as the hold route's outcome says for this session, flight and count; a thrown request changes no table and keeps the hold id; no other table changes; the hold id is remembered only when the route created a hold, which is for this session and flight; without a count nothing changes |
| BookPage.BookingPage.ReleaseHold | app/book/page.tsx:57-70 | only the session id is sent, so when the delete succeeds every hold of the session goes; the hold id is cleared whatever the route answers, and kept, with the table, when the request throws; no other table changes |
| BookPage.BookingPage.SelectFlight | app/book/page.tsx:140-145 | records the flight and count, requests a hold, and moves to step 2 whether or not the hold was created; the hold table follows the hold route's outcome (unchanged when the request throws), the hold id is the created hold's, and no other table changes |
| BookPage.BookingPage.SelectFromFlightSelector | components/FlightSelector.tsx:211 | selecting from the flight selector passes no count, so no hold is placed and the wizard still reaches step 2 |
| BookPage.BookingPage.BackToFlights | app/book/page.tsx:153-156 | releases the session's holds (the hold id kept and nothing deleted when the request throws), then shows step 1; flight, count, data and the other tables are kept |
| BookPage.BookingPage.SubmitPassengers | app/book/page.tsx:157-161 | keeps the data, releases the session's holds (the hold id kept and nothing deleted when the request throws) and shows the summary; no hold is requested |
| BookPage.BookingPage.BackToPassengers | app/book/page.tsx:169 | returns to step 2 and keeps the flight, count, data and hold id |
| BookPage.BookingPage.CleanUp | app/book/page.tsx:28-34 | the effect's clean-up, run on unmount and on every change of the hold id with the earlier id: it releases only when that id was set, so a release that clears the id is repeated once, which `HoldReleaseRoute.ReleaseIdempotent` shows to be harmless |
| PassengerForm.InitialPassengers | components/PassengerForm.tsx:19-22 | `n` entries, each with an empty name and weight 0 |
| PassengerForm.Resize | components/PassengerForm.tsx:29-37 | the new length is the count; entries below the old length keep their name and parsed weight; new entries are empty |
| PassengerForm.ResizeSameLength | components/PassengerForm.tsx:29-37 | resizing a numeric list to its own length changes nothing |
| PassengerForm.ResizeTwice | components/PassengerForm.tsx:29-37 | shrinking twice is shrinking once; growing back pads with empty entries and loses the dropped ones |
| PassengerForm.GrowKeepsTotal | components/PassengerForm.tsx:29-48 | adding passengers leaves the total weight unchanged |
| PassengerForm.Updated | components/PassengerForm.tsx:39-44 | exactly one field at one index changes |
| PassengerForm.ClientCheck | components/PassengerForm.tsx:50-75 | the checks and their order, first failure wins: contact fields, zero total, a blank trimmed name, a weight outside [20, 200]; no error iff all pass |
| PassengerForm.ServerError | components/PassengerForm.tsx:86-107 | no error iff the route answered bookable; `weight_limit` gives the capacity message with both figures, `passenger_limit` the seats message, the error bodies the fallback, and a thrown request the retry message |
| PassengerForm.InRangeTotal | components/PassengerForm.tsx:46-48 | weights of at least 20 kg add up to at least 20 kg per passenger |
| PassengerForm.BoundaryWeightsAccepted | components/PassengerForm.tsx:50-75 | with the contact filled in, any non-empty list of named passengers weighing from 20 to 200 kg, both bounds included, passes every client check |
| PassengerForm.SpacesAreBlank | components/PassengerForm.tsx:64 | a name of white space only counts as blank |
| PassengerForm.CountChoices | components/PassengerForm.tsx:170-175 | the enabled count buttons are exactly `n` in 1..3 with `n <= remaining_seats` |
| PassengerForm.Form.constructor | components/PassengerForm.tsx:15-22 | the count defaults to 1, the list is the initial list, and no contact data, error or validation is pending |
| PassengerForm.Form.HandlePassengerCountChange | components/PassengerForm.tsx:29-37 | sets the count, resizes the list and clears the error; weights stay numeric |
| PassengerForm.Form.UpdatePassenger | components/PassengerForm.tsx:39-44 | applies the one-field update and clears the error |
| PassengerForm.Form.SetContact | components/PassengerForm.tsx:111-117 | sets the three contact fields and nothing else |
| PassengerForm.Form.HandleSubmit | components/PassengerForm.tsx:111-129 | the validate route is asked iff the client checks pass; the error shown is the first failing check or the mapped answer; data reaches `onSubmit` iff no error |
| PassengerForm.SubmittedFits | components/PassengerForm.tsx:86-103 | data that reaches `onSubmit` has a known flight, a non-empty list, and fits its seats and weight |
| BookingSummary.TotalWeight | components/BookingSummary.tsx:22-25 | the parsed total when all weights are numeric; NaN as soon as one is not, `null` included |
| BookingSummary.FloatWeights | components/BookingSummary.tsx:22-25 | each passenger with its weight passed through `parseFloat` |
| BookingSummary.OnWire | components/BookingSummary.tsx:36-39 | the serialised total: a NaN becomes `null`, a number stays |
| BookingSummary.TotalPrice | components/BookingSummary.tsx:26 | the base price of the flight's route times the number of passengers |
| BookingSummary.SummaryPriceIsRevenue | components/BookingSummary.tsx:26 | the shown price is what the analytics route counts for the inserted booking: with its route price, that booking adds exactly `totalPrice` to the revenue and its party size to the passenger total |
| BookingSummary.RequestBody | components/BookingSummary.tsx:36-39 | the form data plus `total_weight_kg` = the summary's total |
| BookingSummary.CommittedWeightIsPassengerTotal | components/BookingSummary.tsx:36-39 | the create route, with its corrected fallback, commits the passengers' parsed total for any summary request |
| BookingSummary.SummaryAsWrittenAgrees | app/api/bookings/create/route.ts:47 | for data whose weights are numbers or `null`, line 47 as written commits the passengers' parsed total, so the correction never changes the summary's bookings |
| BookingSummary.Outcome | components/BookingSummary.tsx:44-54 | navigate to `/booking-confirmation/<reference>` iff a booking was created; otherwise show the route's error, or the generic message when the request threw |
| BookingSummary.HandleConfirmBooking | components/BookingSummary.tsx:28-55 | the tables change exactly as the create route's outcome says for the summary's request, flights and holds untouched; the page shows the outcome of that response; navigation follows a new booking whose reference is in the path and whose weight is the passengers' total; a thrown request writes nothing |
| WalkInBooking.TodayAvailable | components/coordinator/WalkInBooking.tsx:32-35 | exactly the flights of today with remaining seats |
| WalkInBooking.TodayAvailableAppend | components/coordinator/WalkInBooking.tsx:32-35 | the filter keeps the original order |
| WalkInBooking.FindFlight | components/coordinator/WalkInBooking.tsx:117 | a flight with the id if any; none iff no flight has it |
| WalkInBooking.WalkInForm.constructor | components/coordinator/WalkInBooking.tsx:7-19 | the initial form state |
| WalkInBooking.WalkInForm.LoadFlights | components/coordinator/WalkInBooking.tsx:25-41 | the list becomes today's offered flights when the answer has flights; nothing else changes |
| WalkInBooking.WalkInForm.HandlePassengerCountChange | components/coordinator/WalkInBooking.tsx:43-50 | sets the count and resizes as the passenger form does |
| WalkInBooking.WalkInForm.UpdatePassenger | components/coordinator/WalkInBooking.tsx:52-60 | applies the one-field update and changes nothing else |
| WalkInBooking.WalkInForm.SetFields | components/coordinator/WalkInBooking.tsx:156-285 | sets the flight and contact fields and nothing else |
| WalkInBooking.WalkInForm.Request | components/coordinator/WalkInBooking.tsx:68-84 | the request carries the passengers, the flight, and the parsed total as a number |
| WalkInBooking.WalkInForm.HandleSubmit | components/coordinator/WalkInBooking.tsx:62-103 | the tables change exactly as the create route's outcome says for the form's request, flights and holds untouched; success iff a booking was created, showing its reference; otherwise the route's error, or the generic message when the request threw, which writes nothing; the inputs are kept and submitting ends false |
| WalkInBooking.WalkInForm.ShowReply | components/coordinator/WalkInBooking.tsx:86-102 | the reference on success, the route's error or the generic message otherwise, and submitting cleared; the inputs are kept |
| WalkInBooking.WalkInStoredOnline | components/coordinator/WalkInBooking.tsx:68-84 | a created walk-in booking is one new row of type `online` for the chosen flight, with the shown reference and the parsed total |
| WalkInBooking.WalkInForm.ResetForm | components/coordinator/WalkInBooking.tsx:105-115 | back to one empty passenger, count 1, no contact data, no flight, no success and no error, then a reload of today's flights |
| WalkInBooking.WalkInForm.SubmitDisabled | components/coordinator/WalkInBooking.tsx:303 | the submit button is disabled while submitting or while no flight is chosen |
| WalkInBooking.WalkInForm.CountDisabled | components/coordinator/WalkInBooking.tsx:191-194 | a count button is disabled only when a listed flight is chosen and the count exceeds its remaining seats |
| WalkInBooking.NoFlightNoLimits | components/coordinator/WalkInBooking.tsx:191-194 | with no flight chosen, no count is disabled and submit is disabled |
| FlightSelector.Insert | components/FlightSelector.tsx:42-44 | inserting a date yields the old dates plus it |
| FlightSelector.InsertSorted | components/FlightSelector.tsx:42-44 | insertion keeps the dates strictly ascending |
| FlightSelector.SortedDistinct | components/FlightSelector.tsx:42-44 | the result holds exactly the input dates |
| FlightSelector.SortedDistinctSorted | components/FlightSelector.tsx:42-44 | the result is strictly ascending, so no date repeats |
| FlightSelector.Dates | components/FlightSelector.tsx:42-44 | the i-th date is the i-th flight's date |
| FlightSelector.UniqueDates | components/FlightSelector.tsx:42-44 | exactly the set of flight dates, strictly ascending |
| FlightSelector.FilteredFlights | components/FlightSelector.tsx:46-48 | all flights for no date, otherwise exactly the flights on that date |
| FlightSelector.LoadedSelectedDate | components/FlightSelector.tsx:31-33 | the first flight's date when the list is non-empty |
| FlightSelector.FirstFlightShown | components/FlightSelector.tsx:31-48 | after loading, the first flight is in the filtered list |
| FlightSelector.ClockHour | components/FlightSelector.tsx:84-90 | `hour % 12 \|\| 12` lies in 1..12 |
| FlightSelector.SplitTime | components/FlightSelector.tsx:84-90 | `HH:MM` and `HH:MM:SS` split into the hour and the minutes |
| FlightSelector.FormatTime | components/FlightSelector.tsx:84-90 | `formatTime`: the hour piece through `parseInt`, `hour % 12 \|\| 12`, the minutes piece verbatim (`undefined` when missing) and AM or PM |
| FlightSelector.FormatTimeOfDigits | components/FlightSelector.tsx:84-90 | a digit hour formats as its 12-hour value, colon, minutes verbatim, and AM or PM by `hour >= 12` |
| FlightSelector.TwelveText | components/FlightSelector.tsx:84-90 | 12 prints as "12" |
| FlightSelector.FormatTimeCases | components/FlightSelector.tsx:84-90 | hour 0 gives `12:mm AM`, 12 gives `12:mm PM`, 13–23 give `(h-12):mm PM`, 1–11 give `h:mm AM` |
| FlightSelector.FormatTimeNotANumber | components/FlightSelector.tsx:84-90 | every hour that does not start with a digit (the empty one included) prints as 12 AM, with the minutes verbatim |
| FlightSelector.BadgeLabel | components/FlightSelector.tsx:59-64 | every availability level has a non-empty badge |
| FlightSelector.BadgeLabelsDistinct | components/FlightSelector.tsx:59-64 | different levels show different badges |
| FlightSelector.SelectDisabled | components/FlightSelector.tsx:212-215 | the Select button is disabled when the level is `full` or no seat remains |
| FlightSelector.ButtonLabel | components/FlightSelector.tsx:212-223 | "Fully Booked" iff no seat remains, and then the button is disabled |
| FlightCard.StatusColor | components/coordinator/FlightCard.tsx:59-64 | red iff full; gray iff not full and empty; yellow iff low and not empty; green otherwise |
| FlightCard.PassengerIcons | components/coordinator/FlightCard.tsx:98-107 | one icon per seat, icon `i` filled iff `i < current_passengers` |
| FlightCard.FilledIcons | components/coordinator/FlightCard.tsx:98-107 | the filled icons number the passenger count clamped to 0..seats |
| FlightCard.CheckInBookings | components/coordinator/FlightCard.tsx:212-219 | exactly the confirmed bookings show Check In |
| FlightCard.ShouldFetchBookings | components/coordinator/FlightCard.tsx:16-20 | the effect fetches when the card is expanded and no booking is loaded |
| FlightCard.FetchOnlyOnce | components/coordinator/FlightCard.tsx:16-20 | no fetch when collapsed or when bookings are already loaded |
| TodaysFlights.TodayFlights | components/coordinator/TodaysFlights.tsx:56-58 | exactly the filtered flights that are on today |
| TodaysFlights.ComputeStats | components/coordinator/TodaysFlights.tsx:60-65 | the total is the number of today's flights and every other counter is at most the total |
| TodaysFlights.ConfirmedPlusEmpty | components/coordinator/TodaysFlights.tsx:60-63 | with non-negative counts, booked plus empty flights equals the total |
| TodaysFlights.OtherDayShowsZero | components/coordinator/TodaysFlights.tsx:52-58 | a selected day other than today shows all counters 0 |
| TodaysFlights.LoadedShowsToday | components/coordinator/TodaysFlights.tsx:23-58 | after a load, today's flights are exactly the day's filtered flights |
| TodaysFlights.DateButtons | components/coordinator/TodaysFlights.tsx:148 | the first seven of the sorted distinct dates, each a flight's date |
| TodaysFlights.Dashboard.constructor | components/coordinator/TodaysFlights.tsx:7-12 | no flights, no date, refresh key 0 and no error |
| TodaysFlights.Dashboard.HandleRefresh | components/coordinator/TodaysFlights.tsx:44-46 | the refresh key goes up by exactly one; list, date and error are kept |
| TodaysFlights.Dashboard.LoadFlights | components/coordinator/TodaysFlights.tsx:23-42 | a good answer replaces the list and selects today, leaving the error as it was; an error answer sets its message and a thrown request `Failed to load flights`, keeping list and date |
| TodaysFlights.Dashboard.RetryKeepsError | components/coordinator/TodaysFlights.tsx:23-46 | as written, a Retry whose reload succeeds still shows the same error view |
| TodaysFlights.Dashboard.LoadFlightsCorrected | components/coordinator/TodaysFlights.tsx:23-42 | the intended load: as `LoadFlights`, but a good answer also clears the error |
| TodaysFlights.Dashboard.RetryRecovers | components/coordinator/TodaysFlights.tsx:23-46 | with the correction, a Retry whose reload succeeds shows the list again |
| TodaysFlights.Dashboard.SelectDate | components/coordinator/TodaysFlights.tsx:151 | the clicked date becomes selected; list, key and error are kept |
| AnalyticsRoute.Round | app/api/analytics/route.ts:119 | `Math.round` is within half of its argument |
| AnalyticsRoute.TotalPassengers | app/api/analytics/route.ts:61-62 | the sum of the bookings' passenger counts |
| AnalyticsRoute.Revenue | app/api/analytics/route.ts:65-69 | the sum over bookings of the route price (0 when missing) times the passenger count |
| AnalyticsRoute.TotalsAppend | app/api/analytics/route.ts:59-69 | passengers and revenue add up over concatenated lists |
| AnalyticsRoute.RevenueBounds | app/api/analytics/route.ts:65-69 | non-negative prices and counts give non-negative revenue |
| AnalyticsRoute.CountType | app/api/analytics/route.ts:94-98 | the number of bookings of one type |
| AnalyticsRoute.ByTypeSum | app/api/analytics/route.ts:94-98 | online + phone + walk-in equals the number of bookings |
| AnalyticsRoute.TimeSlot | app/api/analytics/route.ts:103 | a slot has at most five characters |
| AnalyticsRoute.SlotsInOrderKeys | app/api/analytics/route.ts:101-107 | the keys are distinct non-empty slots held by some booking, and every non-empty slot is a key |
| AnalyticsRoute.TallyTimeSlots | app/api/analytics/route.ts:101-107 | the loop's map is the tally: exactly the keys, in insertion order, each mapped to its number of bookings |
| AnalyticsRoute.CountsSum | app/api/analytics/route.ts:101-107 | the counts sum to the bookings with a slot, at most the number of bookings |
| AnalyticsRoute.Entries | app/api/analytics/route.ts:109-110 | one entry per key, in key order |
| AnalyticsRoute.InsertByCountPermutes | app/api/analytics/route.ts:111 | an insertion step adds exactly the entry |
| AnalyticsRoute.InsertByCountSorted | app/api/analytics/route.ts:111 | an insertion step keeps counts non-increasing |
| AnalyticsRoute.SortByCountCorrect | app/api/analytics/route.ts:111 | the sort is a permutation with counts non-increasing |
| AnalyticsRoute.SortedEntries | app/api/analytics/route.ts:111 | the sorted tally keeps its length, is busiest first, and holds only tally entries |
| AnalyticsRoute.PopularTimeSlots | app/api/analytics/route.ts:109-112 | at most five entries, non-increasing, each from the tally |
| AnalyticsRoute.TopFiveAreBusiest | app/api/analytics/route.ts:109-112 | no slot left out of a full top five is busier than one in it |
| AnalyticsRoute.Averages | app/api/analytics/route.ts:72-91 | both averages are 0 when no flight has bookings |
| AnalyticsRoute.NoBookedFlightsZeroAverages | app/api/analytics/route.ts:72-91 | with no flight carrying passengers, both averages are 0 |
| AnalyticsRoute.Get | app/api/analytics/route.ts:35-125 | 500 iff a query failed; otherwise the figures over the non-cancelled bookings: totals, rounded revenue, each per-type count, and the popular slots, which are the top five of the sorted tally: busiest first, with their true counts |

## Left out

- CreateBookingRoute.Post: checks and stores the corrected weight `CommitWeight` rather than line 47's plain sum. The two agree unless no non-zero client total is sent and some weight is NaN or absent (`CreateBookingRoute.AsWrittenAgrees`). On those requests the code as written skips the weight limit and passes a NaN weight to the insert, which JSON sends as `null`; the model does not do this (see Findings).
- BookingSummary.HandleConfirmBooking: inherits the corrected weight from `CreateBookingRoute.Post`. The passenger form only hands over numbers, and for such data the two agree (`BookingSummary.SummaryAsWrittenAgrees`). They differ only for form data with an absent weight, which the wizard never builds.
- BookingSummary.CommittedWeightIsPassengerTotal: holds for the corrected fallback. As written it also holds whenever no weight is absent (`BookingSummary.SummaryAsWrittenAgrees`).
- WalkInBooking.WalkInForm.HandleSubmit: inherits the corrected weight from `CreateBookingRoute.Post`. The walk-in total is always a number and the form's handlers only store numbers, so the two agree.
- HoldCreateRoute.Post: a failed pair delete is modelled as deleting nothing. A partial delete is not modelled. The error of the `cleanup_expired_holds` call is ignored as well, and the model always sweeps: a failed sweep, which would leave expired holds in the table and in the availability read, is not modelled.

- HTTP, JSON parsing and `NextResponse` are left out: handler outcomes are result datatypes with a `Status()` code.
- The store procedures `cleanup_expired_holds`, `get_flight_available_seats` and `generate_booking_reference` are SQL that is not part of this model. The sweep is taken to delete holds with `expires_at <= now`. Availability is an arbitrary function parameter. The reference is an optional parameter.
- The `available_flights` view and its `availability_level` thresholds are not part of this model; levels and remaining seats are inputs.
- Row ids are counters rather than database-generated uuids.
- `current_passengers` and `current_weight_kg` are never updated by the modelled code, and the model adds no such update.
- Concurrent requests are left out; each request runs alone against the store.
- `Date.now`, `Math.random` and "today" are parameters. ISO and locale date strings and the analytics date window are opaque, and rows arrive already restricted to the window.
- React effects, intervals, timers, `typeof window` and the three-second delay before `resetForm` are left out; handlers are called directly.
- A request that the server processed but whose answer was lost is not modelled; `reachable` is false only for requests that never arrived.
- Error messages that print numbers (`toFixed(1)`) are modelled by the numbers they would print, not by their text.
- A non-numeric string weight is folded into `NotANumber`, like NaN and an absent key. `JSON.stringify` writes NaN as `null` and drops an absent key. Only the summary's computed total is serialised explicitly (`BookingSummary.OnWire`). Passenger weights go as they are, because the forms only hold numbers.
- `Text.IsSpace` covers ASCII white space, no-break space and the byte-order mark, not every Unicode space that `trim()` strips.
- Text.Less: orders strings by code point; JavaScript compares UTF-16 code units, and the two orders differ only for characters above U+FFFF.
- `Text.ParseInt` covers only strings that start with their digits; signs and leading white space are left out.
- AnalyticsRoute.TallyTimeSlots: entries follow insertion order; JavaScript puts integer-like keys first, which a `HH:MM` slot never is.
- AnalyticsRoute.Averages: only the zero case is stated; the floating-point averages themselves are not specified further.
- The utilisation ratio of a flight with zero capacity is taken as 0, whereas JavaScript gives Infinity or NaN.
- PassengerForm.Updated: requires an index within the list, which every caller passes; an out-of-range index in JavaScript would append a partial entry.
- Weights, prices and capacities are exact reals, not IEEE-754 doubles. The inclusive limits therefore hold only in exact arithmetic: `ValidateRoute.ExactFillIsBookable`, the create route's `currentWeight + total > maxWeight` and the 20 and 200 kg bounds of `PassengerForm.ClientCheck` and `PassengerForm.BoundaryWeightsAccepted`. In JavaScript a sum of decimal weights can land one unit in the last place past an exact fill, and that request is refused.
- The browser's own form checks are not modelled: `required`, `type="email"`, `type="tel"`, and `min="20"`, `max="200"`, `step="0.1"` on the weight inputs of the passenger and walk-in forms. The browser can stop a submit before the handler runs; the model calls `HandleSubmit` directly, so it covers only the checks the handlers do themselves.
- Rendering, CSS classes, progress bars and the display-only pages and components are left out.

## Findings

| source | as written | input that shows it | evidently intended | confidence | as-written member | corrected member |
|---|---|---|---|---|---|---|
| app/api/bookings/create/route.ts:47 | with no client total, the fallback adds the raw weights with `+`; one absent weight makes the total NaN, and `currentWeight + NaN > maxWeight` is false, so the weight limit is skipped | flight with 4 seats and 100 kg, none taken; passengers 150 kg and a missing weight; no `total_weight_kg` | add weights as the validate route does (`parseFloat(..) \|\| 0`), so the 150 kg request is refused | not executed | CreateBookingRoute.NaNWeightSlipsThrough | CreateBookingRoute.AdmittedWeightFits |
| components/coordinator/TodaysFlights.tsx:29-38 | an error answer or a thrown request sets `error`, and nothing ever clears it; the error view replaces the list while `error` is set, so Retry reloads the flights but keeps showing the error | one failed load, then Retry with the flights route answering normally | a good answer clears the error (`setError(null)`), so Retry shows the list again | not executed | TodaysFlights.Dashboard.RetryKeepsError | TodaysFlights.Dashboard.RetryRecovers |
