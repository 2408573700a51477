/** GET /api/analytics: the coordinator's figures over the flights and the
    non-cancelled bookings of the chosen date window: totals, revenue,
    bookings per type, utilisation and the five busiest departure times. */
module AnalyticsRoute {
  import opened Wrappers
  import opened Types
  import opened Text
  import opened Seqs

  /** A booking row joined with its flight's time and its route's price. */
  datatype AnalyticsBooking = AnalyticsBooking(
    passenger_count: int,
    booking_type: BookingType,
    status: BookingStatus,
    base_price: Option<real>,
    scheduled_time: Option<string>)

  function TotalPassengers(bs: seq<AnalyticsBooking>): int {
    if bs == [] then 0 else bs[0].passenger_count + TotalPassengers(bs[1..])
  }

  /** `b.flights?.routes?.base_price || 0`. */
  function Price(b: AnalyticsBooking): real {
    if b.base_price.Some? then b.base_price.value else 0.0
  }

  function Revenue(bs: seq<AnalyticsBooking>): real {
    if bs == [] then 0.0 else Price(bs[0]) * bs[0].passenger_count as real + Revenue(bs[1..])
  }

  /** `Math.round`: halves round up. */
  function Round(x: real): (n: int)
    ensures x - 0.5 < n as real <= x + 0.5
  {
    (x + 0.5).Floor
  }

  lemma {:induction false} TotalsAppend(a: seq<AnalyticsBooking>, b: seq<AnalyticsBooking>)
    ensures TotalPassengers(a + b) == TotalPassengers(a) + TotalPassengers(b)
    ensures Revenue(a + b) == Revenue(a) + Revenue(b)
  {
    if a == [] {
      assert a + b == b;
    } else {
      assert (a + b)[1..] == a[1..] + b;
      TotalsAppend(a[1..], b);
    }
  }

  /** Bookings whose route has no price add passengers but no revenue, and
      with every price known and every count non-negative revenue is
      non-negative. */
  lemma {:induction false} RevenueBounds(bs: seq<AnalyticsBooking>)
    requires forall i :: 0 <= i < |bs| ==> bs[i].passenger_count >= 0 && Price(bs[i]) >= 0.0
    ensures Revenue(bs) >= 0.0
  {
    if bs != [] {
      RevenueBounds(bs[1..]);
    }
  }

  function CountType(bs: seq<AnalyticsBooking>, t: BookingType): nat {
    Count(bs, (b: AnalyticsBooking) => b.booking_type == t)
  }

  /** `bookingsByType`: every booking is of exactly one of the three types,
      so the three counts add up to the number of bookings. */
  lemma {:induction false} ByTypeSum(bs: seq<AnalyticsBooking>)
    ensures CountType(bs, Online) + CountType(bs, Phone) + CountType(bs, Walkin) == |bs|
  {
    if bs != [] {
      ByTypeSum(bs[1..]);
    }
  }

  /** `booking.flights?.scheduled_time?.slice(0, 5) || ''`. */
  function TimeSlot(b: AnalyticsBooking): (t: string)
    ensures |t| <= 5
  {
    if b.scheduled_time.Some? then Prefix(b.scheduled_time.value, 5) else ""
  }

  /** How many bookings share the slot `k`, counted as the loop runs. */
  function SlotCount(bs: seq<AnalyticsBooking>, k: string): nat {
    if bs == [] then 0
    else SlotCount(bs[..|bs| - 1], k) + (if TimeSlot(bs[|bs| - 1]) == k then 1 else 0)
  }

  /** The tally's keys in insertion order: each non-empty slot, where it first occurs. */
  function SlotsInOrder(bs: seq<AnalyticsBooking>): seq<string> {
    if bs == [] then []
    else
      var keys := SlotsInOrder(bs[..|bs| - 1]);
      var t := TimeSlot(bs[|bs| - 1]);
      if t != "" && t !in keys then keys + [t] else keys
  }

  predicate Distinct(s: seq<string>) {
    forall i, j :: 0 <= i < j < |s| ==> s[i] != s[j]
  }

  /** The keys are distinct non-empty slots, each held by some booking, and
      every non-empty slot of a booking is a key. */
  lemma {:induction false} SlotsInOrderKeys(bs: seq<AnalyticsBooking>)
    ensures Distinct(SlotsInOrder(bs))
    ensures forall k :: k in SlotsInOrder(bs) ==> k != "" && SlotCount(bs, k) > 0
    ensures forall k :: k != "" && k !in SlotsInOrder(bs) ==> SlotCount(bs, k) == 0
  {
    if bs != [] {
      SlotsInOrderKeys(bs[..|bs| - 1]);
    }
  }

  /** The finished tally: each key mapped to its count. */
  function SlotTally(bs: seq<AnalyticsBooking>): map<string, nat> {
    map k | k in SlotsInOrder(bs) :: SlotCount(bs, k)
  }

  /** `timeSlotCounts`, built by the `forEach` loop: the keys in insertion
      order and the map from each key to its count. */
  method TallyTimeSlots(bs: seq<AnalyticsBooking>) returns (keys: seq<string>, counts: map<string, nat>)
    ensures keys == SlotsInOrder(bs) && counts == SlotTally(bs)
    ensures forall k :: k in counts <==> k in keys
    ensures forall k :: k in counts ==> counts[k] == SlotCount(bs, k)
  {
    keys, counts := [], map[];
    var i := 0;
    while i < |bs|
      invariant 0 <= i <= |bs|
      invariant keys == SlotsInOrder(bs[..i])
      invariant forall k :: k in counts <==> k in keys
      invariant forall k :: k in counts ==> counts[k] == SlotCount(bs[..i], k)
    {
      var time := TimeSlot(bs[i]);
      assert bs[..i + 1] == bs[..i] + [bs[i]];
      TallyStep(bs[..i], bs[i]);
      SlotsInOrderKeys(bs[..i]);
      if time != "" {
        if time in counts {
          counts := counts[time := counts[time] + 1];
        } else {
          counts := counts[time := 1];
          keys := keys + [time];
        }
      }
      i := i + 1;
    }
    assert bs[..i] == bs;
    TallyIs(bs, counts);
  }

  /** One booking more: its slot, when non-empty, becomes a new key at the
      end when it was not one, and is counted once more. */
  lemma TallyStep(bs: seq<AnalyticsBooking>, b: AnalyticsBooking)
    ensures var t, keys := TimeSlot(b), SlotsInOrder(bs);
      SlotsInOrder(bs + [b]) == (if t != "" && t !in keys then keys + [t] else keys)
    ensures forall k :: SlotCount(bs + [b], k) == SlotCount(bs, k) + (if TimeSlot(b) == k then 1 else 0)
  {
    var bs' := bs + [b];
    assert bs'[..|bs'| - 1] == bs && bs'[|bs'| - 1] == b;
  }

  /** A map with the tally's keys and counts is the tally. */
  lemma TallyIs(bs: seq<AnalyticsBooking>, counts: map<string, nat>)
    requires forall k :: k in counts <==> k in SlotsInOrder(bs)
    requires forall k :: k in counts ==> counts[k] == SlotCount(bs, k)
    ensures counts == SlotTally(bs)
  {
  }

  /** The sum of the counts of `keys`. */
  function SumCounts(keys: seq<string>, bs: seq<AnalyticsBooking>): nat {
    if keys == [] then 0 else SumCounts(keys[..|keys| - 1], bs) + SlotCount(bs, keys[|keys| - 1])
  }

  function WithSlot(bs: seq<AnalyticsBooking>): nat {
    if bs == [] then 0
    else WithSlot(bs[..|bs| - 1]) + (if TimeSlot(bs[|bs| - 1]) != "" then 1 else 0)
  }

  lemma {:induction false} WithSlotBound(bs: seq<AnalyticsBooking>)
    ensures WithSlot(bs) <= |bs|
  {
    if bs != [] {
      WithSlotBound(bs[..|bs| - 1]);
    }
  }

  lemma {:induction false} SumCountsStep(keys: seq<string>, bs: seq<AnalyticsBooking>, b: AnalyticsBooking)
    requires Distinct(keys)
    ensures SumCounts(keys, bs + [b]) == SumCounts(keys, bs) + (if TimeSlot(b) in keys then 1 else 0)
  {
    assert (bs + [b])[..|bs + [b]| - 1] == bs;
    if keys != [] {
      var init := keys[..|keys| - 1];
      assert Distinct(init);
      SumCountsStep(init, bs, b);
      assert TimeSlot(b) in keys <==> TimeSlot(b) in init || TimeSlot(b) == keys[|keys| - 1];
    }
  }

  /** The counts add up to the number of bookings with a time slot, which is
      at most the number of bookings. */
  lemma {:induction false} CountsSum(bs: seq<AnalyticsBooking>)
    ensures SumCounts(SlotsInOrder(bs), bs) == WithSlot(bs) <= |bs|
  {
    WithSlotBound(bs);
    if bs != [] {
      var init, b := bs[..|bs| - 1], bs[|bs| - 1];
      assert bs == init + [b];
      var keys := SlotsInOrder(init);
      CountsSum(init);
      SlotsInOrderKeys(init);
      SumCountsStep(keys, init, b);
      var t := TimeSlot(b);
      if t != "" && t !in keys {
        assert SlotsInOrder(bs) == keys + [t];
        assert (keys + [t])[..|keys + [t]| - 1] == keys;
      }
    }
  }

  datatype SlotEntry = SlotEntry(time: string, count: nat)

  /** `Object.entries(timeSlotCounts).map(...)`: one entry per key, in key order. */
  function Entries(keys: seq<string>, counts: map<string, nat>): (r: seq<SlotEntry>)
    requires forall i :: 0 <= i < |keys| ==> keys[i] in counts
    ensures |r| == |keys|
    ensures forall i :: 0 <= i < |r| ==> r[i] == SlotEntry(keys[i], counts[keys[i]])
  {
    if keys == [] then [] else [SlotEntry(keys[0], counts[keys[0]])] + Entries(keys[1..], counts)
  }

  predicate NonIncreasing(s: seq<SlotEntry>) {
    forall i, j :: 0 <= i < j < |s| ==> s[i].count >= s[j].count
  }

  /** One insertion step of the sort: an entry goes before the first entry
      whose count is not above its own, so equal counts keep their order. */
  function InsertByCount(e: SlotEntry, s: seq<SlotEntry>): seq<SlotEntry> {
    if s == [] || e.count >= s[0].count then [e] + s
    else [s[0]] + InsertByCount(e, s[1..])
  }

  lemma {:induction false} InsertByCountPermutes(e: SlotEntry, s: seq<SlotEntry>)
    ensures multiset(InsertByCount(e, s)) == multiset(s) + multiset{e}
  {
    if s != [] && e.count < s[0].count {
      InsertByCountPermutes(e, s[1..]);
      assert s == [s[0]] + s[1..];
    }
  }

  lemma {:induction false} InsertByCountSorted(e: SlotEntry, s: seq<SlotEntry>)
    requires NonIncreasing(s)
    ensures NonIncreasing(InsertByCount(e, s))
  {
    if s != [] && e.count < s[0].count {
      var rest := InsertByCount(e, s[1..]);
      InsertByCountSorted(e, s[1..]);
      InsertByCountPermutes(e, s[1..]);
      forall j | 0 <= j < |rest| ensures s[0].count >= rest[j].count {
        assert rest[j] in multiset(rest);
        if rest[j] != e {
          assert rest[j] in multiset(s[1..]);
          var k :| 0 <= k < |s[1..]| && s[1..][k] == rest[j];
          assert s[k + 1] == rest[j];
        }
      }
    }
  }

  /** `sort((a, b) => b.count - a.count)`, which is stable. */
  function SortByCount(s: seq<SlotEntry>): seq<SlotEntry> {
    if s == [] then [] else InsertByCount(s[0], SortByCount(s[1..]))
  }

  /** The sorted tally holds the same entries, busiest first. */
  lemma {:induction false} SortByCountCorrect(s: seq<SlotEntry>)
    ensures multiset(SortByCount(s)) == multiset(s)
    ensures NonIncreasing(SortByCount(s))
  {
    if s != [] {
      SortByCountCorrect(s[1..]);
      InsertByCountPermutes(s[0], SortByCount(s[1..]));
      InsertByCountSorted(s[0], SortByCount(s[1..]));
      assert s == [s[0]] + s[1..];
    }
  }

  /** `popularTimeSlots`: the first five entries of the sorted tally. */
  function PopularTimeSlots(entries: seq<SlotEntry>): (r: seq<SlotEntry>)
    ensures |r| <= 5 && (|entries| >= 5 ==> |r| == 5) && (|entries| < 5 ==> |r| == |entries|)
    ensures NonIncreasing(r)
    ensures forall i :: 0 <= i < |r| ==> r[i] in entries
  {
    var sorted := SortByCount(entries);
    SortedEntries(entries);
    if |sorted| <= 5 then sorted else sorted[..5]
  }

  /** The sorted tally has the entries' length, is busiest first, and holds
      only entries of the tally. */
  lemma SortedEntries(entries: seq<SlotEntry>)
    ensures |SortByCount(entries)| == |entries| && NonIncreasing(SortByCount(entries))
    ensures forall i :: 0 <= i < |SortByCount(entries)| ==> SortByCount(entries)[i] in entries
  {
    var sorted := SortByCount(entries);
    SortByCountCorrect(entries);
    assert |multiset(sorted)| == |multiset(entries)|;
    forall i | 0 <= i < |sorted| ensures sorted[i] in entries {
      assert sorted[i] in multiset(sorted);
    }
  }

  /** No popular slot is less busy than one left out of the top five. */
  lemma TopFiveAreBusiest(entries: seq<SlotEntry>, e: SlotEntry)
    requires e in entries && e !in PopularTimeSlots(entries) && |PopularTimeSlots(entries)| == 5
    ensures forall i :: 0 <= i < 5 ==> PopularTimeSlots(entries)[i].count >= e.count
  {
    var sorted := SortByCount(entries);
    SortByCountCorrect(entries);
    assert e in multiset(sorted);
    var j :| 0 <= j < |sorted| && sorted[j] == e;
    assert PopularTimeSlots(entries) == sorted[..5];
    assert j >= 5;
  }

  /** `flights.filter((f) => f.current_passengers > 0)`. */
  function FlightsWithBookings(flights: seq<Flight>): seq<Flight> {
    Filter(flights, (f: Flight) => f.current_passengers > 0)
  }

  /** One flight's share in per cent; a flight without capacity counts as 0. */
  function Percent(part: real, whole: real): real {
    if whole == 0.0 then 0.0 else part / whole * 100.0
  }

  function SeatShares(fs: seq<Flight>): real {
    if fs == [] then 0.0
    else Percent(fs[0].current_passengers as real, fs[0].max_passengers as real) + SeatShares(fs[1..])
  }

  function WeightShares(fs: seq<Flight>): real {
    if fs == [] then 0.0
    else Percent(fs[0].current_weight_kg, fs[0].max_weight_kg) + WeightShares(fs[1..])
  }

  /** The two utilisation averages over the flights with bookings. */
  function Averages(flights: seq<Flight>): (r: (real, real))
    ensures FlightsWithBookings(flights) == [] ==> r == (0.0, 0.0)
  {
    var booked := FlightsWithBookings(flights);
    if |booked| > 0 then
      (SeatShares(booked) / |booked| as real, WeightShares(booked) / |booked| as real)
    else (0.0, 0.0)
  }

  /** With no flight carrying passengers, both averages are 0. */
  lemma NoBookedFlightsZeroAverages(flights: seq<Flight>)
    requires forall i :: 0 <= i < |flights| ==> flights[i].current_passengers <= 0
    ensures Averages(flights) == (0.0, 0.0)
  {
    FilterKeepsNone(flights, (f: Flight) => f.current_passengers > 0);
  }

  datatype Report = Report(
    totalFlights: nat,
    totalBookings: nat,
    totalPassengers: int,
    totalRevenue: int,
    avgSeatUtilization: real,
    avgWeightUtilization: real,
    online: nat,
    phone: nat,
    walkin: nat,
    popularTimeSlots: seq<SlotEntry>)

  datatype AnalyticsResponse = FlightsFetchFailed | BookingsFetchFailed | Figures(report: Report)
  {
    function Status(): int {
      if Figures? then 200 else 500
    }
  }

  /** The handler over the two query results (None when a query failed);
      rows are those of the date window, and cancelled bookings are dropped
      by the bookings query. */
  method Get(flightRows: Option<seq<Flight>>, bookingRows: Option<seq<AnalyticsBooking>>)
    returns (r: AnalyticsResponse)
    ensures flightRows.None? <==> r == FlightsFetchFailed
    ensures flightRows.Some? && bookingRows.None? <==> r == BookingsFetchFailed
    ensures r.Figures? ==>
      var flights := flightRows.value;
      var bs := Filter(bookingRows.value, (b: AnalyticsBooking) => b.status != BookingStatus.Cancelled);
      && r.report.totalFlights == |flights|
      && r.report.totalBookings == |bs|
      && r.report.totalPassengers == TotalPassengers(bs)
      && r.report.totalRevenue == Round(Revenue(bs))
      && (r.report.avgSeatUtilization, r.report.avgWeightUtilization) == Averages(flights)
      && r.report.online + r.report.phone + r.report.walkin == |bs|
      && r.report.online == CountType(bs, Online)
      && r.report.phone == CountType(bs, Phone)
      && r.report.walkin == CountType(bs, Walkin)
      && r.report.popularTimeSlots == PopularTimeSlots(Entries(SlotsInOrder(bs), SlotTally(bs)))
      && |r.report.popularTimeSlots| <= 5
      && NonIncreasing(r.report.popularTimeSlots)
      && (forall i :: 0 <= i < |r.report.popularTimeSlots| ==>
            r.report.popularTimeSlots[i].time in SlotsInOrder(bs)
            && r.report.popularTimeSlots[i].count == SlotCount(bs, r.report.popularTimeSlots[i].time))
  {
    if flightRows.None? {
      return FlightsFetchFailed;
    }
    if bookingRows.None? {
      return BookingsFetchFailed;
    }
    var flights := flightRows.value;
    var bs := Filter(bookingRows.value, (b: AnalyticsBooking) => b.status != BookingStatus.Cancelled);
    var keys, counts := TallyTimeSlots(bs);
    var entries := Entries(keys, counts);
    var popular := PopularTimeSlots(entries);
    forall i | 0 <= i < |popular|
      ensures popular[i].time in SlotsInOrder(bs) && popular[i].count == SlotCount(bs, popular[i].time)
    {
      var j :| 0 <= j < |entries| && entries[j] == popular[i];
    }
    ByTypeSum(bs);
    var averages := Averages(flights);
    r := Figures(Report(|flights|, |bs|, TotalPassengers(bs), Round(Revenue(bs)),
                        averages.0, averages.1,
                        CountType(bs, Online), CountType(bs, Phone), CountType(bs, Walkin), popular));
  }
}
