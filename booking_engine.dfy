/**
 * The booking engine of server/controller/bookingController.js over an
 * in-memory ledger: the endpoint-inclusive availability query, the
 * create-booking flow (reject, price, append), the nights and price
 * arithmetic, and the hotel dashboard's count and revenue.
 *
 * Timestamps are integer milliseconds since the epoch and prices are exact
 * reals, so the JavaScript date parsing and floating-point multiply become
 * exact arithmetic.
 */
module BookingEngine {
  import opened Common

  type BookingId = string
  type UserId = string
  type RoomId = string
  type HotelId = string

  /** One day in milliseconds, `1000 * 3600 * 24` in the source. */
  const MillisPerDay: int := 1000 * 3600 * 24

  /** A stored booking document. */
  datatype Booking = Booking(
    id: BookingId,
    user: UserId,
    room: RoomId,
    hotel: HotelId,
    guests: int,
    checkInDate: int,
    checkOutDate: int,
    totalPrice: real,
    isPaid: bool,
    paymentMethod: Option<string>)

  /** A room as `Room.findById(room).populate("hotel")` yields it; its hotel is
      `None` when the hotel reference does not resolve. */
  datatype Room = Room(hotel: Option<HotelId>, pricePerNight: real)

  /** The room and dates named in a request body. */
  datatype Stay = Stay(room: RoomId, checkInDate: int, checkOutDate: int)

  /** A hotel, with the user who owns it. */
  datatype Hotel = Hotel(id: HotelId, owner: UserId)

  // ---------------------------------------------------------------------------
  // Availability

  /** The ledger query's filter: the same room, a stored check-in on or before
      the requested check-out and a stored check-out on or after the requested
      check-in. Both endpoints are inclusive. */
  predicate Conflicts(b: Booking, q: Stay)
  {
    b.room == q.room && b.checkInDate <= q.checkOutDate && b.checkOutDate >= q.checkInDate
  }

  /** The bookings the overlap query returns, in ledger order. */
  function ConflictingBookings(ledger: seq<Booking>, q: Stay): (r: seq<Booking>)
    ensures forall b :: b in r <==> b in ledger && Conflicts(b, q)
  {
    if ledger == [] then []
    else
      var rest := ConflictingBookings(ledger[1..], q);
      assert forall b :: b in ledger <==> b == ledger[0] || b in ledger[1..];
      if Conflicts(ledger[0], q) then [ledger[0]] + rest else rest
  }

  /** `checkAvailability`: `Some(true)` when the query returns no booking,
      `Some(false)` when it returns some, and `None` (JavaScript `undefined`)
      when the query itself fails, which `queryOk` stands for. */
  function CheckAvailability(ledger: seq<Booking>, q: Stay, queryOk: bool): (r: Option<bool>)
    ensures r.Some? <==> queryOk
    ensures r == Some(true) <==> queryOk && forall b :: b in ledger ==> !Conflicts(b, q)
    ensures r == Some(false) <==> queryOk && exists b :: b in ledger && Conflicts(b, q)
  {
    if queryOk then
      var found := ConflictingBookings(ledger, q);
      assert |found| > 0 ==> found[0] in found;
      Some(|found| == 0)
    else None
  }

  /** The JSON body of `checkAvailabilityAPI`: `success` and `isAvailable`. */
  datatype AvailabilityReply = AvailabilityReply(success: bool, isAvailable: Option<bool>)

  /** An existing booking whose check-out falls on the requested check-in
      day makes the room unavailable. */
  lemma CheckoutDayConflicts(ledger: seq<Booking>, b: Booking, q: Stay)
    requires b in ledger && b.room == q.room
    requires b.checkInDate <= b.checkOutDate && q.checkInDate <= q.checkOutDate
    requires b.checkOutDate == q.checkInDate
    ensures CheckAvailability(ledger, q, true) == Some(false)
  {
    assert Conflicts(b, q);
  }

  /** Bookings for other rooms never change the availability answer. */
  lemma OtherRoomsIrrelevant(before: seq<Booking>, b: Booking, after: seq<Booking>, q: Stay, queryOk: bool)
    requires b.room != q.room
    ensures CheckAvailability(before + [b] + after, q, queryOk)
         == CheckAvailability(before + after, q, queryOk)
  {
    if queryOk {
      var whole, rest := before + [b] + after, before + after;
      forall c | c in whole && Conflicts(c, q) ensures c in rest {
        assert c in before || c == b || c in after;
      }
    }
  }

  // ---------------------------------------------------------------------------
  // Nights and price

  /** `Math.ceil(timeDiff / (1000 * 3600 * 24))` on a millisecond difference:
      the least whole number of days that covers the difference. */
  function Nights(checkInDate: int, checkOutDate: int): (n: int)
    ensures (n - 1) * MillisPerDay < checkOutDate - checkInDate <= n * MillisPerDay
  {
    var q := (checkInDate - checkOutDate) / MillisPerDay;
    assert q * MillisPerDay <= checkInDate - checkOutDate < q * MillisPerDay + MillisPerDay;
    -q
  }

  /** A stay of exactly k days is k nights; any longer stay, by even one
      millisecond, is charged one more night. */
  lemma NightsOfWholeDays(checkInDate: int, k: int, extra: int)
    requires 0 <= extra < MillisPerDay
    ensures Nights(checkInDate, checkInDate + k * MillisPerDay) == k
    ensures extra > 0 ==> Nights(checkInDate, checkInDate + k * MillisPerDay + extra) == k + 1
  {
    var n := Nights(checkInDate, checkInDate + k * MillisPerDay);
    assert (n - 1) * MillisPerDay < k * MillisPerDay <= n * MillisPerDay;
    assert n - 1 < k <= n;
    if extra > 0 {
      var m := Nights(checkInDate, checkInDate + k * MillisPerDay + extra);
      assert (m - 1) * MillisPerDay < k * MillisPerDay + extra <= m * MillisPerDay;
      assert m - 1 <= k;
      assert k < m;
    }
  }

  /** The price of a stay: the nightly price times the number of nights. */
  function StayPrice(pricePerNight: real, q: Stay): real
  {
    pricePerNight * Nights(q.checkInDate, q.checkOutDate) as real
  }

  /** 100 per night from 2024-01-01T00:00Z to 2024-01-03T00:00Z costs 200;
      to 2024-01-02T01:00Z, 25 hours later, it also costs 200. */
  lemma PriceExamples()
    ensures StayPrice(100.0, Stay("r", 1704067200000, 1704240000000)) == 200.0
    ensures StayPrice(100.0, Stay("r", 1704067200000, 1704157200000)) == 200.0
  {
    NightsOfWholeDays(1704067200000, 2, 0);
    NightsOfWholeDays(1704067200000, 1, 3600000);
  }

  // ---------------------------------------------------------------------------
  // Creating a booking

  /** Why `createBooking` stores nothing. `NotAvailable` answers
      `success: true` with "Room is not available"; the other two are the
      TypeErrors thrown by dereferencing a missing room or hotel, answered
      with `success: false`. */
  datatype Rejection = NotAvailable | RoomNotFound | HotelNotFound

  /** What `createBooking` decides for a ledger and a catalog: the booking to
      append, or why none is appended. */
  function PlanBooking(ledger: seq<Booking>, catalog: map<RoomId, Room>, user: UserId, q: Stay,
                       guests: int, id: BookingId, queryOk: bool): (r: Result<Booking, Rejection>)
    ensures r == Err(NotAvailable) <==> CheckAvailability(ledger, q, queryOk) != Some(true)
    ensures r == Err(RoomNotFound) <==>
              CheckAvailability(ledger, q, queryOk) == Some(true) && q.room !in catalog
    ensures r.Ok? <==>
              queryOk && (forall b :: b in ledger ==> !Conflicts(b, q)) &&
              q.room in catalog && catalog[q.room].hotel.Some?
    ensures r.Ok? ==>
              && r.value.id == id && r.value.user == user && r.value.guests == guests
              && Stay(r.value.room, r.value.checkInDate, r.value.checkOutDate) == q
              && r.value.hotel == catalog[q.room].hotel.value
              && r.value.totalPrice
                 == catalog[q.room].pricePerNight * Nights(q.checkInDate, q.checkOutDate) as real
              && !r.value.isPaid && r.value.paymentMethod == None
  {
    if CheckAvailability(ledger, q, queryOk) != Some(true) then Err(NotAvailable)
    else if q.room !in catalog then Err(RoomNotFound)
    else
      var room := catalog[q.room];
      if room.hotel.None? then Err(HotelNotFound)
      else
        Ok(Booking(id, user, q.room, room.hotel.value, guests, q.checkInDate, q.checkOutDate,
                   StayPrice(room.pricePerNight, q), false, None))
  }

  /** Two bookings of the same room whose date ranges meet under the
      endpoint-inclusive predicate. */
  predicate Clash(a: Booking, b: Booking)
  {
    Conflicts(a, Stay(b.room, b.checkInDate, b.checkOutDate))
  }

  /** No two bookings of one room have ranges that meet. */
  ghost predicate NoDoubleBooking(ledger: seq<Booking>)
  {
    forall i, j :: 0 <= i < j < |ledger| ==> !Clash(ledger[i], ledger[j])
  }

  /** Booking ids are distinct. */
  ghost predicate UniqueIds(ledger: seq<Booking>)
  {
    forall i, j :: 0 <= i < j < |ledger| ==> ledger[i].id != ledger[j].id
  }

  /** Taken atomically, appending the planned booking keeps the ledger free
      of double bookings. */
  lemma PlanKeepsNoDoubleBooking(ledger: seq<Booking>, catalog: map<RoomId, Room>, user: UserId,
                                 q: Stay, guests: int, id: BookingId, queryOk: bool)
    requires NoDoubleBooking(ledger)
    requires PlanBooking(ledger, catalog, user, q, guests, id, queryOk).Ok?
    ensures NoDoubleBooking(ledger + [PlanBooking(ledger, catalog, user, q, guests, id, queryOk).value])
  {
    var b := PlanBooking(ledger, catalog, user, q, guests, id, queryOk).value;
    var after := ledger + [b];
    forall i, j | 0 <= i < j < |after| ensures !Clash(after[i], after[j]) {
      if j == |ledger| {
        assert after[i] in ledger;
        assert !Conflicts(after[i], q);
      } else {
        assert after[i] == ledger[i] && after[j] == ledger[j];
      }
    }
  }

  /** Once a stay is booked, the same room and range is no longer available. */
  lemma BookedStayUnavailable(ledger: seq<Booking>, catalog: map<RoomId, Room>, user: UserId,
                              q: Stay, guests: int, id: BookingId, queryOk: bool)
    requires q.checkInDate <= q.checkOutDate
    requires PlanBooking(ledger, catalog, user, q, guests, id, queryOk).Ok?
    ensures CheckAvailability(ledger + [PlanBooking(ledger, catalog, user, q, guests, id, queryOk).value],
                              q, true) == Some(false)
  {
    var b := PlanBooking(ledger, catalog, user, q, guests, id, queryOk).value;
    assert b in ledger + [b] && Conflicts(b, q);
  }

  /** A stay of the same room whose range does not meet the booked one stays
      available after the booking. */
  lemma DisjointStayStaysAvailable(ledger: seq<Booking>, catalog: map<RoomId, Room>, user: UserId,
                                   q: Stay, guests: int, id: BookingId, queryOk: bool, other: Stay)
    requires PlanBooking(ledger, catalog, user, q, guests, id, queryOk).Ok?
    requires other.checkInDate > q.checkOutDate || other.checkOutDate < q.checkInDate
    requires CheckAvailability(ledger, other, true) == Some(true)
    ensures CheckAvailability(ledger + [PlanBooking(ledger, catalog, user, q, guests, id, queryOk).value],
                              other, true) == Some(true)
  {
    var b := PlanBooking(ledger, catalog, user, q, guests, id, queryOk).value;
    forall c | c in ledger + [b] ensures !Conflicts(c, other) {
      if c != b {
        assert c in ledger;
      }
    }
  }

  /** The JSON body of `createBooking`. */
  datatype BookingReply = Booked | RoomUnavailable | Failed
  {
    /** The `success` flag: a refused stay is still a successful request. */
    predicate Success()
    {
      !Failed?
    }
  }

  /** The bookings collection. */
  class Ledger {
    /** The stored bookings, oldest first. */
    var bookings: seq<Booking>

    ghost predicate Valid()
      reads this
    {
      UniqueIds(bookings) && NoDoubleBooking(bookings)
    }

    constructor ()
      ensures Valid() && bookings == []
    {
      bookings := [];
    }

    /** `checkAvailabilityAPI`: the check never throws, so `success` is always
        true; an `undefined` answer is passed through as `None`. */
    method CheckAvailabilityApi(q: Stay, queryOk: bool) returns (reply: AvailabilityReply)
      ensures reply.success
      ensures reply.isAvailable == Some(true) <==> queryOk && forall b :: b in bookings ==> !Conflicts(b, q)
      ensures reply.isAvailable == None <==> !queryOk
    {
      var isAvailable := CheckAvailability(bookings, q, queryOk);
      reply := AvailabilityReply(true, isAvailable);
    }

    /** `createBooking`: check availability, look up the room and its hotel,
        price the stay and append one booking. `freshId` is the id the
        database assigns to the new document. */
    method CreateBooking(catalog: map<RoomId, Room>, user: UserId, q: Stay, guests: int,
                         freshId: BookingId, queryOk: bool) returns (reply: BookingReply)
      requires Valid()
      requires forall b :: b in bookings ==> b.id != freshId
      modifies this
      ensures Valid()
      ensures match PlanBooking(old(bookings), catalog, user, q, guests, freshId, queryOk)
              case Ok(b) => reply == Booked && bookings == old(bookings) + [b]
              case Err(NotAvailable) => reply == RoomUnavailable && bookings == old(bookings)
              case Err(_) => reply == Failed && bookings == old(bookings)
    {
      var isAvailable := CheckAvailability(bookings, q, queryOk);
      if isAvailable != Some(true) {
        return RoomUnavailable;
      }
      if q.room !in catalog {
        // `roomData` is null and reading `pricePerNight` throws.
        return Failed;
      }
      var roomData := catalog[q.room];
      var totalPrice := roomData.pricePerNight;
      var nights := Nights(q.checkInDate, q.checkOutDate);
      totalPrice := totalPrice * nights as real;
      if roomData.hotel.None? {
        // `roomData.hotel._id` throws.
        return Failed;
      }
      PlanKeepsNoDoubleBooking(bookings, catalog, user, q, guests, freshId, queryOk);
      var booking := Booking(freshId, user, q.room, roomData.hotel.value, guests,
                             q.checkInDate, q.checkOutDate, totalPrice, false, None);
      assert totalPrice == StayPrice(roomData.pricePerNight, q);
      assert PlanBooking(bookings, catalog, user, q, guests, freshId, queryOk) == Ok(booking);
      bookings := bookings + [booking];
      reply := Booked;
    }
  }

  // ---------------------------------------------------------------------------
  // Hotel dashboard

  /** `Booking.find({hotel})`, in ledger order. */
  function HotelFilter(ledger: seq<Booking>, h: HotelId): (r: seq<Booking>)
    ensures forall b :: b in r <==> b in ledger && b.hotel == h
    ensures |r| <= |ledger|
  {
    if ledger == [] then []
    else
      var rest := HotelFilter(ledger[1..], h);
      assert forall b :: b in ledger <==> b == ledger[0] || b in ledger[1..];
      if ledger[0].hotel == h then [ledger[0]] + rest else rest
  }

  /** The filter keeps ledger order: filtering a ledger split in two is
      filtering each part and joining them in the same order. */
  lemma {:induction false} HotelFilterAppend(a: seq<Booking>, b: seq<Booking>, h: HotelId)
    ensures HotelFilter(a + b, h) == HotelFilter(a, h) + HotelFilter(b, h)
  {
    if a == [] {
      assert a + b == b;
    } else {
      assert (a + b)[0] == a[0];
      assert (a + b)[1..] == a[1..] + b;
      HotelFilterAppend(a[1..], b, h);
      var head := if a[0].hotel == h then [a[0]] else [];
      assert HotelFilter(a + b, h) == head + HotelFilter(a[1..] + b, h);
      assert HotelFilter(a, h) == head + HotelFilter(a[1..], h);
    }
  }

  /** Newest first: the ledger is in creation order, so sorting on
      `createdAt` descending reverses it. */
  function Reverse(s: seq<Booking>): (r: seq<Booking>)
    ensures |r| == |s|
    ensures forall i :: 0 <= i < |s| ==> r[i] == s[|s| - 1 - i]
  {
    if s == [] then [] else Reverse(s[1..]) + [s[0]]
  }

  /** `bookings.reduce((acc, booking) => acc + booking.totalPrice, 0)`: a
      left fold. */
  function SumPrices(bs: seq<Booking>): real
  {
    if bs == [] then 0.0 else SumPrices(bs[..|bs| - 1]) + bs[|bs| - 1].totalPrice
  }

  /** Reference count: how many bookings in the ledger belong to hotel h. */
  function CountFor(ledger: seq<Booking>, h: HotelId): nat
  {
    if ledger == [] then 0
    else (if ledger[0].hotel == h then 1 else 0) + CountFor(ledger[1..], h)
  }

  /** Reference revenue: the total price of hotel h's bookings, paid or not. */
  function RevenueFor(ledger: seq<Booking>, h: HotelId): real
  {
    if ledger == [] then 0.0
    else (if ledger[0].hotel == h then ledger[0].totalPrice else 0.0) + RevenueFor(ledger[1..], h)
  }

  lemma {:induction false} SumPricesCons(b: Booking, s: seq<Booking>)
    ensures SumPrices([b] + s) == b.totalPrice + SumPrices(s)
  {
    if s != [] {
      assert ([b] + s)[..|[b] + s| - 1] == [b] + s[..|s| - 1];
      SumPricesCons(b, s[..|s| - 1]);
    }
  }

  /** The revenue sum does not depend on the order of the bookings. */
  lemma {:induction false} SumPricesReverse(s: seq<Booking>)
    ensures SumPrices(Reverse(s)) == SumPrices(s)
  {
    if s != [] {
      var r := Reverse(s);
      assert r == Reverse(s[1..]) + [s[0]];
      assert r[..|r| - 1] == Reverse(s[1..]);
      SumPricesReverse(s[1..]);
      SumPricesCons(s[0], s[1..]);
      assert s == [s[0]] + s[1..];
    }
  }

  lemma {:induction false} HotelFilterTotals(ledger: seq<Booking>, h: HotelId)
    ensures |HotelFilter(ledger, h)| == CountFor(ledger, h)
    ensures SumPrices(HotelFilter(ledger, h)) == RevenueFor(ledger, h)
  {
    if ledger != [] {
      HotelFilterTotals(ledger[1..], h);
      if ledger[0].hotel == h {
        SumPricesCons(ledger[0], HotelFilter(ledger[1..], h));
      }
    }
  }

  /** The dashboard data of `getHotelBookings`. */
  datatype Dashboard = Dashboard(totalBookings: int, totalRevenue: real, bookings: seq<Booking>)

  /** The count and revenue reduction over hotel h's bookings. */
  function HotelDashboard(ledger: seq<Booking>, h: HotelId): (d: Dashboard)
    ensures d.totalBookings == CountFor(ledger, h)
    ensures d.totalRevenue == RevenueFor(ledger, h)
    ensures forall b :: b in d.bookings <==> b in ledger && b.hotel == h
    ensures d.bookings == Reverse(HotelFilter(ledger, h))
    ensures d.totalBookings == |d.bookings| && d.totalRevenue == SumPrices(d.bookings)
  {
    var found := HotelFilter(ledger, h);
    var bookings := Reverse(found);
    HotelFilterTotals(ledger, h);
    SumPricesReverse(found);
    assert forall b :: b in bookings <==> b in found by {
      forall b | b in found ensures b in bookings {
        var i :| 0 <= i < |found| && found[i] == b;
        assert bookings[|found| - 1 - i] == b;
      }
    }
    Dashboard(|bookings|, SumPrices(bookings), bookings)
  }

  /** Appending one booking adds one to its hotel's count and its price to
      its hotel's revenue, and leaves every other hotel's totals alone. */
  lemma {:induction false} TotalsAfterAppend(ledger: seq<Booking>, b: Booking, h: HotelId)
    ensures CountFor(ledger + [b], h) == CountFor(ledger, h) + (if b.hotel == h then 1 else 0)
    ensures RevenueFor(ledger + [b], h) == RevenueFor(ledger, h) + (if b.hotel == h then b.totalPrice else 0.0)
  {
    if ledger != [] {
      assert (ledger + [b])[1..] == ledger[1..] + [b];
      TotalsAfterAppend(ledger[1..], b, h);
    }
  }

  /** The dashboard lists the hotel's newest booking first: a booking just
      appended to the ledger heads its hotel's list, followed by the list as
      it was, and other hotels' dashboards do not change. */
  lemma NewestBookingListedFirst(ledger: seq<Booking>, b: Booking, h: HotelId)
    ensures HotelDashboard(ledger + [b], h).bookings
         == (if b.hotel == h then [b] else []) + HotelDashboard(ledger, h).bookings
  {
    HotelFilterAppend(ledger, [b], h);
    assert HotelFilter([b], h) == if b.hotel == h then [b] else [];
    var before := HotelFilter(ledger, h);
    if b.hotel == h {
      ReverseSnoc(before, b);
    } else {
      assert before + [] == before;
    }
  }

  /** Reversing puts an element appended last at the front. */
  lemma ReverseSnoc(s: seq<Booking>, b: Booking)
    ensures Reverse(s + [b]) == [b] + Reverse(s)
  {
    var l, r := Reverse(s + [b]), [b] + Reverse(s);
    forall i | 0 <= i < |l| ensures l[i] == r[i] {
      if i > 0 {
        assert r[i] == Reverse(s)[i - 1] == s[|s| - i];
      }
    }
  }

  /** The reply of `getHotelBookings`. */
  datatype DashboardReply = DashboardOk(data: Dashboard) | NoHotel | FetchFailed

  /** `getHotelBookings` as written: `Hotel` is never imported in the file, so
      `Hotel.findOne` throws a ReferenceError and the catch block answers
      "Failed to fetch bookings" whatever the state. */
  function GetHotelBookingsAsWritten(hotels: seq<Hotel>, ledger: seq<Booking>, owner: UserId): DashboardReply
  {
    FetchFailed
  }

  /** `Hotel.findOne({owner})`: the first hotel the owner owns. */
  function FindHotelByOwner(hotels: seq<Hotel>, owner: UserId): (r: Option<Hotel>)
    ensures r.None? <==> forall x :: x in hotels ==> x.owner != owner
    ensures r.Some? ==> r.value in hotels && r.value.owner == owner
  {
    if hotels == [] then None
    else if hotels[0].owner == owner then Some(hotels[0])
    else FindHotelByOwner(hotels[1..], owner)
  }

  /** `getHotelBookings` with `Hotel` in scope: "No Hotel found" for an owner
      without a hotel, otherwise the dashboard of the owner's hotel. */
  function GetHotelBookings(hotels: seq<Hotel>, ledger: seq<Booking>, owner: UserId): (r: DashboardReply)
    ensures r == NoHotel <==> forall x :: x in hotels ==> x.owner != owner
    ensures r.DashboardOk? ==>
              exists x :: x in hotels && x.owner == owner && r.data == HotelDashboard(ledger, x.id)
    ensures !r.FetchFailed?
  {
    match FindHotelByOwner(hotels, owner)
    case None => NoHotel
    case Some(hotel) => DashboardOk(HotelDashboard(ledger, hotel.id))
  }

  /** An owner with one hotel and one booking gets a failure from the code as
      written, but a dashboard of one booking from the corrected handler. */
  lemma HotelLookupFinding()
    ensures var hotels := [Hotel("h1", "owner1")];
            var ledger := [Booking("b1", "u1", "r1", "h1", 2, 0, MillisPerDay, 100.0, false, None)];
            GetHotelBookingsAsWritten(hotels, ledger, "owner1") == FetchFailed &&
            GetHotelBookings(hotels, ledger, "owner1").DashboardOk? &&
            GetHotelBookings(hotels, ledger, "owner1").data.totalBookings == 1 &&
            GetHotelBookings(hotels, ledger, "owner1").data.totalRevenue == 100.0
  {
    var hotels := [Hotel("h1", "owner1")];
    var b := Booking("b1", "u1", "r1", "h1", 2, 0, MillisPerDay, 100.0, false, None);
    TotalsAfterAppend([], b, "h1");
    assert [] + [b] == [b];
  }
}
