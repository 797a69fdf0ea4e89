# Hotel booking backend: a Dafny model of its controllers

This project models the four controllers of a small Express/Mongo
hotel-booking backend that hold sequential logic. The document store is an
in-memory store: the bookings collection is a `Ledger` object whose field
is a sequence of `Booking` values, kept in creation order. The users
collection is a `UserStore` object whose field is a map keyed by user id.
The four models are:

- **Booking engine** (`booking_engine.dfy`, module `BookingEngine`). This
  covers the availability query, which uses an endpoint-inclusive overlap
  filter, and the create-booking flow: refuse, or price the stay and
  append one booking. It also covers the nights and price arithmetic and
  the hotel dashboard's count and revenue.
- **Recent searched cities** (`recent_cities.dfy`, module `UserController`).
  The signed-in user's list keeps at most three entries: it shifts out the
  oldest entry and pushes the new one. The module also covers the read of
  the user's role and cities.
- **Payment webhook** (`stripe_webhooks.dfy`, module `StripeWebhooks`).
  After a successful signature check, a `checkout.session.completed`
  event whose metadata carries a booking id marks that booking as paid by
  Stripe.
- **User-sync webhook** (`clerk_webhooks.dfy`, module `ClerkWebhooks`). A
  user record is built from the event. The event type then picks one of
  four actions on the user store: create, update, delete or nothing.

`common.dfy` holds `Option`, `Result` and JavaScript truthiness for
optional strings.

Timestamps are integer milliseconds, and prices are exact `real`s. The
signature checks done by the payment provider's and the identity
provider's SDKs are foreign calls, so they are the boolean parameter
`verified`. A failed ledger query is the boolean parameter `queryOk`. The
id that the database gives a new booking is the parameter `freshId`. Its
precondition says that no stored booking has that id yet.

Two points where the code decides things:

- The code's `if(!isAvailable)` treats an `undefined` availability answer
  (a failed query) as "not available". That answer still has
  `success: true`.
- A missing room, or a room whose hotel does not resolve, makes the code
  throw. It throws after the availability check and before the insert, so
  the reply has `success: false` and nothing is stored.

## Model

| member | source | states |
|---|---|---|
| `BookingEngine.ConflictingBookings` | server/controller/bookingController.js:8-12 | The overlap query returns exactly the ledger's bookings for the same room whose check-in is on or before the requested check-out and whose check-out is on or after the requested check-in |
| `BookingEngine.CheckAvailability` | server/controller/bookingController.js:6-20 | The answer is `Some(true)` iff the query works and no booking conflicts. It is `Some(false)` iff the query works and some booking conflicts. It is `None` (undefined) iff the query fails |
| `BookingEngine.CheckoutDayConflicts` | server/controller/bookingController.js:10-11 | Endpoints are inclusive: a booking that checks out on the requested check-in instant makes the room unavailable |
| `BookingEngine.OtherRoomsIrrelevant` | server/controller/bookingController.js:8-9 | Putting a booking for another room anywhere in the ledger never changes the availability answer |
| `BookingEngine.Nights` | server/controller/bookingController.js:52-55 | The night count is the ceiling of the millisecond difference over 86,400,000. That is, (n-1) days < difference <= n days, also for negative differences |
| `BookingEngine.NightsOfWholeDays` | server/controller/bookingController.js:54-55 | A stay of exactly k days is k nights. A stay longer by any amount under a day is k+1 nights |
| `BookingEngine.PriceExamples` | server/controller/bookingController.js:50-57 | At 100 per night, 2024-01-01 to 2024-01-03 costs 200. A 25-hour stay also costs 200 |
| `BookingEngine.PlanBooking` | server/controller/bookingController.js:43-67 | The request is refused as unavailable iff availability is not `Some(true)`, so a failed query also refuses it. Room-not-found happens iff the room is available but missing. A booking is produced iff the query works, nothing conflicts, and the room and its hotel exist. That booking carries the user, room, hotel, guests and dates, is unpaid, and its price is the nightly price times the night count |
| `BookingEngine.PlanKeepsNoDoubleBooking` | server/controller/bookingController.js:43-67 | If create-booking is atomic, appending the planned booking keeps the ledger free of same-room bookings whose ranges meet |
| `BookingEngine.BookedStayUnavailable` | server/controller/bookingController.js:43-67 | After a successful booking with check-in <= check-out, the same room and range is unavailable |
| `BookingEngine.DisjointStayStaysAvailable` | server/controller/bookingController.js:8-14 | A same-room range that was available and does not meet the booked range stays available |
| `BookingEngine.Ledger.CheckAvailabilityApi` | server/controller/bookingController.js:24-34 | The reply always has `success: true`. Its `isAvailable` is true iff nothing conflicts, and it is absent iff the query failed |
| `BookingEngine.Ledger.CreateBooking` | server/controller/bookingController.js:38-75 | The imperative flow. On success exactly the planned booking is appended and the reply is Booked. When the room is unavailable or the query fails, the ledger is unchanged and the reply is RoomUnavailable (success true). A missing room or hotel leaves the ledger unchanged with a failure reply. Unique ids and no double booking are preserved |
| `BookingEngine.HotelFilter` | server/controller/bookingController.js:98 | `Booking.find({hotel})` returns exactly the ledger's bookings of that hotel, and never more bookings than the ledger holds |
| `BookingEngine.HotelFilterAppend` | server/controller/bookingController.js:98 | The filter keeps ledger order: filtering two ledger parts one after the other gives the filter of the whole ledger |
| `BookingEngine.Reverse` | server/controller/bookingController.js:100 | Newest first: the reversed sequence has the same length, and element i is the i-th element counted from the end |
| `BookingEngine.ReverseSnoc` | server/controller/bookingController.js:100 | The element created last comes first in the newest-first order, followed by the earlier ones newest first |
| `BookingEngine.SumPricesCons` | server/controller/bookingController.js:106 | The left-fold revenue sum also splits off its first element |
| `BookingEngine.SumPricesReverse` | server/controller/bookingController.js:106 | The revenue sum does not depend on the newest-first order |
| `BookingEngine.HotelFilterTotals` | server/controller/bookingController.js:98-106 | The hotel's bookings number CountFor and their reduce-sum is RevenueFor, both independent definitions over the ledger |
| `BookingEngine.HotelDashboard` | server/controller/bookingController.js:98-111 | `totalBookings` is the number of the hotel's bookings. `totalRevenue` is the sum of their prices, paid or not. The listed bookings are exactly the hotel's bookings, in newest-first order (the reverse of the ledger's filtered creation order), and the two totals are the count and the price sum of that list |
| `BookingEngine.NewestBookingListedFirst` | server/controller/bookingController.js:98-111 | After one more booking is created, the dashboard of its hotel lists it first, followed by the earlier list unchanged. Other hotels' lists do not change |
| `BookingEngine.TotalsAfterAppend` | server/controller/bookingController.js:103-106 | A new booking adds 1 to its own hotel's count and its price to that hotel's revenue. Other hotels' totals do not change |
| `BookingEngine.FindHotelByOwner` | server/controller/bookingController.js:92 | `Hotel.findOne({owner})` finds a hotel of that owner iff one exists |
| `BookingEngine.GetHotelBookings` | server/controller/bookingController.js:90-116 | This is the corrected handler. It answers "No Hotel found" iff the owner has no hotel. Otherwise it answers exactly HotelDashboard of one of the owner's hotels (its list, count and revenue), and it never fails |
| `BookingEngine.HotelLookupFinding` | server/controller/bookingController.js:92 | For an owner with one hotel and one booking, the handler as written fails, while the corrected one reports one booking and its revenue |
| `UserController.PushRecent` | server/controller/userController.js:24-29 | The new city is last. The length grows by one below capacity and is unchanged at or above it. The earlier entries keep their order as a suffix of the old list |
| `UserController.PushRecentCases` | server/controller/userController.js:24-29 | The result is old + [city], with the first entry dropped exactly when the old length is at least 3 |
| `UserController.PushRecentBounded` | server/controller/userController.js:24-29 | A length of at most 3 before the call means a length of at most 3 after it |
| `UserController.PushRecentKeepsDuplicates` | server/controller/userController.js:25-28 | No de-duplication: the city's count goes up by one, unless the shifted-out entry was that same city |
| `UserController.PushRecentIsLastN` | server/controller/userController.js:24-29 | Within capacity, one push keeps exactly the last three of old + [city] |
| `UserController.LastNAbsorbs` | server/controller/userController.js:27-28 | Keeping only the last n entries early does not change the last n entries kept later |
| `UserController.PushAllKeepsLastSearches` | server/controller/userController.js:19-37 | Starting within capacity, the list after any series of searches is the last three entries of the whole history, oldest first |
| `UserController.UserDocument.GetUserData` | server/controller/userController.js:3-16 | Returns the stored role and recent cities unchanged. These are the same fields as the `app` part of a stored `ClerkWebhooks.UserDoc` |
| `UserController.UserDocument.StoreRecentSearchedCity` | server/controller/userController.js:19-37 | The list becomes PushRecent of the old list. Nothing else in the document changes. The length stays at most 3 |
| `StripeWebhooks.MarkPaid` | server/controller/stripeWebhooks.js:52-55 | The length is the same. The bookings with the given id get `isPaid = true` and `paymentMethod = 'Stripe'`. Every other booking is unchanged |
| `StripeWebhooks.MarkPaidIdempotent` | server/controller/stripeWebhooks.js:52-55 | Marking a booking paid twice gives the same ledger as marking it once |
| `StripeWebhooks.MarkPaidUnknownId` | server/controller/stripeWebhooks.js:52-55 | An id no booking carries changes nothing |
| `StripeWebhooks.MarkPaidChangesAtMostOne` | server/controller/stripeWebhooks.js:52-55 | With unique ids, at most one booking changes, and it is the one with that id |
| `StripeWebhooks.MarkPaidKeepsInvariants` | server/controller/stripeWebhooks.js:52-55 | Unique ids and the no-double-booking invariant survive the payment update |
| `StripeWebhooks.MarkPaidKeepsTotals` | server/controller/stripeWebhooks.js:52-55 | A payment leaves every hotel's dashboard count and revenue unchanged |
| `StripeWebhooks.ApplyStripeEvent` | server/controller/stripeWebhooks.js:46-61 | The ledger is unchanged for a bad signature, another event type, or a missing or empty booking id. Otherwise only the booking with that id changes, and only in its payment fields |
| `StripeWebhooks.StripeEventIdempotent` | server/controller/stripeWebhooks.js:46-61 | Delivering the same event twice gives the same ledger as delivering it once |
| `StripeWebhooks.HandleStripeWebhook` | server/controller/stripeWebhooks.js:4-65 | A bad signature gives the 400 reply. Any verified event gives `received: true`. The ledger becomes ApplyStripeEvent of the old one and its invariants are kept |
| `ClerkWebhooks.BuildUserRecord` | server/controller/clerkWebhooks.js:24-29 | The record fails iff `email_addresses` is empty. Otherwise `_id` is `data.id`, the email is the first address and the image is `image_url`. The username is the first name, one space, then the last name, and both names can be read back from it |
| `ClerkWebhooks.ApplyClerkEvent` | server/controller/clerkWebhooks.js:17-56 | Failure leaves the store unchanged. Success happens iff the event is verified, has an email and is not a duplicate create. Create adds exactly the new id and keeps all other users. Update changes only that user's email, username and image; its role and cities are kept. Delete removes exactly that id and keeps all other users. An unknown type changes nothing |
| `ClerkWebhooks.CreateThenDeleteRestores` | server/controller/clerkWebhooks.js:34-45 | Deleting a user that a create just added restores the store |
| `ClerkWebhooks.UpdateIdempotent` | server/controller/clerkWebhooks.js:39-41 | Replaying an update event changes nothing further |
| `ClerkWebhooks.SecondCreateFails` | server/controller/clerkWebhooks.js:34-37 | A second create for a stored id fails and leaves the store unchanged |
| `ClerkWebhooks.UserStore.HandleClerkWebhook` | server/controller/clerkWebhooks.js:5-57 | The imperative switch. The new store and the success flag are exactly those of ApplyClerkEvent |

## Findings

| source | as written | input that shows it | evidently intended | confidence | as-written member | corrected member |
|---|---|---|---|---|---|---|
| server/controller/bookingController.js:92 | `Hotel.findOne` uses `Hotel`, which the file never imports (lines 1-2 import only `Booking` and `Room`). The ReferenceError is caught, so every call answers "Failed to fetch bookings" | an owner with hotel `h1` that has one booking priced 100 | look up the owner's hotel and return its count, revenue and bookings | high, not executed | `BookingEngine.GetHotelBookingsAsWritten` (shown by `BookingEngine.HotelLookupFinding`) | `BookingEngine.GetHotelBookings` |

## Left out

- HTTP routing, middleware, response envelopes beyond the success flag, logging, and the environment debug endpoint in server/server.js. These are plumbing.
- The signature checks, Stripe's `constructEvent` and svix's `verify`. They are cryptographic foreign calls, modelled as the boolean `verified`.
- The database driver. Queries are sequence and map operations. A failed availability query is the `queryOk` flag. Other driver failures are not modelled: a failed `Booking.create`, a failed `user.save()`, and a rejected `findByIdAndUpdate` in the Stripe handler, which has no catch.
- The race between the availability check and the insert. `createBooking` is modelled as atomic, and no double booking is proved only under that assumption.
- Date-string parsing and JavaScript float arithmetic. Dates are integer milliseconds, so an invalid date (NaN nights) is not modelled. Prices are exact reals.
- The coercion `+guests` from a request string. `guests` is already a number.
- `getUserBookings`. It queries available rooms rather than the user's bookings, so it has no intent to state.
- The `createdAt` timestamp. The ledger is in creation order, so sorting newest-first is modelled as reversing it.
- Mongo schema defaults. The defaults for a new user's role and recent cities are the parameter `defaults`, a `UserController.UserData`. A new booking's `paymentMethod` is `None`, meaning not set by the controller. The User and Booking models are not part of this model.
- In the user-sync webhook, missing or null names would show up as "undefined" or "null" in the username. Names are modelled as strings. A `data` that is missing altogether is not modelled either.
- The Stripe handler's lookup of a malformed id, which would raise a cast error. Any id that no booking carries changes nothing.
- `BookingEngine.GetHotelBookingsAsWritten` has no contract of its own. It models the ReferenceError path, which is reached for every input, and `BookingEngine.HotelLookupFinding` states what it does.
- How server/server.js mounts the user-sync handler. It sits behind a raw-body parser, so the handler would see a byte buffer rather than the parsed event. The model takes the parsed event (`eventType`, `data`) as its input, and the verification outcome is the `verified` flag.
