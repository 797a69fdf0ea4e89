/**
 * server/controller/stripeWebhooks.js: after the signature check, a
 * `checkout.session.completed` event whose metadata carries a booking id
 * marks that booking as paid by Stripe. The signature check is a foreign
 * call and is given as the boolean `verified`.
 */
module StripeWebhooks {
  import opened Common
  import opened BookingEngine

  /** The event type the handler acts on. */
  const CheckoutCompleted: string := "checkout.session.completed"

  /** The payment method written on a paid booking. */
  const StripeMethod: string := "Stripe"

  /** A verified event: its type and `session.metadata?.bookingId`. */
  datatype StripeEvent = StripeEvent(eventType: string, bookingId: Option<string>)

  /** The handler's answer: status 400 for a bad signature, otherwise
      `{received: true}`. */
  datatype StripeReply = SignatureRejected | Received

  /** A booking after the payment update. */
  function PaidByStripe(b: Booking): Booking
  {
    b.(isPaid := true, paymentMethod := Some(StripeMethod))
  }

  /** `Booking.findByIdAndUpdate(id, {isPaid: true, paymentMethod: 'Stripe'})`
      over the ledger. */
  function MarkPaid(ledger: seq<Booking>, id: BookingId): (r: seq<Booking>)
    ensures |r| == |ledger|
    ensures forall i :: 0 <= i < |ledger| ==>
              r[i] == if ledger[i].id == id then PaidByStripe(ledger[i]) else ledger[i]
  {
    if ledger == [] then []
    else [if ledger[0].id == id then PaidByStripe(ledger[0]) else ledger[0]] + MarkPaid(ledger[1..], id)
  }

  /** Marking a booking paid twice is the same as marking it once. */
  lemma MarkPaidIdempotent(ledger: seq<Booking>, id: BookingId)
    ensures MarkPaid(MarkPaid(ledger, id), id) == MarkPaid(ledger, id)
  {
    var once := MarkPaid(ledger, id);
    var twice := MarkPaid(once, id);
    forall i | 0 <= i < |ledger| ensures twice[i] == once[i] {
      assert once[i].id == ledger[i].id;
    }
  }

  /** An id that no booking carries changes nothing. */
  lemma MarkPaidUnknownId(ledger: seq<Booking>, id: BookingId)
    requires forall b :: b in ledger ==> b.id != id
    ensures MarkPaid(ledger, id) == ledger
  {
    var r := MarkPaid(ledger, id);
    forall i | 0 <= i < |ledger| ensures r[i] == ledger[i] {
      assert ledger[i] in ledger;
    }
  }

  /** Only the payment fields change: ids, guests, rooms, hotels, dates and
      prices are as before, so the ledger's invariants still hold. */
  lemma MarkPaidKeepsInvariants(ledger: seq<Booking>, id: BookingId)
    requires UniqueIds(ledger) && NoDoubleBooking(ledger)
    ensures UniqueIds(MarkPaid(ledger, id)) && NoDoubleBooking(MarkPaid(ledger, id))
  {
    var r := MarkPaid(ledger, id);
    forall i, j | 0 <= i < j < |r| ensures r[i].id != r[j].id && !Clash(r[i], r[j]) {
      assert !Clash(ledger[i], ledger[j]);
    }
  }

  /** With distinct ids, at most one booking changes, and it is the one with
      the given id. */
  lemma MarkPaidChangesAtMostOne(ledger: seq<Booking>, id: BookingId, i: int, j: int)
    requires UniqueIds(ledger)
    requires 0 <= i < |ledger| && 0 <= j < |ledger|
    requires MarkPaid(ledger, id)[i] != ledger[i] && MarkPaid(ledger, id)[j] != ledger[j]
    ensures i == j && ledger[i].id == id
  {
    assert ledger[i].id == id && ledger[j].id == id;
  }

  /** A payment never changes any hotel's dashboard totals: revenue counts
      paid and unpaid bookings alike. */
  lemma {:induction false} MarkPaidKeepsTotals(ledger: seq<Booking>, id: BookingId, h: HotelId)
    ensures CountFor(MarkPaid(ledger, id), h) == CountFor(ledger, h)
    ensures RevenueFor(MarkPaid(ledger, id), h) == RevenueFor(ledger, h)
  {
    if ledger != [] {
      var r := MarkPaid(ledger, id);
      assert r[1..] == MarkPaid(ledger[1..], id);
      MarkPaidKeepsTotals(ledger[1..], id, h);
    }
  }

  /** The handler's effect on the ledger. */
  function ApplyStripeEvent(ledger: seq<Booking>, verified: bool, event: StripeEvent): (r: seq<Booking>)
    ensures !verified || event.eventType != CheckoutCompleted || !Truthy(event.bookingId) ==> r == ledger
    ensures |r| == |ledger|
    ensures forall i :: 0 <= i < |ledger| ==>
              r[i] == if verified && event.eventType == CheckoutCompleted && Truthy(event.bookingId)
                         && ledger[i].id == event.bookingId.value
                      then PaidByStripe(ledger[i]) else ledger[i]
  {
    if verified && event.eventType == CheckoutCompleted && Truthy(event.bookingId)
    then MarkPaid(ledger, event.bookingId.value)
    else ledger
  }

  /** A redelivered event leaves the ledger as the first delivery left it. */
  lemma StripeEventIdempotent(ledger: seq<Booking>, verified: bool, event: StripeEvent)
    ensures ApplyStripeEvent(ApplyStripeEvent(ledger, verified, event), verified, event)
         == ApplyStripeEvent(ledger, verified, event)
  {
    if verified && event.eventType == CheckoutCompleted && Truthy(event.bookingId) {
      MarkPaidIdempotent(ledger, event.bookingId.value);
    }
  }

  /** `stripeWebhooks` on the bookings collection. */
  method HandleStripeWebhook(ledger: Ledger, verified: bool, event: StripeEvent) returns (reply: StripeReply)
    requires ledger.Valid()
    modifies ledger
    ensures ledger.Valid()
    ensures reply == if verified then Received else SignatureRejected
    ensures ledger.bookings == ApplyStripeEvent(old(ledger.bookings), verified, event)
  {
    if !verified {
      return SignatureRejected;
    }
    if event.eventType == CheckoutCompleted {
      var bookingId := event.bookingId;
      if Truthy(bookingId) {
        MarkPaidKeepsInvariants(ledger.bookings, bookingId.value);
        ledger.bookings := MarkPaid(ledger.bookings, bookingId.value);
      }
    }
    reply := Received;
  }
}
