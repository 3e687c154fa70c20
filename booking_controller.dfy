/**
 * The schema-path booking handlers (src/controllers/bookingController.js):
 * `createBooking` goes through BookingSchema's casts and validators, the two
 * listings are filter-and-sort queries.
 */
module BookingController {
  import opened Wrappers
  import opened Http
  import opened ObjectIds
  import opened Dates
  import opened Sorting
  import opened Crypto
  import opened BookingModel

  /**
   * The request body. `customer`, `status` and `paymentStatus` are what a
   * client may send besides the fields the handler reads; it ignores them.
   * `scheduledAt` is the body's value after mongoose's Date cast.
   */
  datatype BookingBody = BookingBody(
    serviceId: Option<string>,
    carMake: Option<string>,
    carModel: Option<string>,
    carColor: Option<string>,
    address: Option<string>,
    notes: Option<string>,
    scheduledAt: Option<DateValue>,
    totalPriceEUR: Option<int>,
    customer: Option<string>,
    status: Option<string>,
    paymentStatus: Option<string>)

  /** mongoose's ObjectId cast of the `service` path; an uncastable id leaves it empty and fails validation. */
  function ServiceRefOf(serviceId: Option<string>): (r: Option<ServiceField>)
    ensures r.Some? <==> serviceId.Some? && IsObjectIdString(serviceId.value)
    ensures r.Some? ==> r.value == ServiceRef(Cast(serviceId.value).value)
  {
    if serviceId.Some? && Cast(serviceId.value).Some? then Some(ServiceRef(Cast(serviceId.value).value)) else None
  }

  /**
   * The document `Booking.create` builds: the caller as customer, the body's
   * fields under the schema's names, the two fixed initial statuses and both
   * timestamps at `now`.
   */
  function ModelBookingDocument(caller: Claims, body: BookingBody, now: int, newId: ObjectId): BookingDoc
  {
    Blank(Oid(newId)).(
      customer := Cast(caller.id),
      service := ServiceRefOf(body.serviceId),
      carMake := body.carMake,
      carModel := body.carModel,
      carColor := body.carColor,
      locationAddress := body.address,
      locationNotes := body.notes,
      scheduledAt := body.scheduledAt,
      totalPriceEUR := body.totalPriceEUR,
      status := Some(Pending),
      paymentStatus := Some(Unpaid),
      createdAt := Some(now),
      updatedAt := Some(now))
  }

  const CreateError: string := "Erreur création réservation"

  /** `createBooking`: a validation, cast or insertion failure is 500 and stores nothing. */
  function CreateBookingOutcome(docs: seq<BookingDoc>, caller: Claims, body: BookingBody,
                                now: int, newId: ObjectId): Outcome<BookingDoc, BookingDoc>
  {
    var booking := ModelBookingDocument(caller, body, now, newId);
    if !BookingValid(booking) || HasId(docs, booking.id) then Outcome(Fail(ServerError, CreateError), docs)
    else Outcome(Json(booking), docs + [booking])
  }

  method CreateBooking(bookings: BookingCollection, caller: Claims, body: BookingBody,
                       now: int, newId: ObjectId) returns (reply: Reply<BookingDoc>)
    requires bookings.Valid()
    modifies bookings
    ensures bookings.Valid()
    ensures Outcome(reply, bookings.docs) == CreateBookingOutcome(old(bookings.docs), caller, body, now, newId)
  {
    var newBooking := ModelBookingDocument(caller, body, now, newId);
    if !BookingValid(newBooking) {
      return Fail(ServerError, CreateError);
    }
    var inserted := bookings.InsertOne(newBooking);
    if !inserted {
      return Fail(ServerError, CreateError);
    }
    reply := Json(newBooking);
  }

  /**
   * A create succeeds exactly when the caller's id and the service id are
   * ObjectIds, carMake, carModel and address are non-empty, the date and
   * price are given and the new `_id` is free; otherwise it is 500 and the
   * collection is unchanged. On success exactly that one document is added.
   */
  lemma CreateBookingSucceedsIff(docs: seq<BookingDoc>, caller: Claims, body: BookingBody, now: int, newId: ObjectId)
    ensures var out := CreateBookingOutcome(docs, caller, body, now, newId);
      var accepted :=
        && IsObjectIdString(caller.id)
        && body.serviceId.Some? && IsObjectIdString(body.serviceId.value)
        && Truthy(body.carMake) && Truthy(body.carModel) && Truthy(body.address)
        && body.scheduledAt.Some? && body.scheduledAt.value.Calendar?
        && body.totalPriceEUR.Some?
        && !HasId(docs, Oid(newId));
      && (out.reply.Json? <==> accepted)
      && (out.reply.Fail? ==> out == Outcome(Fail(500, "Erreur création réservation"), docs))
      && (out.reply.Json? ==> out.docs == docs + [out.reply.body])
  {
  }

  /** The customer is the authenticated caller, whatever the body says. */
  lemma CustomerIsCaller(docs: seq<BookingDoc>, caller: Claims, body: BookingBody, now: int, newId: ObjectId)
    requires CreateBookingOutcome(docs, caller, body, now, newId).reply.Json?
    ensures CreateBookingOutcome(docs, caller, body, now, newId).reply.body.customer == Cast(caller.id)
    ensures Cast(caller.id).Some?
  {
  }

  /** The body's `customer`, `status` and `paymentStatus` have no effect on the outcome. */
  lemma BodyCannotChooseOwnerOrStatus(docs: seq<BookingDoc>, caller: Claims, body: BookingBody, now: int, newId: ObjectId,
                                      customer: Option<string>, status: Option<string>, paymentStatus: Option<string>)
    ensures var body' := body.(customer := customer, status := status, paymentStatus := paymentStatus);
      CreateBookingOutcome(docs, caller, body', now, newId) == CreateBookingOutcome(docs, caller, body, now, newId)
  {
  }

  /** A created booking starts "pending" and "unpaid", with both timestamps at the time of creation. */
  lemma InitialStatuses(docs: seq<BookingDoc>, caller: Claims, body: BookingBody, now: int, newId: ObjectId)
    requires CreateBookingOutcome(docs, caller, body, now, newId).reply.Json?
    ensures var b := CreateBookingOutcome(docs, caller, body, now, newId).reply.body;
      b.status == Some("pending") && b.paymentStatus == Some("unpaid")
      && b.createdAt == Some(now) && b.updatedAt == Some(now)
  {
  }

  /**
   * The price and date are the body's, unchanged (not computed from the
   * service); `address` is stored as `locationAddress`, `notes` as
   * `locationNotes`, and the service as a reference to the given id.
   */
  lemma BodyFieldsCopied(docs: seq<BookingDoc>, caller: Claims, body: BookingBody, now: int, newId: ObjectId)
    requires CreateBookingOutcome(docs, caller, body, now, newId).reply.Json?
    ensures var b := CreateBookingOutcome(docs, caller, body, now, newId).reply.body;
      && b.totalPriceEUR == body.totalPriceEUR
      && b.scheduledAt == body.scheduledAt
      && b.locationAddress == body.address
      && b.locationNotes == body.notes
      && b.carMake == body.carMake && b.carModel == body.carModel && b.carColor == body.carColor
      && b.service == Some(ServiceRef(Cast(body.serviceId.value).value))
  {
  }

  /** `getMyBookings`: the caller's bookings, newest first; an id that is no ObjectId makes the query throw (no reply). */
  function MyBookings(docs: seq<BookingDoc>, callerId: string): (r: Option<seq<BookingDoc>>)
    ensures r.Some? <==> IsObjectIdString(callerId)
  {
    match Cast(callerId)
    case None => None
    case Some(owner) =>
      NewerFirstIsTotalPreorder();
      Some(SortBy(Filter(docs, (d: BookingDoc) => d.customer == Some(owner)), NewerFirst))
  }

  /** Exactly the caller's bookings, each as many times as stored, newest `createdAt` first. */
  lemma MyBookingsExactlyMine(docs: seq<BookingDoc>, owner: ObjectId)
    ensures var r := MyBookings(docs, owner.hex);
      && r.Some?
      && Sorted(r.value, NewerFirst)
      && (forall d :: multiset(r.value)[d] == if d.customer == Some(owner) then multiset(docs)[d] else 0)
      && (forall d :: d in r.value <==> d in docs && d.customer == Some(owner))
  {
    CastHex(owner);
    var r := MyBookings(docs, owner.hex).value;
    var mine := Filter(docs, (d: BookingDoc) => d.customer == Some(owner));
    assert multiset(r) == multiset(mine);
    forall d ensures d in r <==> d in docs && d.customer == Some(owner) {
      assert d in r <==> d in multiset(r);
      assert d in docs <==> d in multiset(docs);
    }
  }

  /** A booking made through the raw route has no customer, so it is in nobody's list. */
  lemma RawBookingsInNoOnesList(docs: seq<BookingDoc>, callerId: string, d: BookingDoc)
    requires d.customer.None?
    ensures MyBookings(docs, callerId).Some? ==> d !in MyBookings(docs, callerId).value
  {
    if Cast(callerId).Some? {
      var owner := Cast(callerId).value;
      var mine := Filter(docs, (b: BookingDoc) => b.customer == Some(owner));
      assert multiset(mine)[d] == 0;
      assert multiset(MyBookings(docs, callerId).value)[d] == 0;
    }
  }

  /** `listAllBookings`: every booking, earliest `scheduledAt` first. */
  function AllBookings(docs: seq<BookingDoc>): (r: seq<BookingDoc>)
    ensures multiset(r) == multiset(docs)
    ensures Sorted(r, SoonerFirst)
  {
    SoonerFirstIsTotalPreorder();
    SortBy(docs, SoonerFirst)
  }
}
