/**
 * The raw booking routes (src/routes/bookingRoutes.js). They work on the
 * `bookings` collection directly, bypassing BookingSchema: create, list,
 * status update and receipt. Identifiers from the URL are tried first as an
 * ObjectId, then as a raw string.
 */
module BookingRoutes {
  import opened Wrappers
  import opened Http
  import opened ObjectIds
  import opened Dates
  import opened Sorting
  import opened Timeslot
  import opened ServiceModel
  import opened BookingModel

  /** The request body of POST /api/bookings; a field the client left out is `None`. */
  datatype RawBookingRequest = RawBookingRequest(
    fullName: Option<string>,
    phone: Option<string>,
    address: Option<string>,
    carMake: Option<string>,
    carModel: Option<string>,
    carColor: Option<string>,
    timeslot: Option<string>,
    serviceId: Option<string>)

  /** The route's minimum check; carModel and carColor may be missing. */
  predicate HasRequiredFields(req: RawBookingRequest)
  {
    && Truthy(req.fullName)
    && Truthy(req.phone)
    && Truthy(req.address)
    && Truthy(req.carMake)
    && Truthy(req.timeslot)
    && Truthy(req.serviceId)
  }

  /** The body of a successful create: `{ ok: true, bookingId, booking }`. */
  datatype Created = Created(bookingId: DocId, booking: BookingDoc)

  /**
   * The document the route inserts: the client's fields, the address as
   * `locationAddress`, the timeslot text verbatim beside its parse, a snapshot
   * of the service, its price (0 when it has none) as the total, status
   * "pending". `newId` is the ObjectId the driver assigns on insertion.
   */
  function RawBookingDocument(req: RawBookingRequest, serviceId: ObjectId, svc: ServiceDoc,
                              now: int, newId: ObjectId): BookingDoc
    requires req.timeslot.Some?
  {
    Blank(Oid(newId)).(
      fullName := req.fullName,
      phone := req.phone,
      locationAddress := req.address,
      carMake := req.carMake,
      carModel := req.carModel,
      carColor := req.carColor,
      timeslotClientText := req.timeslot,
      scheduledAt := ParseTimeslot(req.timeslot.value),
      service := Some(Snapshot(serviceId, svc.name, svc.priceEUR, svc.durationMin)),
      totalPriceEUR := Some(svc.priceEUR.GetOr(0)),
      status := Some(Pending),
      createdAt := Some(now))
  }

  /** POST /api/bookings, as a function of the two collections. */
  function CreateRawOutcome(docs: seq<BookingDoc>, services: seq<ServiceDoc>, req: RawBookingRequest,
                            now: int, newId: ObjectId): Outcome<Created, BookingDoc>
  {
    if !HasRequiredFields(req) then Outcome(Fail(BadRequest, "Missing required fields"), docs)
    else match Cast(req.serviceId.value)
      case None => Outcome(Fail(BadRequest, "Invalid serviceId"), docs)
      case Some(serviceId) =>
        match FindById(services, Oid(serviceId))
        case None => Outcome(Fail(BadRequest, "Service not found"), docs)
        case Some(svc) =>
          var booking := RawBookingDocument(req, serviceId, svc, now, newId);
          if HasId(docs, booking.id) then Outcome(Fail(ServerError, "Server error"), docs)
          else Outcome(Json(Created(booking.id, booking)), docs + [booking])
  }

  method CreateRaw(bookings: BookingCollection, services: ServiceCollection, req: RawBookingRequest,
                   now: int, newId: ObjectId) returns (reply: Reply<Created>)
    requires bookings.Valid()
    modifies bookings
    ensures bookings.Valid()
    ensures Outcome(reply, bookings.docs) == CreateRawOutcome(old(bookings.docs), services.docs, req, now, newId)
  {
    if !HasRequiredFields(req) {
      return Fail(BadRequest, "Missing required fields");
    }
    var serviceObjId := Cast(req.serviceId.value);
    if serviceObjId.None? {
      return Fail(BadRequest, "Invalid serviceId");
    }
    var serviceDoc := FindById(services.docs, Oid(serviceObjId.value));
    if serviceDoc.None? {
      return Fail(BadRequest, "Service not found");
    }
    var booking := RawBookingDocument(req, serviceObjId.value, serviceDoc.value, now, newId);
    var inserted := bookings.InsertOne(booking);
    if !inserted {
      return Fail(ServerError, "Server error");
    }
    reply := Json(Created(booking.id, booking));
  }

  /** A missing or empty required field, and only that, gives 400 "Missing required fields"; nothing is inserted. */
  lemma MissingFieldsRejected(docs: seq<BookingDoc>, services: seq<ServiceDoc>, req: RawBookingRequest,
                              now: int, newId: ObjectId)
    ensures var out := CreateRawOutcome(docs, services, req, now, newId);
      (out.reply == Fail(400, "Missing required fields") <==> !HasRequiredFields(req))
      && (!HasRequiredFields(req) ==> out.docs == docs)
  {
  }

  /** carModel and carColor are optional: leaving them out changes whether the create succeeds in no case. */
  lemma CarModelAndColorOptional(docs: seq<BookingDoc>, services: seq<ServiceDoc>, req: RawBookingRequest,
                                 now: int, newId: ObjectId, carModel: Option<string>, carColor: Option<string>)
    ensures var req' := req.(carModel := carModel, carColor := carColor);
      var before := CreateRawOutcome(docs, services, req, now, newId);
      CreateRawOutcome(docs, services, req', now, newId).reply.Json? <==> before.reply.Json?
  {
  }

  /** An uncastable serviceId is 400 "Invalid serviceId"; a castable one with no service is 400 (not 404) "Service not found". */
  lemma ServiceIdErrors(docs: seq<BookingDoc>, services: seq<ServiceDoc>, req: RawBookingRequest,
                        now: int, newId: ObjectId)
    requires HasRequiredFields(req)
    ensures !IsObjectIdString(req.serviceId.value) ==>
      CreateRawOutcome(docs, services, req, now, newId) == Outcome(Fail(400, "Invalid serviceId"), docs)
    ensures forall o :: Cast(req.serviceId.value) == Some(o) && FindById(services, Oid(o)).None? ==>
      CreateRawOutcome(docs, services, req, now, newId) == Outcome(Fail(400, "Service not found"), docs)
  {
  }

  /**
   * A successful create adds exactly one document, at the end: status "pending",
   * the service's name, price and duration as snapshot, its price (or 0) as
   * total, the timeslot text verbatim and its parse as `scheduledAt`.
   */
  lemma RawCreateSuccess(docs: seq<BookingDoc>, services: seq<ServiceDoc>, req: RawBookingRequest,
                         now: int, newId: ObjectId)
    requires CreateRawOutcome(docs, services, req, now, newId).reply.Json?
    ensures var out := CreateRawOutcome(docs, services, req, now, newId);
      var b := out.reply.body.booking;
      var sid := Cast(req.serviceId.value).value;
      var svc := FindById(services, Oid(sid)).value;
      && HasRequiredFields(req)
      && out.docs == docs + [b]
      && out.reply.body.bookingId == b.id == Oid(newId)
      && b.status == Some("pending")
      && b.service == Some(Snapshot(sid, svc.name, svc.priceEUR, svc.durationMin))
      && b.totalPriceEUR == Some(svc.priceEUR.GetOr(0))
      && b.timeslotClientText == req.timeslot
      && b.scheduledAt == ParseTimeslot(req.timeslot.value)
      && b.locationAddress == req.address
  {
  }

  /** Every create leaves the collection unchanged or adds exactly one document. */
  lemma CreateAddsAtMostOne(docs: seq<BookingDoc>, services: seq<ServiceDoc>, req: RawBookingRequest,
                            now: int, newId: ObjectId)
    ensures var out := CreateRawOutcome(docs, services, req, now, newId);
      if out.reply.Json? then |out.docs| == |docs| + 1 && out.docs[..|docs|] == docs else out.docs == docs
  {
    var out := CreateRawOutcome(docs, services, req, now, newId);
    if out.reply.Json? {
      assert out.docs[..|docs|] == docs;
    }
  }

  /** A timeslot without a space does not block the booking: it is stored with a null date and its text verbatim. */
  /**
   * The raw route books exactly when the four required fields are present, the
   * serviceId is an ObjectId naming an existing service, and the fresh id is unused.
   */
  lemma RawCreateSucceedsIff(docs: seq<BookingDoc>, services: seq<ServiceDoc>, req: RawBookingRequest,
                             now: int, newId: ObjectId)
    ensures CreateRawOutcome(docs, services, req, now, newId).reply.Json?
        <==> && HasRequiredFields(req)
             && Cast(req.serviceId.value).Some?
             && FindById(services, Oid(Cast(req.serviceId.value).value)).Some?
             && !HasId(docs, Oid(newId))
  {
  }

  lemma UnparsedSlotStillBooks(docs: seq<BookingDoc>, services: seq<ServiceDoc>, req: RawBookingRequest,
                               now: int, newId: ObjectId)
    requires HasRequiredFields(req) && Cast(req.serviceId.value).Some?
    requires FindById(services, Oid(Cast(req.serviceId.value).value)).Some?
    requires !HasId(docs, Oid(newId))
    requires ' ' !in req.timeslot.value
    ensures var out := CreateRawOutcome(docs, services, req, now, newId);
      && out.reply.Json?
      && out.reply.body.booking.scheduledAt == None
      && out.reply.body.booking.timeslotClientText == req.timeslot
  {
    RawCreateSucceedsIff(docs, services, req, now, newId);
    NullIffNoSpace(req.timeslot.value);
  }

  /** The raw path writes documents that BookingSchema would refuse: they have no customer. */
  lemma RawDocumentBypassesSchema(req: RawBookingRequest, serviceId: ObjectId, svc: ServiceDoc, now: int, newId: ObjectId)
    requires req.timeslot.Some?
    ensures !BookingValid(RawBookingDocument(req, serviceId, svc, now, newId))
  {
  }

  /** GET /api/bookings: every booking, newest `createdAt` first. */
  function ListBookings(docs: seq<BookingDoc>): (r: seq<BookingDoc>)
    ensures multiset(r) == multiset(docs)
    ensures Sorted(r, NewerFirst)
  {
    NewerFirstIsTotalPreorder();
    SortBy(docs, NewerFirst)
  }

  /**
   * The key a URL id reaches: the cast ObjectId when a document has it,
   * otherwise the raw string when a document has that.
   */
  function MatchedKey(docs: seq<BookingDoc>, raw: string): (r: Option<DocId>)
    ensures r.Some? ==> HasId(docs, r.value) && r.value in Candidates(raw)
    ensures r.None? <==> forall k :: k in Candidates(raw) ==> !HasId(docs, k)
    ensures r.Some? && r.value.Str? ==> forall o :: Cast(raw) == Some(o) ==> !HasId(docs, Oid(o))
  {
    var objectId := Cast(raw);
    if objectId.Some? && HasId(docs, Oid(objectId.value)) then Some(Oid(objectId.value))
    else if HasId(docs, Str(raw)) then Some(Str(raw))
    else None
  }

  /** PATCH /api/bookings/:id/status: `$set` of the status and nothing else; the value is not checked against the enum. */
  function StatusUpdateOutcome(docs: seq<BookingDoc>, raw: string, status: Option<string>): Outcome<BookingDoc, BookingDoc>
  {
    if !Truthy(status) then Outcome(Fail(BadRequest, "Missing status"), docs)
    else match MatchedKey(docs, raw)
      case None => Outcome(Fail(NotFound, "Booking not found (after both tries)"), docs)
      case Some(key) =>
        Outcome(Json(Find(docs, key).value.(status := status)), SetStatus(docs, key, status.value))
  }

  /** Setting the status where no document has the key changes nothing. */
  lemma SetStatusMissing(docs: seq<BookingDoc>, key: DocId, status: string)
    requires !HasId(docs, key)
    ensures SetStatus(docs, key, status) == docs
  {
  }

  /** The updated document `findOneAndUpdate` returns is the old one with its new status. */
  lemma FindSetStatus(docs: seq<BookingDoc>, key: DocId, status: string)
    requires BookingModel.IdsUnique(docs) && HasId(docs, key)
    ensures Find(SetStatus(docs, key, status), key) == Some(Find(docs, key).value.(status := Some(status)))
  {
    var i :| 0 <= i < |docs| && docs[i].id == key;
    FindAt(docs, i);
    SetStatusKeepsIds(docs, key, status);
    FindAt(SetStatus(docs, key, status), i);
  }

  method UpdateStatus(bookings: BookingCollection, raw: string, status: Option<string>) returns (reply: Reply<BookingDoc>)
    requires bookings.Valid()
    modifies bookings
    ensures bookings.Valid()
    ensures Outcome(reply, bookings.docs) == StatusUpdateOutcome(old(bookings.docs), raw, status)
  {
    if !Truthy(status) {
      return Fail(BadRequest, "Missing status");
    }
    ghost var before := bookings.docs;
    var updated: Option<BookingDoc> := None;
    var objectId := Cast(raw);
    if objectId.Some? {
      updated := bookings.FindOneAndSetStatus(Oid(objectId.value), status.value);
      if updated.None? {
        SetStatusMissing(before, Oid(objectId.value), status.value);
      } else {
        FindSetStatus(before, Oid(objectId.value), status.value);
      }
    }
    if updated.None? {
      updated := bookings.FindOneAndSetStatus(Str(raw), status.value);
      if updated.None? {
        SetStatusMissing(before, Str(raw), status.value);
      } else {
        FindSetStatus(before, Str(raw), status.value);
      }
    }
    if updated.None? {
      return Fail(NotFound, "Booking not found (after both tries)");
    }
    reply := Json(updated.value);
  }

  /** A missing or empty status is 400, and nothing changes. */
  lemma MissingStatusRejected(docs: seq<BookingDoc>, raw: string, status: Option<string>)
    requires !Truthy(status)
    ensures StatusUpdateOutcome(docs, raw, status) == Outcome(Fail(400, "Missing status"), docs)
  {
  }

  /** 404 exactly when neither the ObjectId nor the raw string matches; nothing changes then. */
  lemma StatusUpdateNotFound(docs: seq<BookingDoc>, raw: string, status: Option<string>)
    requires Truthy(status)
    ensures var out := StatusUpdateOutcome(docs, raw, status);
      (out.reply.Fail? <==> forall k :: k in Candidates(raw) ==> !HasId(docs, k))
      && (out.reply.Fail? ==> out == Outcome(Fail(404, "Booking not found (after both tries)"), docs))
  {
  }

  /**
   * On success exactly one document changes, the one the identifier reaches, and
   * in it only `status`, set to the given string whatever it is.
   */
  lemma StatusUpdateChangesOnlyStatus(docs: seq<BookingDoc>, raw: string, status: Option<string>)
    requires BookingModel.IdsUnique(docs)
    requires StatusUpdateOutcome(docs, raw, status).reply.Json?
    ensures var out := StatusUpdateOutcome(docs, raw, status);
      exists i :: 0 <= i < |docs| && docs[i].id in Candidates(raw)
        && out.docs == docs[i := docs[i].(status := status)]
        && out.reply.body == out.docs[i]
  {
    var key := MatchedKey(docs, raw).value;
    var i :| 0 <= i < |docs| && docs[i].id == key;
    FindAt(docs, i);
    var out := StatusUpdateOutcome(docs, raw, status);
    assert out.docs == docs[i := docs[i].(status := status)];
  }

  /** A booking whose `_id` is a plain string is still reachable and updatable through that string. */
  lemma RawStringIdReachable(docs: seq<BookingDoc>, i: nat, status: string)
    requires BookingModel.IdsUnique(docs) && i < |docs| && docs[i].id.Str? && status != ""
    requires forall o :: Cast(docs[i].id.raw) == Some(o) ==> !HasId(docs, Oid(o))
    ensures StatusUpdateOutcome(docs, docs[i].id.raw, Some(status))
         == Outcome(Json(docs[i].(status := Some(status))), docs[i := docs[i].(status := Some(status))])
  {
    FindAt(docs, i);
    assert HasId(docs, Str(docs[i].id.raw));
  }

  /** When both an ObjectId and its rendering as a string are `_id`s, the ObjectId document is the one updated. */
  lemma ObjectIdTriedFirst(docs: seq<BookingDoc>, o: ObjectId, status: string)
    requires HasId(docs, Oid(o)) && HasId(docs, Str(o.hex)) && status != ""
    ensures StatusUpdateOutcome(docs, o.hex, Some(status)).docs == SetStatus(docs, Oid(o), status)
  {
    CastHex(o);
  }

  /** The receipt's client block. */
  datatype Contact = Contact(name: Option<string>, phone: Option<string>, address: Option<string>)

  /** The receipt's vehicle block. */
  datatype Vehicle = Vehicle(make: Option<string>, model: Option<string>, color: Option<string>)

  /** The receipt's service block. */
  datatype ServiceSummary = ServiceSummary(name: Option<string>, durationMin: Option<int>, priceEUR: Option<int>)

  /** The receipt's timeslot block. */
  datatype SlotSummary = SlotSummary(clientText: Option<string>, plannedDate: Option<DateValue>)

  datatype Receipt = Receipt(
    company: string,
    doneAt: string,
    bookingId: DocId,
    status: Option<string>,
    client: Contact,
    vehicle: Vehicle,
    service: ServiceSummary,
    timeslot: SlotSummary)

  const Company: string := "Carwash56"

  /** `booking.service?.name`: a snapshot has one; a reference, being an ObjectId, has none. */
  function SnapshotName(f: Option<ServiceField>): Option<string>
  {
    if f.Some? && f.value.Snapshot? then f.value.name else None
  }

  /** `booking.service?.durationMin`. */
  function SnapshotDuration(f: Option<ServiceField>): Option<int>
  {
    if f.Some? && f.value.Snapshot? then f.value.durationMin else None
  }

  /** The receipt object: a projection of the booking, dated `today` (the day of the request, YYYY-MM-DD). */
  function BuildReceipt(b: BookingDoc, today: string): Receipt
  {
    Receipt(
      Company,
      today,
      b.id,
      b.status,
      Contact(b.fullName, b.phone, b.locationAddress),
      Vehicle(b.carMake, b.carModel, b.carColor),
      ServiceSummary(SnapshotName(b.service), SnapshotDuration(b.service), b.totalPriceEUR),
      SlotSummary(b.timeslotClientText, b.scheduledAt))
  }

  /** The booking a URL id reaches, ObjectId first, raw string second. */
  function LookupWithFallback(docs: seq<BookingDoc>, raw: string): (r: Option<BookingDoc>)
    ensures r.Some? ==> r.value in docs && r.value.id in Candidates(raw)
    ensures r.None? <==> forall k :: k in Candidates(raw) ==> !HasId(docs, k)
    ensures r.Some? ==> MatchedKey(docs, raw).Some? && r.value.id == MatchedKey(docs, raw).value
  {
    match MatchedKey(docs, raw)
    case None => None
    case Some(key) => Find(docs, key)
  }

  /** When both an ObjectId-keyed and a string-keyed booking match, the receipt is the ObjectId one's. */
  lemma ReceiptObjectIdFirst(docs: seq<BookingDoc>, o: ObjectId)
    requires HasId(docs, Oid(o)) && HasId(docs, Str(o.hex))
    ensures LookupWithFallback(docs, o.hex).Some? && LookupWithFallback(docs, o.hex).value.id == Oid(o)
  {
    CastHex(o);
  }

  /** GET /api/bookings/:id/receipt. */
  function ReceiptOutcome(docs: seq<BookingDoc>, raw: string, today: string): Reply<Receipt>
  {
    match LookupWithFallback(docs, raw)
    case None => Fail(NotFound, "Booking not found")
    case Some(b) => Json(BuildReceipt(b, today))
  }

  /** Reads the collection and changes nothing: it has no `modifies` clause. */
  method GetReceipt(bookings: BookingCollection, raw: string, today: string) returns (reply: Reply<Receipt>)
    ensures reply == ReceiptOutcome(bookings.docs, raw, today)
    ensures reply.Fail? <==> forall k :: k in Candidates(raw) ==> !HasId(bookings.docs, k)
    ensures reply.Json? ==> reply.body.company == "Carwash56" && reply.body.doneAt == today
  {
    var objectId := Cast(raw);
    var booking: Option<BookingDoc> := None;
    if objectId.Some? {
      booking := Find(bookings.docs, Oid(objectId.value));
    }
    if booking.None? {
      booking := Find(bookings.docs, Str(raw));
    }
    if booking.None? {
      return Fail(NotFound, "Booking not found");
    }
    reply := Json(BuildReceipt(booking.value, today));
  }

  /**
   * The receipt copies the client, vehicle and timeslot fields, takes the
   * service name and duration from the snapshot and the price from
   * `totalPriceEUR`, and names the company.
   */
  lemma ReceiptProjection(docs: seq<BookingDoc>, raw: string, today: string)
    requires LookupWithFallback(docs, raw).Some?
    ensures var b := LookupWithFallback(docs, raw).value;
      var r := ReceiptOutcome(docs, raw, today);
      && r.Json?
      && b in docs
      && r.body.company == "Carwash56"
      && r.body.bookingId == b.id && r.body.status == b.status
      && r.body.client == Contact(b.fullName, b.phone, b.locationAddress)
      && r.body.vehicle == Vehicle(b.carMake, b.carModel, b.carColor)
      && r.body.service.priceEUR == b.totalPriceEUR
      && (b.service.Some? && b.service.value.Snapshot? ==>
            r.body.service.name == b.service.value.name && r.body.service.durationMin == b.service.value.durationMin)
      && r.body.timeslot == SlotSummary(b.timeslotClientText, b.scheduledAt)
  {
  }

  /** A booking written through the schema holds a service reference, so its receipt has no service name or duration. */
  lemma SchemaBookingReceiptHasNoServiceName(b: BookingDoc, today: string)
    requires BookingValid(b)
    ensures BuildReceipt(b, today).service.name == None && BuildReceipt(b, today).service.durationMin == None
  {
  }

  /**
   * Round trip: the receipt of a booking just created, looked up by the
   * rendering of its new id, carries the service snapshot and price taken at
   * creation and the client's timeslot text.
   */
  lemma ReceiptAfterCreate(docs: seq<BookingDoc>, services: seq<ServiceDoc>, req: RawBookingRequest,
                           now: int, newId: ObjectId, today: string)
    requires BookingModel.IdsUnique(docs)
    requires CreateRawOutcome(docs, services, req, now, newId).reply.Json?
    ensures var out := CreateRawOutcome(docs, services, req, now, newId);
      var svc := FindById(services, Oid(Cast(req.serviceId.value).value)).value;
      var r := ReceiptOutcome(out.docs, newId.hex, today);
      && r.Json?
      && r.body.bookingId == Oid(newId)
      && r.body.status == Some("pending")
      && r.body.service == ServiceSummary(svc.name, svc.durationMin, Some(svc.priceEUR.GetOr(0)))
      && r.body.timeslot.clientText == req.timeslot
      && r.body.client == Contact(req.fullName, req.phone, req.address)
  {
    var out := CreateRawOutcome(docs, services, req, now, newId);
    var b := out.reply.body.booking;
    assert out.docs == docs + [b];
    assert BookingModel.IdsUnique(out.docs);
    CandidatesOfHex(newId);
    assert out.docs[|docs|] == b;
    FindAt(out.docs, |docs|);
    assert MatchedKey(out.docs, newId.hex) == Some(Oid(newId));
  }

  /** A later status change leaves every snapshot and price as it was at creation. */
  lemma StatusUpdateKeepsSnapshots(docs: seq<BookingDoc>, raw: string, status: Option<string>, i: nat)
    requires i < |docs|
    ensures var after := StatusUpdateOutcome(docs, raw, status).docs;
      |after| == |docs| && after[i].service == docs[i].service && after[i].totalPriceEUR == docs[i].totalPriceEUR
  {
  }
}
