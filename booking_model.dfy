/**
 * The `bookings` collection and `BookingSchema` (src/models/Booking.js).
 *
 * Two write paths share the collection: the schema path stores `customer` and
 * `service` as references, the raw route stores the client's name, phone and
 * timeslot text and an embedded snapshot of the service. A document is
 * therefore a flat record in which every field may be missing.
 */
module BookingModel {
  import opened Wrappers
  import opened ObjectIds
  import opened Dates
  import opened Sorting

  const Statuses: seq<string> := ["pending", "assigned", "in_progress", "done", "canceled"]
  const PaymentStatuses: seq<string> := ["unpaid", "paid", "refunded"]
  const Pending: string := "pending"
  const Unpaid: string := "unpaid"

  /** The `service` field: a reference (schema path) or an embedded snapshot (raw path). */
  datatype ServiceField =
    | ServiceRef(ref: ObjectId)
    | Snapshot(serviceId: ObjectId, name: Option<string>, priceEUR: Option<int>, durationMin: Option<int>)

  datatype BookingDoc = BookingDoc(
    id: DocId,
    fullName: Option<string>,
    phone: Option<string>,
    customer: Option<ObjectId>,
    service: Option<ServiceField>,
    carMake: Option<string>,
    carModel: Option<string>,
    carColor: Option<string>,
    locationAddress: Option<string>,
    locationNotes: Option<string>,
    timeslotClientText: Option<string>,
    scheduledAt: Option<DateValue>,
    status: Option<string>,
    assignedWasher: Option<ObjectId>,
    totalPriceEUR: Option<int>,
    paymentStatus: Option<string>,
    paymentIntentId: Option<string>,
    createdAt: Option<int>,
    updatedAt: Option<int>)

  /** A document holding nothing but its `_id`. */
  function Blank(id: DocId): BookingDoc
  {
    BookingDoc(id, None, None, None, None, None, None, None, None, None, None, None, None, None, None, None, None, None, None)
  }

  /** The schema defaults: status "pending", paymentStatus "unpaid". */
  function WithDefaults(d: BookingDoc): BookingDoc
  {
    d.(status := Some(d.status.GetOr(Pending)), paymentStatus := Some(d.paymentStatus.GetOr(Unpaid)))
  }

  /** An enum path accepts a missing value or one of its values. */
  predicate InEnum(v: Option<string>, values: seq<string>)
  {
    v.None? || v.value in values
  }

  /**
   * BookingSchema's validators. customer, service, carMake, carModel,
   * locationAddress, scheduledAt and totalPriceEUR are required (a service
   * snapshot is not an ObjectId and fails the cast; an invalid date fails the
   * Date cast); status and paymentStatus must lie in their enums. carColor,
   * locationNotes, assignedWasher and paymentIntentId are optional.
   */
  predicate BookingValid(d: BookingDoc)
  {
    && d.customer.Some?
    && d.service.Some? && d.service.value.ServiceRef?
    && Truthy(d.carMake)
    && Truthy(d.carModel)
    && Truthy(d.locationAddress)
    && d.scheduledAt.Some? && d.scheduledAt.value.Calendar?
    && d.totalPriceEUR.Some?
    && InEnum(d.status, Statuses)
    && InEnum(d.paymentStatus, PaymentStatuses)
  }

  /** Once defaults apply, a document validates iff its required fields are there and its given enum values are allowed. */
  lemma DefaultsSatisfyEnums(d: BookingDoc)
    ensures WithDefaults(d).status == Some(d.status.GetOr("pending"))
    ensures WithDefaults(d).paymentStatus == Some(d.paymentStatus.GetOr("unpaid"))
    ensures BookingValid(WithDefaults(d)) <==> BookingValid(d)
  {
  }

  /** The optional fields do not affect validity. */
  lemma OptionalFields(d: BookingDoc, carColor: Option<string>, locationNotes: Option<string>,
                       assignedWasher: Option<ObjectId>, paymentIntentId: Option<string>)
    ensures var e := d.(carColor := carColor, locationNotes := locationNotes,
                        assignedWasher := assignedWasher, paymentIntentId := paymentIntentId);
            BookingValid(e) <==> BookingValid(d)
  {
  }

  /** A status outside the enum is refused by the schema. */
  lemma StatusOutsideEnumInvalid(d: BookingDoc, status: string)
    requires status !in Statuses
    ensures !BookingValid(d.(status := Some(status)))
  {
  }

  predicate IdsUnique(docs: seq<BookingDoc>)
  {
    forall i, j :: 0 <= i < j < |docs| ==> docs[i].id != docs[j].id
  }

  predicate HasId(docs: seq<BookingDoc>, key: DocId)
  {
    exists i :: 0 <= i < |docs| && docs[i].id == key
  }

  /** `findOne({ _id: key })`. MongoDB matches an ObjectId key only against ObjectIds and a string only against strings. */
  function Find(docs: seq<BookingDoc>, key: DocId): (r: Option<BookingDoc>)
    ensures r.Some? <==> HasId(docs, key)
    ensures r.Some? ==> r.value in docs && r.value.id == key
  {
    if |docs| == 0 then None
    else if docs[0].id == key then Some(docs[0])
    else
      assert forall i :: 1 <= i < |docs| ==> docs[i] == docs[1..][i - 1];
      Find(docs[1..], key)
  }

  /** With unique ids, `Find` returns the document at the position holding the key. */
  lemma FindAt(docs: seq<BookingDoc>, i: nat)
    requires IdsUnique(docs) && i < |docs|
    ensures Find(docs, docs[i].id) == Some(docs[i])
  {
    if i > 0 {
      assert IdsUnique(docs[1..]);
      FindAt(docs[1..], i - 1);
    }
  }

  /** `$set: { status }` on the document whose `_id` is `key`; every other document and field stays. */
  function SetStatus(docs: seq<BookingDoc>, key: DocId, status: string): (r: seq<BookingDoc>)
    ensures |r| == |docs|
    ensures forall i :: 0 <= i < |docs| ==> r[i] == (if docs[i].id == key then docs[i].(status := Some(status)) else docs[i])
  {
    seq(|docs|, i requires 0 <= i < |docs| => if docs[i].id == key then docs[i].(status := Some(status)) else docs[i])
  }

  /** Setting a status keeps each document's `_id`, hence their uniqueness. */
  lemma SetStatusKeepsIds(docs: seq<BookingDoc>, key: DocId, status: string)
    ensures forall i :: 0 <= i < |docs| ==> SetStatus(docs, key, status)[i].id == docs[i].id
    ensures IdsUnique(docs) ==> IdsUnique(SetStatus(docs, key, status))
    ensures HasId(SetStatus(docs, key, status), key) <==> HasId(docs, key)
  {
    var r := SetStatus(docs, key, status);
    if HasId(docs, key) {
      var i :| 0 <= i < |docs| && docs[i].id == key;
      assert r[i].id == key;
    }
  }

  /** Descending `createdAt`: newest first, documents without it last. */
  predicate NewerFirst(a: BookingDoc, b: BookingDoc)
  {
    NullsFirst(b.createdAt, a.createdAt)
  }

  /** Ascending `scheduledAt`. */
  predicate SoonerFirst(a: BookingDoc, b: BookingDoc)
  {
    DateFieldLeq(a.scheduledAt, b.scheduledAt)
  }

  lemma NewerFirstIsTotalPreorder()
    ensures TotalPreorder(NewerFirst)
  {
  }

  lemma SoonerFirstIsTotalPreorder()
    ensures TotalPreorder(SoonerFirst)
  {
    DateFieldLeqIsTotalPreorder();
    forall a: BookingDoc, b: BookingDoc, c: BookingDoc | SoonerFirst(a, b) && SoonerFirst(b, c)
      ensures SoonerFirst(a, c)
    {
      assert DateFieldLeq(a.scheduledAt, b.scheduledAt) && DateFieldLeq(b.scheduledAt, c.scheduledAt);
    }
    forall a: BookingDoc, b: BookingDoc ensures SoonerFirst(a, b) || SoonerFirst(b, a) {
      assert DateFieldLeq(a.scheduledAt, b.scheduledAt) || DateFieldLeq(b.scheduledAt, a.scheduledAt);
    }
  }

  class BookingCollection {
    var docs: seq<BookingDoc>

    /** MongoDB's unique index on `_id`. */
    predicate Valid()
      reads this
    {
      IdsUnique(docs)
    }

    constructor ()
      ensures Valid() && docs == []
    {
      docs := [];
    }

    /** `insertOne`: refused with a duplicate-key error when the `_id` is taken. */
    method InsertOne(d: BookingDoc) returns (ok: bool)
      requires Valid()
      modifies this
      ensures Valid()
      ensures ok == !HasId(old(docs), d.id)
      ensures docs == if ok then old(docs) + [d] else old(docs)
    {
      ok := !HasId(docs, d.id);
      if ok {
        docs := docs + [d];
      }
    }

    /**
     * `findOneAndUpdate({ _id: key }, { $set: { status } }, { returnDocument: "after" })`:
     * the updated document, or `None` when no document has that `_id`.
     */
    method FindOneAndSetStatus(key: DocId, status: string) returns (after: Option<BookingDoc>)
      requires Valid()
      modifies this
      ensures Valid()
      ensures docs == SetStatus(old(docs), key, status)
      ensures after == Find(docs, key)
      ensures after.Some? <==> HasId(old(docs), key)
    {
      SetStatusKeepsIds(docs, key, status);
      docs := SetStatus(docs, key, status);
      after := Find(docs, key);
    }
  }
}
