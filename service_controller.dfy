/** The catalog handlers (src/controllers/serviceController.js). */
module ServiceController {
  import opened Wrappers
  import opened Http
  import opened ObjectIds
  import opened Sorting
  import opened ServiceModel

  /** The request body; `active` is what a client may send besides the four fields read, and is ignored. */
  datatype ServiceBody = ServiceBody(
    name: Option<string>,
    description: Option<string>,
    priceEUR: Option<int>,
    durationMin: Option<int>,
    active: Option<bool>)

  /** `{ priceEUR: 1 }`: cheapest first, a service without a price before all others. */
  predicate CheaperFirst(a: ServiceDoc, b: ServiceDoc)
  {
    NullsFirst(a.priceEUR, b.priceEUR)
  }

  lemma CheaperFirstIsTotalPreorder()
    ensures TotalPreorder(CheaperFirst)
  {
    NullsFirstIsTotalPreorder();
  }

  /** `find({ active: true })` matches a stored `true` only; a document without the field is not listed. */
  predicate Listed(s: ServiceDoc)
  {
    s.active == Some(true)
  }

  /** `listServices`: the active services, cheapest first. */
  function ListServices(docs: seq<ServiceDoc>): seq<ServiceDoc>
  {
    CheaperFirstIsTotalPreorder();
    SortBy(Filter(docs, Listed), CheaperFirst)
  }

  /** The listing holds every active service, as many times as stored, and nothing else, in ascending price order. */
  lemma ListServicesExact(docs: seq<ServiceDoc>)
    ensures var r := ListServices(docs);
      && Sorted(r, CheaperFirst)
      && (forall s :: multiset(r)[s] == if s.active == Some(true) then multiset(docs)[s] else 0)
      && (forall s :: s in r <==> s in docs && s.active == Some(true))
  {
    var r := ListServices(docs);
    assert multiset(r) == multiset(Filter(docs, Listed));
    forall s ensures s in r <==> s in docs && s.active == Some(true) {
      assert s in r <==> s in multiset(r);
      assert s in docs <==> s in multiset(docs);
    }
  }

  /** The document `Service.create` builds: the body's four fields, always active, both timestamps at `now`. */
  function NewServiceDocument(body: ServiceBody, now: int, newId: ObjectId): ServiceDoc
  {
    ServiceDoc(Oid(newId), body.name, body.description, body.priceEUR, body.durationMin, Some(true), Some(now), Some(now))
  }

  /** `createService`: a validation or insertion failure is 500 and stores nothing. */
  function CreateServiceOutcome(docs: seq<ServiceDoc>, body: ServiceBody, now: int, newId: ObjectId): Outcome<ServiceDoc, ServiceDoc>
  {
    var svc := NewServiceDocument(body, now, newId);
    if !ServiceValid(svc) || !Insertable(docs, svc) then Outcome(Fail(ServerError, "Cannot create service"), docs)
    else Outcome(Json(svc), docs + [svc])
  }

  method CreateService(services: ServiceCollection, body: ServiceBody, now: int, newId: ObjectId) returns (reply: Reply<ServiceDoc>)
    requires services.Valid()
    modifies services
    ensures services.Valid()
    ensures Outcome(reply, services.docs) == CreateServiceOutcome(old(services.docs), body, now, newId)
  {
    var svc := NewServiceDocument(body, now, newId);
    if !ServiceValid(svc) {
      return Fail(ServerError, "Cannot create service");
    }
    var inserted := services.Insert(svc);
    if !inserted {
      return Fail(ServerError, "Cannot create service");
    }
    reply := Json(svc);
  }

  /**
   * A create succeeds exactly when name and description are non-empty, price
   * and duration are given, and the new `_id` is free. The stored service is
   * active whatever the body says and carries the body's four fields;
   * otherwise the reply is 500 and nothing is stored.
   */
  lemma CreateServiceSucceedsIff(docs: seq<ServiceDoc>, body: ServiceBody, now: int, newId: ObjectId)
    ensures var out := CreateServiceOutcome(docs, body, now, newId);
      var accepted := Truthy(body.name) && Truthy(body.description) && body.priceEUR.Some? && body.durationMin.Some?
        && forall i :: 0 <= i < |docs| ==> docs[i].id != Oid(newId);
      && (out.reply.Json? <==> accepted)
      && (out.reply.Fail? ==> out == Outcome(Fail(500, "Cannot create service"), docs))
      && (out.reply.Json? ==>
            var s := out.reply.body;
            && out.docs == docs + [s]
            && s.active == Some(true)
            && s.name == body.name && s.description == body.description
            && s.priceEUR == body.priceEUR && s.durationMin == body.durationMin
            && s.createdAt == Some(now) && s.updatedAt == Some(now))
  {
  }

  /** A service just created shows in the catalog listing. */
  lemma CreatedServiceIsListed(docs: seq<ServiceDoc>, body: ServiceBody, now: int, newId: ObjectId)
    requires CreateServiceOutcome(docs, body, now, newId).reply.Json?
    ensures var out := CreateServiceOutcome(docs, body, now, newId);
      out.reply.body in ListServices(out.docs)
  {
    var out := CreateServiceOutcome(docs, body, now, newId);
    assert out.docs[|docs|] == out.reply.body;
    ListServicesExact(out.docs);
  }
}
