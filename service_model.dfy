/** The `services` collection and `ServiceSchema` (src/models/Service.js). */
module ServiceModel {
  import opened Wrappers
  import opened ObjectIds

  /** A stored service document; prices are whole euros. */
  datatype ServiceDoc = ServiceDoc(
    id: DocId,
    name: Option<string>,
    description: Option<string>,
    priceEUR: Option<int>,
    durationMin: Option<int>,
    active: Option<bool>,
    createdAt: Option<int>,
    updatedAt: Option<int>)

  /** `active` defaults to true when a document is created through the schema. */
  function WithDefaults(s: ServiceDoc): (r: ServiceDoc)
    ensures r.active.Some? && (s.active.None? ==> r.active == Some(true))
    ensures r == s.(active := r.active)
  {
    s.(active := Some(s.active.GetOr(true)))
  }

  /** ServiceSchema's validators: name, description, priceEUR and durationMin required (numbers for the last two). */
  predicate ServiceValid(s: ServiceDoc)
  {
    Truthy(s.name) && Truthy(s.description) && s.priceEUR.Some? && s.durationMin.Some?
  }

  predicate IdsUnique(docs: seq<ServiceDoc>)
  {
    forall i, j :: 0 <= i < j < |docs| ==> docs[i].id != docs[j].id
  }

  /** `findOne({ _id: key })`. */
  function FindById(docs: seq<ServiceDoc>, key: DocId): (r: Option<ServiceDoc>)
    ensures r.Some? <==> exists i :: 0 <= i < |docs| && docs[i].id == key
    ensures r.Some? ==> r.value in docs && r.value.id == key
  {
    if |docs| == 0 then None
    else if docs[0].id == key then Some(docs[0])
    else
      var r := FindById(docs[1..], key);
      assert forall i :: 1 <= i < |docs| ==> docs[i] == docs[1..][i - 1];
      r
  }

  predicate Insertable(docs: seq<ServiceDoc>, s: ServiceDoc)
  {
    forall i :: 0 <= i < |docs| ==> docs[i].id != s.id
  }

  class ServiceCollection {
    var docs: seq<ServiceDoc>

    predicate Valid()
      reads this
    {
      IdsUnique(docs)
    }

    constructor ()
      ensures Valid() && docs == []
    {
      docs := [];
    }

    /** The write of `Service.create`: refused on a duplicate `_id`. */
    method Insert(s: ServiceDoc) returns (ok: bool)
      requires Valid()
      modifies this
      ensures Valid()
      ensures ok == Insertable(old(docs), s)
      ensures docs == if ok then old(docs) + [s] else old(docs)
    {
      ok := Insertable(docs, s);
      if ok {
        docs := docs + [s];
      }
    }
  }
}
