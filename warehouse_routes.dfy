/**
 * The warehouse routes: the POST validation chain and defaults, the PUT
 * field-by-field update, 404 for a missing id, and the listing order.
 * The MongoDB collection is the `docs` field of `WarehouseCollection`; the
 * authenticated user's id is a parameter.
 */
module WarehouseRoutes {
  import opened Wrappers
  import opened Http
  import opened Schema
  import JsString
  import Seqs
  import Documents

  /**
   * The fields of `req.body` the handlers destructure; None for undefined.
   * A capacity is present exactly when `isNumeric()` accepts it.
   */
  datatype Body = Body(name: Option<string>, location: Option<string>, capacity: Option<real>,
                       currentStock: Option<real>, manager: Option<string>, contact: Option<string>,
                       status: Option<string>)

  /** The value a string validator sees: undefined reads as ''. */
  function Text(s: Option<string>): string {
    s.GetOr("")
  }

  /**
   * The POST validation chain, in order: name trimmed and not empty,
   * location not empty, capacity numeric, manager not empty, contact not empty.
   */
  function Validate(body: Body): (errors: seq<string>)
    ensures errors == [] <==>
              && JsString.Trim(Text(body.name)) != ""
              && Text(body.location) != ""
              && body.capacity.Some?
              && Text(body.manager) != ""
              && Text(body.contact) != ""
    ensures |errors| <= 5
  {
    (if JsString.Trim(Text(body.name)) == "" then ["Warehouse name is required"] else [])
    + (if Text(body.location) == "" then ["Location is required"] else [])
    + (if body.capacity.None? then ["Capacity must be a number"] else [])
    + (if Text(body.manager) == "" then ["Manager name is required"] else [])
    + (if Text(body.contact) == "" then ["Contact is required"] else [])
  }

  /**
   * The object POST hands to `new Warehouse` once validation has passed:
   * capacity as given, `x || default` on stock and status.
   */
  function CreateDraft(body: Body, userId: string): (d: WarehouseDraft)
    requires body.capacity.Some?
    ensures d.name == JsString.Trim(Text(body.name))
    ensures d.location == Text(body.location) && d.manager == Text(body.manager)
    ensures d.contact == Text(body.contact)
    ensures d.capacity == body.capacity.value
    ensures d.currentStock == Some(NumberOr(body.currentStock, 0.0))
    ensures d.status == Some(TextOr(body.status, "operational"))
    ensures d.createdBy == userId
  {
    WarehouseDraft(JsString.Trim(Text(body.name)), Text(body.location), body.capacity.value,
                   Some(NumberOr(body.currentStock, 0.0)), Text(body.manager), Text(body.contact),
                   Some(TextOr(body.status, "operational")), userId)
  }

  /**
   * The PUT rule, one field at a time: the strings overwrite only when
   * truthy, the two numbers whenever they are defined, so a capacity or a
   * stock of 0 is applied; the id, the creator and the creation time are
   * never touched.
   */
  function UpdateFields(doc: Warehouse, body: Body): (r: Warehouse)
    ensures r.id == doc.id && r.createdBy == doc.createdBy && r.createdAt == doc.createdAt
    ensures r.name == if TruthyText(body.name) then WarehouseName(body.name.value) else doc.name
    ensures r.location == TextOr(body.location, doc.location)
    ensures r.capacity == body.capacity.GetOr(doc.capacity)
    ensures r.currentStock == body.currentStock.GetOr(doc.currentStock)
    ensures r.manager == TextOr(body.manager, doc.manager)
    ensures r.contact == TextOr(body.contact, doc.contact)
    ensures r.status == TextOr(body.status, doc.status)
  {
    doc.(name := if TruthyText(body.name) then WarehouseName(body.name.value) else doc.name,
         location := TextOr(body.location, doc.location),
         capacity := body.capacity.GetOr(doc.capacity),
         currentStock := body.currentStock.GetOr(doc.currentStock),
         manager := TextOr(body.manager, doc.manager),
         contact := TextOr(body.contact, doc.contact),
         status := TextOr(body.status, doc.status))
  }

  /** An update with an undefined field everywhere leaves the document as it was. */
  lemma UpdateNothing(doc: Warehouse)
    ensures UpdateFields(doc, Body(None, None, None, None, None, None, None)) == doc
  {
  }

  /** The `if (field) doc.field = field` statements of PUT, in order. */
  method ApplyUpdate(doc: Warehouse, body: Body) returns (warehouse: Warehouse)
    ensures warehouse == UpdateFields(doc, body)
  {
    warehouse := doc;
    if TruthyText(body.name) { warehouse := warehouse.(name := WarehouseName(body.name.value)); }
    if TruthyText(body.location) { warehouse := warehouse.(location := body.location.value); }
    if body.capacity.Some? { warehouse := warehouse.(capacity := body.capacity.value); }
    if body.currentStock.Some? { warehouse := warehouse.(currentStock := body.currentStock.value); }
    if TruthyText(body.manager) { warehouse := warehouse.(manager := body.manager.value); }
    if TruthyText(body.contact) { warehouse := warehouse.(contact := body.contact.value); }
    if TruthyText(body.status) { warehouse := warehouse.(status := body.status.value); }
  }

  /** `findById`: the position of the document with the id. */
  function IndexOf(docs: seq<Warehouse>, id: nat): Option<nat> {
    Seqs.FindIndex(docs, (w: Warehouse) => w.id == id)
  }

  /** `.sort({ createdAt: -1 })`. */
  function NewestFirst(docs: seq<Warehouse>): seq<Warehouse> {
    Seqs.SortDesc(docs, (w: Warehouse) => w.createdAt as int)
  }

  /**
   * What POST answers when `id` is the next ObjectId: 400 with the
   * validation messages, 500 when `save()` refuses the new document,
   * 201 with the document otherwise.
   */
  function CreateResponse(body: Body, userId: string, id: nat, now: nat): (r: Response<Warehouse>)
    ensures r.BadRequest? || r.ServerError? || r.Created?
    ensures r.BadRequest? <==> Validate(body) != []
    ensures r.BadRequest? ==> r.errors == Validate(body)
    ensures r.Created? <==>
              Validate(body) == [] && ValidWarehouse(NewWarehouse(CreateDraft(body, userId), id, now))
    ensures r.Created? ==> ValidWarehouse(r.doc) && NormalWarehouse(r.doc)
    ensures r.Created? ==> r.doc == NewWarehouse(CreateDraft(body, userId), id, now)
  {
    var errors := Validate(body);
    if errors != [] then BadRequest(errors)
    else
      var doc := NewWarehouse(CreateDraft(body, userId), id, now);
      if ValidWarehouse(doc) then Created(doc) else ServerError
  }

  /**
   * A body that passes validation with a capacity of at least 0 and leaves
   * stock and status undefined is stored with the defaults 0 and
   * "operational", its name trimmed and its other strings as sent.
   */
  lemma CreateDefaults(body: Body, userId: string, id: nat, now: nat)
    requires Validate(body) == [] && userId != ""
    requires body.capacity.value >= 0.0
    requires body.currentStock.None? && body.status.None?
    ensures var r := CreateResponse(body, userId, id, now);
            && r.Created? && r.doc.id == id && r.doc.createdBy == userId
            && r.doc.capacity == body.capacity.value
            && r.doc.currentStock == 0.0 && r.doc.status == "operational"
            && r.doc.name == JsString.Trim(Text(body.name))
            && r.doc.location == Text(body.location) && r.doc.manager == Text(body.manager)
            && r.doc.contact == Text(body.contact)
  {
    var draft := CreateDraft(body, userId);
    JsString.TrimIdempotent(Text(body.name));
    assert WarehouseName(draft.name) != "";
    var doc := NewWarehouse(draft, id, now);
    assert ValidWarehouse(doc);
  }

  /** A negative capacity passes the route's validators, but the schema's `min: 0` refuses it. */
  lemma NegativeCapacityRefused(body: Body, userId: string, id: nat, now: nat)
    requires Validate(body) == [] && body.capacity.value < 0.0
    ensures CreateResponse(body, userId, id, now) == ServerError
  {
  }

  function WarehouseId(w: Warehouse): nat {
    w.id
  }

  /** A document `save()` accepted, with its name as the setter leaves it. */
  predicate Stored(w: Warehouse) {
    ValidWarehouse(w) && NormalWarehouse(w)
  }

  class WarehouseCollection {
    var docs: seq<Warehouse>
    /** Where the ObjectId generator stands: every stored id is below it. */
    var nextId: nat

    ghost predicate Valid()
      reads this
    {
      Documents.ValidDocs(docs, WarehouseId, Stored, nextId)
    }

    constructor ()
      ensures Valid() && docs == [] && nextId == 0
    {
      docs := [];
      nextId := 0;
    }

    /** GET /: every document, newest first. */
    method List() returns (r: seq<Warehouse>)
      ensures Seqs.SortedDesc(r, (w: Warehouse) => w.createdAt as int)
      ensures multiset(r) == multiset(docs)
    {
      r := NewestFirst(docs);
    }

    /** GET /:id. */
    method Get(id: nat) returns (r: Response<Warehouse>)
      ensures r.NotFound? <==> forall i :: 0 <= i < |docs| ==> docs[i].id != id
      ensures r.NotFound? || (r.Found? && r.doc in docs && r.doc.id == id)
    {
      var i := IndexOf(docs, id);
      if i.None? {
        return NotFound;
      }
      r := Found(docs[i.value]);
    }

    /** POST /: answer as `CreateResponse` does and store the document it creates. */
    method Post(body: Body, userId: string, now: nat) returns (r: Response<Warehouse>)
      requires Valid()
      modifies this
      ensures Valid()
      ensures r == CreateResponse(body, userId, old(nextId), now)
      ensures r.Created? ==> docs == old(docs) + [r.doc] && nextId == old(nextId) + 1
      ensures !r.Created? ==> docs == old(docs) && nextId == old(nextId)
    {
      r := CreateResponse(body, userId, nextId, now);
      if r.Created? {
        Insert(r.doc);
      }
    }

    /** `save()` of a new document under the next ObjectId. */
    method Insert(doc: Warehouse)
      requires Valid() && Stored(doc) && doc.id == nextId
      modifies this
      ensures Valid()
      ensures docs == old(docs) + [doc] && nextId == old(nextId) + 1
    {
      Documents.ValidAppend(docs, WarehouseId, Stored, nextId, doc);
      docs := docs + [doc];
      nextId := nextId + 1;
    }

    /** PUT /:id: the field rule on the stored document, then `save()`. */
    method Put(id: nat, body: Body) returns (r: Response<Warehouse>)
      requires Valid()
      modifies this
      ensures Valid() && nextId == old(nextId)
      ensures match IndexOf(old(docs), id)
              case None => r == NotFound && docs == old(docs)
              case Some(i) =>
                var doc := UpdateFields(old(docs)[i], body);
                if ValidWarehouse(doc) then r == Updated(doc) && docs == old(docs)[i := doc]
                else r == ServerError && docs == old(docs)
    {
      var index := IndexOf(docs, id);
      if index.None? {
        return NotFound;
      }
      var i := index.value;
      var warehouse := ApplyUpdate(docs[i], body);
      if !ValidWarehouse(warehouse) {
        return ServerError;
      }
      assert Stored(docs[i]);
      Documents.ValidReplace(docs, WarehouseId, Stored, nextId, i, warehouse);
      docs := docs[i := warehouse];
      r := Updated(warehouse);
    }

    /** DELETE /:id. */
    method Delete(id: nat) returns (r: Response<Warehouse>)
      requires Valid()
      modifies this
      ensures Valid() && nextId == old(nextId)
      ensures match IndexOf(old(docs), id)
              case None => r == NotFound && docs == old(docs)
              case Some(i) => r == Deleted && docs == old(docs)[..i] + old(docs)[i + 1..]
      ensures forall w :: w in docs ==> w.id != id
    {
      var index := IndexOf(docs, id);
      if index.None? {
        return NotFound;
      }
      var i := index.value;
      Documents.ValidRemove(docs, WarehouseId, Stored, nextId, i);
      docs := docs[..i] + docs[i + 1..];
      r := Deleted;
    }
  }
}
