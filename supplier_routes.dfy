/**
 * The supplier routes: the POST validation chain and defaults, the PUT
 * field-by-field update, 404 for a missing id, and the listing order.
 * The MongoDB collection is the `docs` field of `SupplierCollection`; the
 * authenticated user's id is a parameter.
 */
module SupplierRoutes {
  import opened Wrappers
  import opened Http
  import opened Schema
  import JsString
  import Seqs
  import Documents

  /** The fields of `req.body` the handlers destructure; None for undefined. */
  datatype Body = Body(name: Option<string>, contact: Option<string>, email: Option<string>,
                       address: Option<string>, productsSupplied: Option<seq<string>>,
                       rating: Option<real>, status: Option<string>)

  /** The value a string validator sees: undefined reads as ''. */
  function Text(s: Option<string>): string {
    s.GetOr("")
  }

  /**
   * The POST validation chain, in order: name trimmed and not empty,
   * contact not empty, email an email address, address not empty.
   */
  function Validate(body: Body, isEmail: string -> bool): (errors: seq<string>)
    ensures errors == [] <==>
              && JsString.Trim(Text(body.name)) != ""
              && Text(body.contact) != ""
              && isEmail(Text(body.email))
              && Text(body.address) != ""
    ensures |errors| <= 4
  {
    (if JsString.Trim(Text(body.name)) == "" then ["Supplier name is required"] else [])
    + (if Text(body.contact) == "" then ["Contact is required"] else [])
    + (if !isEmail(Text(body.email)) then ["Please enter a valid email"] else [])
    + (if Text(body.address) == "" then ["Address is required"] else [])
  }

  /** The object POST hands to `new Supplier`: `x || default` on the optional fields. */
  function CreateDraft(body: Body, userId: string): (d: SupplierDraft)
    ensures d.name == JsString.Trim(Text(body.name))
    ensures d.contact == Text(body.contact) && d.email == Text(body.email)
    ensures d.address == Text(body.address)
    ensures d.productsSupplied == Some(body.productsSupplied.GetOr([]))
    ensures d.rating == Some(NumberOr(body.rating, 0.0))
    ensures d.status == Some(TextOr(body.status, "active"))
    ensures d.createdBy == userId
  {
    SupplierDraft(JsString.Trim(Text(body.name)), Text(body.contact), Text(body.email), Text(body.address),
                  Some(body.productsSupplied.GetOr([])), Some(NumberOr(body.rating, 0.0)),
                  Some(TextOr(body.status, "active")), userId)
  }

  /**
   * The PUT rule, one field at a time: the strings and the product list
   * overwrite only when truthy (an empty list is truthy), the rating
   * whenever it is defined, so a rating of 0 is applied; the id, the
   * creator and the creation time are never touched.
   */
  function UpdateFields(doc: Supplier, body: Body): (r: Supplier)
    ensures r.id == doc.id && r.createdBy == doc.createdBy && r.createdAt == doc.createdAt
    ensures r.name == if TruthyText(body.name) then SupplierName(body.name.value) else doc.name
    ensures r.contact == TextOr(body.contact, doc.contact)
    ensures r.email == if TruthyText(body.email) then SupplierEmail(body.email.value) else doc.email
    ensures r.address == TextOr(body.address, doc.address)
    ensures r.productsSupplied == body.productsSupplied.GetOr(doc.productsSupplied)
    ensures r.rating == body.rating.GetOr(doc.rating)
    ensures r.status == TextOr(body.status, doc.status)
  {
    doc.(name := if TruthyText(body.name) then SupplierName(body.name.value) else doc.name,
         contact := TextOr(body.contact, doc.contact),
         email := if TruthyText(body.email) then SupplierEmail(body.email.value) else doc.email,
         address := TextOr(body.address, doc.address),
         productsSupplied := body.productsSupplied.GetOr(doc.productsSupplied),
         rating := body.rating.GetOr(doc.rating),
         status := TextOr(body.status, doc.status))
  }

  /** An update with an undefined field everywhere leaves the document as it was. */
  lemma UpdateNothing(doc: Supplier)
    ensures UpdateFields(doc, Body(None, None, None, None, None, None, None)) == doc
  {
  }

  /** The setters keep an updated document normal. */
  lemma UpdateKeepsNormal(doc: Supplier, body: Body)
    requires NormalSupplier(doc)
    ensures NormalSupplier(UpdateFields(doc, body))
  {
  }

  /** The `if (field) doc.field = field` statements of PUT, in order. */
  method ApplyUpdate(doc: Supplier, body: Body) returns (supplier: Supplier)
    ensures supplier == UpdateFields(doc, body)
  {
    supplier := doc;
    if TruthyText(body.name) { supplier := supplier.(name := SupplierName(body.name.value)); }
    if TruthyText(body.contact) { supplier := supplier.(contact := body.contact.value); }
    if TruthyText(body.email) { supplier := supplier.(email := SupplierEmail(body.email.value)); }
    if TruthyText(body.address) { supplier := supplier.(address := body.address.value); }
    if body.productsSupplied.Some? { supplier := supplier.(productsSupplied := body.productsSupplied.value); }
    if body.rating.Some? { supplier := supplier.(rating := body.rating.value); }
    if TruthyText(body.status) { supplier := supplier.(status := body.status.value); }
  }

  /** `findById`: the position of the document with the id. */
  function IndexOf(docs: seq<Supplier>, id: nat): Option<nat> {
    Seqs.FindIndex(docs, (d: Supplier) => d.id == id)
  }

  /** `.sort({ createdAt: -1 })`. */
  function NewestFirst(docs: seq<Supplier>): seq<Supplier> {
    Seqs.SortDesc(docs, (d: Supplier) => d.createdAt as int)
  }

  /**
   * What POST answers when `id` is the next ObjectId: 400 with the
   * validation messages, 500 when `save()` refuses the new document,
   * 201 with the document otherwise.
   */
  function CreateResponse(body: Body, isEmail: string -> bool, userId: string, id: nat, now: nat): (r: Response<Supplier>)
    ensures r.BadRequest? || r.ServerError? || r.Created?
    ensures r.BadRequest? <==> Validate(body, isEmail) != []
    ensures r.BadRequest? ==> r.errors == Validate(body, isEmail)
    ensures r.Created? <==>
              Validate(body, isEmail) == [] && ValidSupplier(NewSupplier(CreateDraft(body, userId), id, now))
    ensures r.Created? ==> ValidSupplier(r.doc) && NormalSupplier(r.doc)
    ensures r.Created? ==> r.doc == NewSupplier(CreateDraft(body, userId), id, now)
  {
    var errors := Validate(body, isEmail);
    if errors != [] then BadRequest(errors)
    else
      var doc := NewSupplier(CreateDraft(body, userId), id, now);
      if ValidSupplier(doc) then Created(doc) else ServerError
  }

  /**
   * A body that passes validation and leaves products, rating and status
   * undefined is stored with the defaults [], 0 and "active", its name
   * trimmed, its email through the setters and its other strings as sent,
   * given an email check that refuses blank strings.
   */
  lemma CreateDefaults(body: Body, isEmail: string -> bool, userId: string, id: nat, now: nat)
    requires forall e :: isEmail(e) ==> JsString.Trim(e) != ""
    requires Validate(body, isEmail) == [] && userId != ""
    requires body.productsSupplied.None? && body.rating.None? && body.status.None?
    ensures var r := CreateResponse(body, isEmail, userId, id, now);
            && r.Created? && r.doc.id == id && r.doc.createdBy == userId
            && r.doc.productsSupplied == [] && r.doc.rating == 0.0 && r.doc.status == "active"
            && r.doc.name == JsString.Trim(Text(body.name))
            && r.doc.email == SupplierEmail(Text(body.email))
            && r.doc.contact == Text(body.contact) && r.doc.address == Text(body.address)
  {
    var doc := NewSupplier(CreateDraft(body, userId), id, now);
    assert ValidSupplier(doc) by {
      DraftFilled(body, isEmail, userId);
    }
    assert doc.name == JsString.Trim(Text(body.name)) by {
      JsString.TrimIdempotent(Text(body.name));
    }
  }

  /** A validated draft keeps every required string non-empty through the setters. */
  lemma DraftFilled(body: Body, isEmail: string -> bool, userId: string)
    requires forall e :: isEmail(e) ==> JsString.Trim(e) != ""
    requires Validate(body, isEmail) == [] && userId != ""
    ensures var d := CreateDraft(body, userId);
            && SupplierName(d.name) != "" && SupplierEmail(d.email) != ""
            && d.contact != "" && d.address != "" && d.createdBy != ""
  {
    var d := CreateDraft(body, userId);
    SetterOrder(d.email);
    assert |SupplierEmail(d.email)| == |JsString.Trim(d.email)|;
    JsString.TrimIdempotent(Text(body.name));
  }

  function SupplierId(d: Supplier): nat {
    d.id
  }

  /** A document `save()` accepted, with its strings as the setters leave them. */
  predicate Stored(d: Supplier) {
    ValidSupplier(d) && NormalSupplier(d)
  }

  class SupplierCollection {
    var docs: seq<Supplier>
    /** Where the ObjectId generator stands: every stored id is below it. */
    var nextId: nat

    ghost predicate Valid()
      reads this
    {
      Documents.ValidDocs(docs, SupplierId, Stored, nextId)
    }

    constructor ()
      ensures Valid() && docs == [] && nextId == 0
    {
      docs := [];
      nextId := 0;
    }

    /** GET /: every document, newest first. */
    method List() returns (r: seq<Supplier>)
      ensures Seqs.SortedDesc(r, (d: Supplier) => d.createdAt as int)
      ensures multiset(r) == multiset(docs)
    {
      r := NewestFirst(docs);
    }

    /** GET /:id. */
    method Get(id: nat) returns (r: Response<Supplier>)
      ensures r.NotFound? <==> forall i :: 0 <= i < |docs| ==> docs[i].id != id
      ensures r.NotFound? || (r.Found? && r.doc in docs && r.doc.id == id)
    {
      var i := IndexOf(docs, id);
      if i.None? {
        return NotFound;
      }
      r := Found(docs[i.value]);
    }

    /** POST /: answer as `CreateResponse` does and store the document it creates. */
    method Post(body: Body, isEmail: string -> bool, userId: string, now: nat) returns (r: Response<Supplier>)
      requires Valid()
      modifies this
      ensures Valid()
      ensures r == CreateResponse(body, isEmail, userId, old(nextId), now)
      ensures r.Created? ==> docs == old(docs) + [r.doc] && nextId == old(nextId) + 1
      ensures !r.Created? ==> docs == old(docs) && nextId == old(nextId)
    {
      r := CreateResponse(body, isEmail, userId, nextId, now);
      if r.Created? {
        Insert(r.doc);
      }
    }

    /** `save()` of a new document under the next ObjectId. */
    method Insert(doc: Supplier)
      requires Valid() && Stored(doc) && doc.id == nextId
      modifies this
      ensures Valid()
      ensures docs == old(docs) + [doc] && nextId == old(nextId) + 1
    {
      Documents.ValidAppend(docs, SupplierId, Stored, nextId, doc);
      docs := docs + [doc];
      nextId := nextId + 1;
    }

    /** PUT /:id: the field rule on the stored document, then `save()`. */
    method Put(id: nat, body: Body) returns (r: Response<Supplier>)
      requires Valid()
      modifies this
      ensures Valid() && nextId == old(nextId)
      ensures match IndexOf(old(docs), id)
              case None => r == NotFound && docs == old(docs)
              case Some(i) =>
                var doc := UpdateFields(old(docs)[i], body);
                if ValidSupplier(doc) then r == Updated(doc) && docs == old(docs)[i := doc]
                else r == ServerError && docs == old(docs)
    {
      var index := IndexOf(docs, id);
      if index.None? {
        return NotFound;
      }
      var i := index.value;
      var supplier := ApplyUpdate(docs[i], body);
      if !ValidSupplier(supplier) {
        return ServerError;
      }
      assert Stored(docs[i]);
      UpdateKeepsNormal(docs[i], body);
      Documents.ValidReplace(docs, SupplierId, Stored, nextId, i, supplier);
      docs := docs[i := supplier];
      r := Updated(supplier);
    }

    /** DELETE /:id. */
    method Delete(id: nat) returns (r: Response<Supplier>)
      requires Valid()
      modifies this
      ensures Valid() && nextId == old(nextId)
      ensures match IndexOf(old(docs), id)
              case None => r == NotFound && docs == old(docs)
              case Some(i) => r == Deleted && docs == old(docs)[..i] + old(docs)[i + 1..]
      ensures forall d :: d in docs ==> d.id != id
    {
      var index := IndexOf(docs, id);
      if index.None? {
        return NotFound;
      }
      var i := index.value;
      Documents.ValidRemove(docs, SupplierId, Stored, nextId, i);
      docs := docs[..i] + docs[i + 1..];
      r := Deleted;
    }
  }
}
