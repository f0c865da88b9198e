/**
 * The two document schemas: which documents `save()` accepts, the
 * defaults a new document gets, and the setters (`trim`, `lowercase`)
 * that normalise string fields when they are assigned.
 */
module Schema {
  import opened Wrappers
  import opened JsString

  /** A stored supplier; `id` is its ObjectId and `createdAt` its Date in milliseconds. */
  datatype Supplier = Supplier(id: nat, name: string, contact: string, email: string, address: string,
                               productsSupplied: seq<string>, rating: real, status: string,
                               createdBy: string, createdAt: nat)

  /** The object handed to `new Supplier({...})`; None for a field left undefined. */
  datatype SupplierDraft = SupplierDraft(name: string, contact: string, email: string, address: string,
                                         productsSupplied: Option<seq<string>>, rating: Option<real>,
                                         status: Option<string>, createdBy: string)

  predicate IsSupplierStatus(s: string) {
    s == "active" || s == "inactive"
  }

  /** What `supplierSchema` requires of a document before `save()` stores it. */
  predicate ValidSupplier(s: Supplier) {
    && s.name != "" && s.contact != "" && s.email != "" && s.address != ""
    && 0.0 <= s.rating <= 5.0
    && IsSupplierStatus(s.status)
    && s.createdBy != ""
  }

  /**
   * The refusals of `supplierSchema`: a required string that is empty, a
   * rating outside its `min`/`max`, a status outside its `enum`, no
   * creator. No rule looks at the products, the id or the creation time.
   */
  lemma SupplierSchemaRefuses(s: Supplier, products: seq<string>, id: nat, createdAt: nat)
    ensures s.name == "" || s.contact == "" || s.email == "" || s.address == "" || s.createdBy == ""
            ==> !ValidSupplier(s)
    ensures s.rating < 0.0 || s.rating > 5.0 ==> !ValidSupplier(s)
    ensures !IsSupplierStatus(s.status) ==> !ValidSupplier(s)
    ensures ValidSupplier(s.(productsSupplied := products, id := id, createdAt := createdAt)) == ValidSupplier(s)
  {
  }

  /** The `trim` setter on name. */
  function SupplierName(name: string): (r: string)
    ensures IsTrimmed(r)
  {
    Trim(name)
  }

  /** The `lowercase` and `trim` setters on email. */
  function SupplierEmail(email: string): (r: string)
    ensures IsTrimmed(r) && IsLowerCase(r)
  {
    ToLowerSpec(email);
    TrimKeepsLowerCase(ToLower(email));
    Trim(ToLower(email))
  }

  /** A document whose string fields are as the setters leave them. */
  predicate NormalSupplier(s: Supplier) {
    IsTrimmed(s.name) && IsTrimmed(s.email) && IsLowerCase(s.email)
  }

  /** The setters leave a normal document's strings alone; so applying them twice is applying them once. */
  lemma SettersFixNormal(s: Supplier)
    requires NormalSupplier(s)
    ensures SupplierName(s.name) == s.name && SupplierEmail(s.email) == s.email
  {
    TrimFixedPoint(s.name);
    ToLowerSpec(s.email);
    TrimFixedPoint(s.email);
  }

  /** Lower-casing and trimming commute, so the order mongoose applies them in does not matter. */
  lemma SetterOrder(email: string)
    ensures SupplierEmail(email) == ToLower(Trim(email))
  {
    TrimToLowerCommute(email);
  }

  /** `new Supplier(draft)`: schema defaults for undefined fields, setters on the strings. */
  function NewSupplier(draft: SupplierDraft, id: nat, now: nat): (s: Supplier)
    ensures NormalSupplier(s)
    ensures s.id == id && s.createdAt == now && s.createdBy == draft.createdBy
    ensures s.name == SupplierName(draft.name) && s.email == SupplierEmail(draft.email)
    ensures s.contact == draft.contact && s.address == draft.address
    ensures s.productsSupplied == draft.productsSupplied.GetOr([])
    ensures s.rating == draft.rating.GetOr(0.0)
    ensures s.status == draft.status.GetOr("active")
  {
    Supplier(id, SupplierName(draft.name), draft.contact, SupplierEmail(draft.email), draft.address,
             draft.productsSupplied.GetOr([]), draft.rating.GetOr(0.0), draft.status.GetOr("active"),
             draft.createdBy, now)
  }

  /** A draft that leaves every optional field undefined gets the schema's defaults, which are valid. */
  lemma SupplierDefaults(draft: SupplierDraft, id: nat, now: nat)
    requires draft.productsSupplied.None? && draft.rating.None? && draft.status.None?
    requires Trim(draft.name) != "" && draft.contact != "" && Trim(draft.email) != ""
    requires draft.address != "" && draft.createdBy != ""
    ensures var s := NewSupplier(draft, id, now);
            s.productsSupplied == [] && s.rating == 0.0 && s.status == "active" && ValidSupplier(s)
  {
    SetterOrder(draft.email);
  }

  /** A stored warehouse. */
  datatype Warehouse = Warehouse(id: nat, name: string, location: string, capacity: real,
                                 currentStock: real, manager: string, contact: string, status: string,
                                 createdBy: string, createdAt: nat)

  /** The object handed to `new Warehouse({...})`. */
  datatype WarehouseDraft = WarehouseDraft(name: string, location: string, capacity: real,
                                           currentStock: Option<real>, manager: string, contact: string,
                                           status: Option<string>, createdBy: string)

  predicate IsWarehouseStatus(s: string) {
    s == "operational" || s == "maintenance" || s == "closed"
  }

  /** What `warehouseSchema` requires of a document before `save()` stores it. */
  predicate ValidWarehouse(w: Warehouse) {
    && w.name != "" && w.location != "" && w.manager != "" && w.contact != ""
    && w.capacity >= 0.0
    && w.currentStock >= 0.0
    && IsWarehouseStatus(w.status)
    && w.createdBy != ""
  }

  /**
   * The refusals of `warehouseSchema`: a required string that is empty, a
   * negative capacity or stock, a status outside its `enum`, no creator.
   * No rule relates stock to capacity, so an accepted warehouse stays
   * accepted with its stock raised above its capacity.
   */
  lemma WarehouseSchemaRefuses(w: Warehouse, id: nat, createdAt: nat)
    ensures w.name == "" || w.location == "" || w.manager == "" || w.contact == "" || w.createdBy == ""
            ==> !ValidWarehouse(w)
    ensures w.capacity < 0.0 || w.currentStock < 0.0 ==> !ValidWarehouse(w)
    ensures !IsWarehouseStatus(w.status) ==> !ValidWarehouse(w)
    ensures ValidWarehouse(w.(id := id, createdAt := createdAt)) == ValidWarehouse(w)
    ensures ValidWarehouse(w) ==> ValidWarehouse(w.(currentStock := w.capacity + 1.0))
  {
  }

  /** The `trim` setter on name. */
  function WarehouseName(name: string): (r: string)
    ensures IsTrimmed(r)
  {
    Trim(name)
  }

  predicate NormalWarehouse(w: Warehouse) {
    IsTrimmed(w.name)
  }

  lemma SetterFixesNormal(w: Warehouse)
    requires NormalWarehouse(w)
    ensures WarehouseName(w.name) == w.name
  {
    TrimFixedPoint(w.name);
  }

  /** `new Warehouse(draft)`. */
  function NewWarehouse(draft: WarehouseDraft, id: nat, now: nat): (w: Warehouse)
    ensures NormalWarehouse(w)
    ensures w.id == id && w.createdAt == now && w.createdBy == draft.createdBy
    ensures w.name == WarehouseName(draft.name)
    ensures w.location == draft.location && w.manager == draft.manager && w.contact == draft.contact
    ensures w.capacity == draft.capacity
    ensures w.currentStock == draft.currentStock.GetOr(0.0)
    ensures w.status == draft.status.GetOr("operational")
  {
    Warehouse(id, WarehouseName(draft.name), draft.location, draft.capacity,
              draft.currentStock.GetOr(0.0), draft.manager, draft.contact,
              draft.status.GetOr("operational"), draft.createdBy, now)
  }

  /** A draft that leaves the optional fields undefined gets the schema's defaults, which are valid. */
  lemma WarehouseDefaults(draft: WarehouseDraft, id: nat, now: nat)
    requires draft.currentStock.None? && draft.status.None?
    requires Trim(draft.name) != "" && draft.location != "" && draft.manager != "" && draft.contact != ""
    requires draft.capacity >= 0.0 && draft.createdBy != ""
    ensures var w := NewWarehouse(draft, id, now);
            w.currentStock == 0.0 && w.status == "operational" && ValidWarehouse(w)
  {
  }
}
