# Warehouse logistics and supplier management — a Dafny model

The system keeps suppliers and warehouses for signed-in users. It has two
back ends with the same interface:

- an Express/MongoDB server, whose route handlers validate a request
  body, fill in schema defaults, apply the `trim`/`lowercase` setters and
  update a fetched document one field at a time;
- a browser-only emulation (`mockApi.js`) that keeps users, suppliers,
  warehouses and the session token in `localStorage`. It hashes passwords
  with bcrypt and issues base64 "JWT-like" tokens that expire after seven
  days.

On top of either back end the React dashboard computes totals, counts
and a capacity percentage. The supplier form parses the comma-separated
product list and formats it back.

This project models in Dafny:

- the emulated API: storage, registration, login, the token and the
  per-collection CRUD;
- the supplier and warehouse routes and schemas;
- the dashboard figures;
- the product-list parse and format.

It proves the properties these parts promise.

Modules, one per concern:

| module | file | models |
|---|---|---|
| `Wrappers` | `wrappers.dfy` | `Option`, `Result` |
| `Seqs` | `seqs.dfy` | `find`, `findIndex`, `filter`, `reduce`, `slice`, a descending sort on one key |
| `JsChar` | `js_string.dfy` | the white space `String.prototype.trim` removes |
| `JsString` | `js_string.dfy` | `String.prototype.trim`, `toLowerCase`, `split`, `join` |
| `Token` | `token.dfy` | `generateToken` / `verifyToken`, with a concrete codec standing in for `btoa(JSON.stringify(...))` and `btoa`'s Latin-1 limit |
| `MockApi` | `mock_api.dfy` | the emulated API; `Store` is a class whose fields are the storage keys |
| `Products` | `products.dfy` | the `productsSupplied` parse, format and display of the supplier page |
| `Http` | `http.dfy` | handler responses and the truthiness tests the handlers use |
| `Schema` | `schema.dfy` | the two mongoose schemas: validity, defaults, setters |
| `Documents` | `documents.dfy` | the collection invariant (unique ObjectIds below a counter) and its preservation |
| `SupplierRoutes` | `supplier_routes.dfy` | `routes/suppliers.js` |
| `WarehouseRoutes` | `warehouse_routes.dfy` | `routes/warehouses.js` |
| `Dashboard` | `dashboard.dfy` | the dashboard aggregates |

Modelling choices:

- **Outside inputs.** The clock's `Date.now()`, its ISO text, the id
  generator and bcrypt's salt come in as one `Env` value per call.
  - The server routes take the authenticated user's id and `now` as
    parameters.
  - ObjectIds come from the `nextId` counter of each collection class.
- **Passwords.** A bcrypt hash is an idealised, collision-free value. It
  matches exactly the password it was made from, whatever the salt. The
  real bcrypt reads only a password's first 72 bytes (see "## Left out").
- **Validators.** `isEmail` is a function parameter. `isNumeric` is the
  presence of a `real` capacity in the request body.
- **Numbers.** JavaScript numbers are `real`s.
- **Mock records.** JavaScript objects in the mock are `map<string,
  Value>`, and `{ ...a, ...b }` is the right-biased map union `a + b`.

Where the written design and the code disagree, the model follows the
code:

- `update` in the emulated API merges the payload over the stored
  record. So a payload key `_id`, `createdBy` or `createdAt` does
  overwrite (`MockApi.Merge`, `MockApi.UpdateRenames`). The design says
  these three are never overwritten.
- `create` in the emulated API spreads the payload after the generated
  `_id`. So a payload that carries `_id` keeps it (`MockApi.NewRecord`).
  Ids are therefore unique only when the payloads carry none and
  `generateId` does not repeat.
- The emulated API validates no fields on `create`. The design asks for
  the mandatory fields to be checked there.
- The server's `UpdateFields` never touches the id, `createdBy` or
  `createdAt`. This is because the PUT handlers assign only named fields.
- `verifyToken` rejects a token only when `exp < Date.now()`. So a token
  still verifies at its expiry instant (`Token.VerifyGenerate`). The
  design calls a token expired once its expiry is not after the present.
- `create` in the emulated API reads the stored token and hands it to
  `verifyToken` as it is. With no token stored, that is `atob(null)`,
  whose text does not parse, so the call fails with "Invalid token"
  (`MockApi.Store.Create`, `Token.DecodeRejectsNull`). The design says
  `create` propagates the no-session failure.
- `initializeStorage` creates three keys, `users`, `suppliers` and
  `warehouses`, when they are absent (`MockApi.Store.InitializeStorage`).
  It never creates `currentToken`. The design lists four keys created
  empty on first access.

A consequence of the code that the model records: `btoa` throws on any
character above U+00FF, and `JSON.stringify` leaves such characters
unescaped. So a user whose id, username, email or role holds one (a
username "Łukasz", say) gets no token: `Token.Generate` succeeds exactly
on snapshots whose four strings are Latin-1 (`Token.NonLatin1Refused` is
one instance).
`register` has already stored that user when `generateToken` throws: the
call fails, the users list has grown, and no token is stored
(`MockApi.Store.Register`). From then on the email and username are
taken, and every login with them finds the user and fails the same way
(`MockApi.HalfRegistered`, `MockApi.Store.Login`).

## Model

| member | source | states |
|---|---|---|
| `Token.Verify` | frontend/src/mockApi.js:49-59 | a token verifies exactly when it decodes and `now <= exp`; it then yields the payload's user. Every other case is one failure, "Invalid token" |
| `Token.GeneratePayload` | frontend/src/mockApi.js:34-46 | a generated token, where `btoa` accepts the snapshot, decodes to the snapshot with `iat = now` and `exp = now + 604800000` (7 days) |
| `Token.VerifyGenerate` | frontend/src/mockApi.js:34-59 | where `generateToken(u)` succeeds, `verifyToken` of its token at time `now` gives u's snapshot iff `now <= iat + 604800000`, so a token whose `exp == now` still verifies; afterwards it fails |
| `Token.DecodeEncode` | frontend/src/mockApi.js:45-51 | decoding inverts encoding for every payload |
| `Token.DecodeRejectsNull` | frontend/src/mockApi.js:51 | the text "null" (what an absent stored token reads as) and the empty text do not decode |
| `Token.Forgeable` | frontend/src/mockApi.js:49-55 | any payload with `now <= exp` verifies, whoever encoded it: the token is not signed |
| `Token.Encode` | frontend/src/mockApi.js:45 | an encoded token is never empty |
| `Token.Generate` | frontend/src/mockApi.js:34-46 | `generateToken` gives a token exactly when the snapshot's id, username, email and role are all Latin-1; otherwise `btoa` throws and there is none |
| `Token.NonLatin1Refused` | frontend/src/mockApi.js:34-46 | a snapshot whose username starts with U+0141 gets no token: `btoa` throws outside Latin-1 |
| `MockApi.CompareHash` | frontend/src/mockApi.js:23-31 | `compare(attempt, hash(password, salt))` holds iff `attempt == password`, for every salt |
| `MockApi.SaltedHashes` | frontend/src/mockApi.js:23-26 | hashing one password under two different salts gives two different hashes, and each matches the password |
| `MockApi.DefaultRole` | frontend/src/mockApi.js:90 | a non-empty role is kept, an absent or empty role becomes "user" |
| `MockApi.Authenticate` | frontend/src/mockApi.js:122-133 | login's check succeeds iff the first stored user with the email has a matching hash, and then yields that user. Both failures are the same `InvalidCredentials` |
| `MockApi.NewRecord` | frontend/src/mockApi.js:193-198 | the created record has `createdBy` and `createdAt` from the caller. Its `_id` is the payload's if it has one, else the fresh id. It keeps every other payload key and has no keys beyond these |
| `MockApi.Merge` | frontend/src/mockApi.js:220 | the merged record's keys are the union; payload keys overwrite (`_id` and `createdBy` included); all other keys keep their values |
| `MockApi.Filled` | frontend/src/mockApi.js:6-8 | a missing list key becomes the empty list; a present one is kept |
| `MockApi.FilledCollections` | frontend/src/mockApi.js:9-14 | afterwards both record keys are present; present lists are kept, missing ones are empty |
| `MockApi.FilledIdempotent` | frontend/src/mockApi.js:5-15 | initialising storage twice is initialising it once |
| `MockApi.NewUserFields` | frontend/src/mockApi.js:84-92 | the new user has the fresh id, the username and email given, the defaulted role and the ISO creation time; its hash is under the call's salt and matches exactly the password given |
| `MockApi.LookupIndexOf` | frontend/src/mockApi.js:177-214 | `find` and `findIndex` with the `_id` test agree: both fail iff no record has the id; otherwise `find` yields the record at `findIndex`'s position, and it has the id |
| `MockApi.WithoutIdSpec` | frontend/src/mockApi.js:234-236 | `filter` leaves no record with the id and keeps every other record; the list gets shorter iff some record had the id |
| `MockApi.RegisterThenLogin` | frontend/src/mockApi.js:70-139 | a user appended by register is what login's credential check with the same email and password yields |
| `MockApi.HalfRegistered` | frontend/src/mockApi.js:70-139 | a user stored by a register whose `generateToken` threw blocks its email and username from then on, passes login's credential check, and still gets no token |
| `MockApi.CreateThenGetById` | frontend/src/mockApi.js:174-201 | a record created under a fresh id (no `_id` in the payload) is what getById returns for that id |
| `MockApi.UpdateThenGetById` | frontend/src/mockApi.js:211-221 | after update, getById finds the merged record, unless the payload brought a different `_id` |
| `MockApi.UpdateRenames` | frontend/src/mockApi.js:220 | an update whose payload carries another `_id` makes a record that was the only holder of the old id unreachable by it |
| `MockApi.UpdateEmptyPayload` | frontend/src/mockApi.js:220 | merging an empty payload changes nothing |
| `MockApi.DeleteThenGetById` | frontend/src/mockApi.js:231-240 | after delete no record has the id: getById fails and a second delete finds nothing to remove |
| `MockApi.Store.InitializeStorage` | frontend/src/mockApi.js:5-15 | it creates exactly the missing keys, empty, and changes no present key nor the token; on initialised storage it changes nothing |
| `MockApi.Store.Register` | frontend/src/mockApi.js:70-115 | a username or email clash fails with the exact message, leaving users and token alone. Otherwise exactly one user is appended (role defaulted, salted hash). If `btoa` refuses its snapshot the call then fails with the Latin-1 error and the token is kept; else its token is stored and returned with a user view that has no password |
| `MockApi.Store.Login` | frontend/src/mockApi.js:117-153 | users never change. A bad email or password fails with `InvalidCredentials`, and a user whose snapshot `btoa` refuses fails with the Latin-1 error; both keep the token. Otherwise the user's new token replaces `currentToken` and is returned with the user view |
| `MockApi.Store.GetMe` | frontend/src/mockApi.js:155-163 | an absent or empty token is "No token found"; otherwise the result is `verifyToken`'s, with every failure "Invalid token" |
| `MockApi.Store.Logout` | frontend/src/AuthContext.js:50-53 | the current token is removed and nothing else changes |
| `MockApi.Store.GetAll` | frontend/src/mockApi.js:168-172 | returns the stored list of the kind, in storage order |
| `MockApi.Store.GetById` | frontend/src/mockApi.js:174-184 | returns the first record with the id, or the kind's not-found error |
| `MockApi.Store.Create` | frontend/src/mockApi.js:186-209 | a stored token that does not verify (an absent one included) fails and changes no collection. Otherwise exactly one record stamped with the token user's id is appended to that kind, and the other kind is unchanged |
| `MockApi.Store.Update` | frontend/src/mockApi.js:211-229 | no match fails with no change. Otherwise only the record at the first matching index is replaced, by the merge |
| `MockApi.Store.Delete` | frontend/src/mockApi.js:231-245 | every record with the id is removed. If there is none it fails and nothing changes |
| `Seqs.FindIndex` | frontend/src/mockApi.js:214 | `findIndex`: None iff no element matches; otherwise the first matching position |
| `Seqs.Find` | frontend/src/mockApi.js:177 | `find`: None iff no element matches; otherwise an element that matches, with no match before it |
| `Seqs.Filter` | frontend/src/mockApi.js:234 | `filter` keeps exactly the matching elements. It is no longer than its input, and as long only when every element matches |
| `Seqs.FoldSumIsSum` | frontend/src/components/Dashboard.js:34-35 | the left fold `reduce` performs equals its seed plus the reference sum |
| `Seqs.Prefix` | frontend/src/components/Dashboard.js:92 | `slice(0, n)`: a prefix of the list, of length n or, when the list is shorter, the whole list |
| `Seqs.SortDesc` | backend/routes/suppliers.js:12 | the result is ordered by descending key and is a permutation of the input |
| `JsString.Trim` | backend/models/Supplier.js:7 | the result has no leading or trailing white space |
| `JsString.TrimSpec` | backend/models/Supplier.js:7 | the result is the contiguous piece left after removing white space from both ends |
| `JsString.TrimIdempotent` | backend/models/Supplier.js:7 | trimming twice is trimming once |
| `JsString.TrimFixedPoint` | backend/models/Supplier.js:7 | trimming leaves a string alone iff it is already trimmed |
| `JsString.ToLower` | backend/models/Supplier.js:16 | the result has the input's length and maps each character through the case map |
| `JsString.ToLowerSpec` | backend/models/Supplier.js:16 | the result is lower case, and lower-casing leaves a string alone iff it is already lower case |
| `JsString.ToLowerIdempotent` | backend/models/Supplier.js:16 | lower-casing twice is lower-casing once |
| `JsString.TrimToLowerCommute` | backend/models/Supplier.js:16-17 | trimming and lower-casing commute |
| `JsString.Split` | frontend/src/components/Suppliers.js:52 | `split(',')` gives at least one piece, and no piece contains the separator |
| `JsString.SplitAtSeparator` | frontend/src/components/Suppliers.js:52 | `split` at a separator: the first piece, then the split of the rest |
| `JsString.JoinEmpty` | frontend/src/components/Suppliers.js:155 | `join` gives "" iff the list is empty or is the single empty string |
| `JsString.SplitJoin` | frontend/src/components/Suppliers.js:52-80 | splitting a `join` on a one-character separator that no part contains gives the parts back; the empty list comes back as `[""]` |
| `Products.Parse` | frontend/src/components/Suppliers.js:52 | every parsed product is non-empty, trimmed and comma-free |
| `Products.ParseEmpty` | frontend/src/components/Suppliers.js:14 | parsing the form's default, the empty string, gives the empty list |
| `Products.ParseFormat` | frontend/src/components/Suppliers.js:52-80 | parsing the `join(', ')` of non-empty, trimmed, comma-free products gives the list back |
| `Products.ParseFormatParse` | frontend/src/components/Suppliers.js:52-80 | an edit round trip (format, then parse) leaves a parsed list unchanged |
| `Products.FormatEmpty` | frontend/src/components/Suppliers.js:80 | the form text `join(', ')` is empty iff the list is empty or `[""]`; for a list of product names, iff it is empty |
| `Products.DisplayNeverBlank` | frontend/src/components/Suppliers.js:155 | the table cell is never blank, and it is the joined text whenever that is not empty |
| `Products.DisplayFallback` | frontend/src/components/Suppliers.js:155 | the table cell is "N/A" when the list is empty or is the single empty string, else the joined text |
| `Products.DisplayParsed` | frontend/src/components/Suppliers.js:155 | for lists the form produced, the cell falls back to "N/A" exactly when the list is empty |
| `Schema.SupplierSchemaRefuses` | backend/models/Supplier.js:3-46 | `save()` refuses a supplier with an empty name, contact, email or address, no creator, a rating outside [0, 5] or a status outside the enum; no rule looks at the products, the id or the creation time |
| `Schema.SupplierName` | backend/models/Supplier.js:4-8 | the stored name is trimmed |
| `Schema.SupplierEmail` | backend/models/Supplier.js:13-18 | the stored email is trimmed and lower case |
| `Schema.SettersFixNormal` | backend/models/Supplier.js:7-17 | the setters leave an already-normalised name and email unchanged, so normalising twice is normalising once |
| `Schema.SetterOrder` | backend/models/Supplier.js:16-17 | lower-casing then trimming equals trimming then lower-casing |
| `Schema.NewSupplier` | backend/models/Supplier.js:4-45 | the new document is normalised: the name trimmed, the email trimmed and lower-cased. Contact and address are as given. Products default to [], rating to 0, status to "active". Id, creator and creation time are the given ones |
| `Schema.SupplierDefaults` | backend/models/Supplier.js:4-41 | a draft that fills the required fields and leaves the optional ones undefined is a document the schema accepts |
| `Schema.WarehouseSchemaRefuses` | backend/models/Warehouse.js:3-45 | `save()` refuses a warehouse with an empty name, location, manager or contact, no creator, a negative capacity or stock or a status outside the enum; the id and creation time are not looked at, and stock above capacity is accepted |
| `Schema.WarehouseName` | backend/models/Warehouse.js:4-8 | the stored name is trimmed |
| `Schema.SetterFixesNormal` | backend/models/Warehouse.js:7 | the setter leaves a trimmed name unchanged |
| `Schema.NewWarehouse` | backend/models/Warehouse.js:4-44 | the new document is normalised: the name trimmed. Location, capacity, manager and contact are as given. Stock defaults to 0, status to "operational". Id, creator and creation time are the given ones |
| `Schema.WarehouseDefaults` | backend/models/Warehouse.js:4-40 | a draft with the required fields, a capacity of at least 0 and the optional fields undefined is accepted |
| `Documents.ValidAppend` | backend/routes/suppliers.js:67 | saving a new accepted document under the next id keeps ids unique and below the counter |
| `Documents.ValidReplace` | backend/routes/suppliers.js:101 | saving an accepted document under its own id keeps the invariant |
| `Documents.ValidRemove` | backend/routes/suppliers.js:124 | deleting keeps the invariant, and no remaining document has the removed id |
| `SupplierRoutes.Validate` | backend/routes/suppliers.js:43-52 | no errors iff the trimmed name, contact and address are non-empty and the email is an email; there are at most four messages |
| `SupplierRoutes.CreateDraft` | backend/routes/suppliers.js:54-65 | the name is the trimmed text sent; contact, email and address are the text sent (undefined as ''); falsy products, rating and status become [], 0 and "active"; the creator is the authenticated user |
| `SupplierRoutes.CreateResponse` | backend/routes/suppliers.js:41-77 | 400 with the messages iff validation fails. Otherwise 201 with the defaulted, normalised document if the schema accepts it, else 500 |
| `SupplierRoutes.CreateDefaults` | backend/routes/suppliers.js:56-65 | a valid body with products, rating and status undefined is created with [], 0 and "active", by the authenticated user, with the trimmed name, the trimmed lower-cased email and the contact and address as sent |
| `SupplierRoutes.UpdateFields` | backend/routes/suppliers.js:93-99 | strings and products overwrite only when truthy (an array always is); rating whenever defined, 0 included; id, creator and creation time never change |
| `SupplierRoutes.ApplyUpdate` | backend/routes/suppliers.js:93-99 | the seven field assignments in order compute `UpdateFields` |
| `SupplierRoutes.UpdateNothing` | backend/routes/suppliers.js:93-99 | a body with every field undefined leaves the document unchanged |
| `SupplierRoutes.UpdateKeepsNormal` | backend/routes/suppliers.js:93-95 | the update keeps the name trimmed and the email trimmed and lower case |
| `SupplierRoutes.SupplierCollection.List` | backend/routes/suppliers.js:12 | the listing is newest first and holds exactly the stored documents |
| `SupplierRoutes.SupplierCollection.Get` | backend/routes/suppliers.js:23-31 | 404 iff no document has the id; otherwise a stored document with the id |
| `SupplierRoutes.SupplierCollection.Post` | backend/routes/suppliers.js:41-77 | answers as `CreateResponse`; only a 201 stores (one document, appended); the invariant is kept |
| `SupplierRoutes.SupplierCollection.Put` | backend/routes/suppliers.js:82-111 | a missing id gives 404 and no change. Otherwise the updated document replaces the stored one if the schema accepts it (else 500 and no change). The invariant is kept |
| `SupplierRoutes.SupplierCollection.Delete` | backend/routes/suppliers.js:116-131 | a missing id gives 404 and no change; otherwise exactly that document is removed and the invariant is kept |
| `WarehouseRoutes.Validate` | backend/routes/warehouses.js:43-52 | no errors iff the trimmed name, location, manager and contact are non-empty and the capacity is numeric; at most five messages |
| `WarehouseRoutes.CreateDraft` | backend/routes/warehouses.js:55-66 | the name is the trimmed text sent; location, manager and contact are the text sent (undefined as ''); capacity as given; a falsy stock and status become 0 and "operational"; the creator is the authenticated user |
| `WarehouseRoutes.CreateResponse` | backend/routes/warehouses.js:41-78 | 400 with the messages iff validation fails. Otherwise 201 with the defaulted document if the schema accepts it, else 500 |
| `WarehouseRoutes.CreateDefaults` | backend/routes/warehouses.js:57-66 | a valid body with capacity at least 0 and stock and status undefined is created with 0 and "operational", the trimmed name and the location, manager and contact as sent |
| `WarehouseRoutes.NegativeCapacityRefused` | backend/routes/warehouses.js:45-68 | a negative capacity passes `isNumeric` but `save()` refuses it: 500 |
| `WarehouseRoutes.UpdateFields` | backend/routes/warehouses.js:94-100 | strings overwrite only when truthy; capacity and stock whenever defined, 0 included; id, creator and creation time never change |
| `WarehouseRoutes.ApplyUpdate` | backend/routes/warehouses.js:94-100 | the seven field assignments in order compute `UpdateFields` |
| `WarehouseRoutes.UpdateNothing` | backend/routes/warehouses.js:94-100 | a body with every field undefined leaves the document unchanged |
| `WarehouseRoutes.WarehouseCollection.List` | backend/routes/warehouses.js:12 | the listing is newest first and holds exactly the stored documents |
| `WarehouseRoutes.WarehouseCollection.Get` | backend/routes/warehouses.js:23-31 | 404 iff no document has the id; otherwise a stored document with the id |
| `WarehouseRoutes.WarehouseCollection.Post` | backend/routes/warehouses.js:41-78 | answers as `CreateResponse`; only a 201 stores (one document, appended); the invariant is kept |
| `WarehouseRoutes.WarehouseCollection.Put` | backend/routes/warehouses.js:83-112 | a missing id gives 404 and no change. Otherwise the updated document replaces the stored one if the schema accepts it (else 500 and no change). The invariant is kept |
| `WarehouseRoutes.WarehouseCollection.Delete` | backend/routes/warehouses.js:117-132 | a missing id gives 404 and no change; otherwise exactly that document is removed and the invariant is kept |
| `Dashboard.TotalsAreSums` | frontend/src/components/Dashboard.js:34-35 | total capacity and total stock are the sums of their field, 0 for no warehouses |
| `Dashboard.TotalCapacityIsSum` | frontend/src/components/Dashboard.js:34 | the capacity `reduce` from 0 is the sum of the warehouses' capacities |
| `Dashboard.TotalStockIsSum` | frontend/src/components/Dashboard.js:35 | the stock `reduce` from 0 is the sum of the warehouses' current stock |
| `Dashboard.TotalsAppend` | frontend/src/components/Dashboard.js:34-35 | one more warehouse adds its capacity and stock to the totals |
| `Dashboard.TotalsNonNegative` | frontend/src/components/Dashboard.js:34-35 | over documents the schema accepted, both totals are at least 0 |
| `Dashboard.ActiveSuppliers` | frontend/src/components/Dashboard.js:36 | the active count is at most the number of suppliers, and equal to it iff all are active |
| `Dashboard.OperationalWarehouses` | frontend/src/components/Dashboard.js:37 | the operational count is at most the number of warehouses, and equal to it iff all are operational |
| `Dashboard.CountsAppend` | frontend/src/components/Dashboard.js:36-37 | an added document raises its count by one exactly when it has the status |
| `Dashboard.Utilisation` | frontend/src/components/Dashboard.js:71 | 0 when total capacity is not positive, so nothing is divided by zero; otherwise the ratio of stock to capacity times 100 |
| `Dashboard.UtilisationBounded` | frontend/src/components/Dashboard.js:71 | when no warehouse holds more than its capacity, the figure lies in [0, 100] |
| `Dashboard.UtilisationOverfull` | frontend/src/components/Dashboard.js:71 | an instance: one accepted warehouse with stock 20 and capacity 10 gives 200. The general fact that the schema accepts stock above capacity is `Schema.WarehouseSchemaRefuses` |
| `Dashboard.RecentSuppliers` | frontend/src/components/Dashboard.js:92 | the table shows min(5, n) suppliers, a prefix of the list, and is empty only for no suppliers |
| `Dashboard.RecentWarehouses` | frontend/src/components/Dashboard.js:131 | the table shows min(5, n) warehouses, a prefix of the list, and is empty only for no warehouses |

## Left out

- `async`/`await`, `localStorage` as a browser API, other tabs writing the same storage: calls are sequential and storage is the `Store` class's fields.
- The real `btoa`/`atob` and `JSON.stringify`/`JSON.parse` of the token: base64 and JSON text formats are not modelled. `Token.Encode`/`Token.Decode` are a concrete length-prefixed codec with the same round trip on the payloads `btoa` accepts; `Token.Generate` refuses the others, where `btoa` throws. The text of that error (`MockApi.Message` of `Latin1Range`) is the browser's and differs between browsers.
- MockApi.CompareHash: bcryptjs hashes only the first 72 bytes of a password. So two passwords that share their first 72 bytes compare equal. The model's hash is collision-free. So the "only if" half of `CompareHash`, and `Authenticate`'s wrong-password failure, hold of the code only for passwords of at most 72 bytes.
- bcrypt's cost factor and one-wayness are not modelled.
- `generateId` (`Date.now()` plus `Math.random()`) and `Date.now()`/`new Date().toISOString()`: fresh ids, the instant and its text are inputs. So both `Date.now()` calls of one `generateToken` read the same instant.
- `Token.Verify`: does not model payloads that decode but lack `exp` or `user`; the codec only produces complete payloads.
- Floating point, `Math.round` and `toLocaleString` on the dashboard: numbers are exact reals. `Dashboard.Utilisation` is the figure before rounding.
- Unicode case mapping: `JsString.ToLower` maps ASCII `A`-`Z` only.
- Non-string or `null` JSON values in the server's request bodies (a `null` rating or a numeric name): the bodies are typed, one `Option` per field. Mongoose casts and `CastError`s, including a malformed ObjectId in `findById`, would be 500s and are not modelled.
- `isEmail` from express-validator is a parameter, and `isNumeric` is the presence of a numeric capacity; their definitions are not modelled.
- The auth middleware, the auth routes and `populate('createdBy', ...)` are not part of this model: the routes take the authenticated user's id as given.
- Mongo's sort is not promised stable: `SortDesc` states sortedness by `createdAt` and permutation only.
- `Documents` ties ObjectIds to a counter that only grows, so ids are never reused; real ObjectIds are unique by construction (time, machine, counter).
- React state, rendering, the form handlers, `App.js`, `Navbar.js`, `Warehouses.js` and `api.js` (a pass-through to the emulated API) are not part of this model.
- The dashboard's input shape: the model types its rows as `Schema.Supplier`/`Schema.Warehouse`, but on the mock back end they are schema-less records, where a record without `capacity` or `currentStock` would make the totals `NaN`. Such records are not modelled.
- JavaScript's `undefined` as a value: `MockApi.Value` has none. A payload key set to `undefined` is copied by the spread and then dropped by `JSON.stringify` when stored; the model has no such key.
- The mock `getAll` returns storage order (oldest first), so on the mock back end the dashboard's "recent" tables show the five oldest records; the model states the prefix property only.
