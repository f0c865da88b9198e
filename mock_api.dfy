/**
 * The client-side emulation of the backend: users, suppliers and
 * warehouses kept in the browser's key-value storage, with registration,
 * login, the current session token and generic CRUD per record kind.
 *
 * The storage keys 'users', 'suppliers', 'warehouses' and 'currentToken'
 * are the fields of `Store`; an absent key is `None` (or a kind missing
 * from `collections`), which every read treats as `'[]'`. The clock, the
 * id generator and bcrypt's salt come in through `Env`.
 */
module MockApi {
  import opened Wrappers
  import Seqs
  import Token

  /** A JSON value as records hold it. */
  datatype Value = Null | Bool(b: bool) | Num(x: real) | Str(s: string) | Arr(items: seq<Value>)

  /** A stored supplier or warehouse: a schema-less object, an absent key being `undefined`. */
  type Record = map<string, Value>

  datatype Kind = Suppliers | Warehouses

  /** A bcrypt hash, idealised as collision-free: it matches exactly the password it was made from. */
  datatype PasswordHash = PasswordHash(salt: nat, secret: string)

  /** `bcrypt.hash(password, salt)`. */
  function HashPassword(password: string, salt: nat): PasswordHash {
    PasswordHash(salt, password)
  }

  /** `bcrypt.compare(attempt, hashed)`. */
  predicate ComparePassword(attempt: string, hashed: PasswordHash) {
    hashed.secret == attempt
  }

  /** What the code relies on of bcrypt: a hash matches its own password, whatever the salt, and no other. */
  lemma CompareHash(password: string, attempt: string, salt: nat)
    ensures ComparePassword(attempt, HashPassword(password, salt)) <==> attempt == password
  {
  }

  /** `genSalt` then `hash`: hashes of one password under two salts differ, and each matches it. */
  lemma SaltedHashes(password: string, salt1: nat, salt2: nat)
    ensures salt1 != salt2 ==> HashPassword(password, salt1) != HashPassword(password, salt2)
    ensures ComparePassword(password, HashPassword(password, salt1))
    ensures ComparePassword(password, HashPassword(password, salt2))
  {
  }

  datatype User = User(id: string, username: string, email: string, password: PasswordHash,
                       role: string, createdAt: string)

  /** The public view of a user, also what a token carries: no password. */
  function Snapshot(u: User): Token.Identity {
    Token.Identity(u.id, u.username, u.email, u.role)
  }

  /** What the clock (`Date.now()`, its ISO text), `generateId()` and `genSalt` supply to one call. */
  datatype Env = Env(now: nat, isoNow: string, freshId: string, salt: nat)

  /** The errors the mock throws; Latin1Range is what `btoa` throws inside generateToken. */
  datatype ApiError = UserExists | InvalidCredentials | NoToken | InvalidToken | NotFound(kind: Kind) | Latin1Range

  /** The message each error is thrown with. */
  function Message(e: ApiError): string {
    match e
    case UserExists => "User already exists with this email or username"
    case InvalidCredentials => "Invalid credentials"
    case NoToken => "No token found"
    case InvalidToken => "Invalid token"
    case NotFound(Suppliers) => "Supplier not found"
    case NotFound(Warehouses) => "Warehouse not found"
    case Latin1Range => "The string to be encoded contains characters outside of the Latin1 range."
  }

  /** `{ token, user }` as register and login return it. */
  datatype Session = Session(token: string, user: Token.Identity)

  /** `userData.role || 'user'`, with None for an absent role. */
  function DefaultRole(role: Option<string>): (r: string)
    ensures r != ""
    ensures role.Some? && role.value != "" ==> r == role.value
    ensures role.None? || role.value == "" ==> r == "user"
  {
    if role.Some? && role.value != "" then role.value else "user"
  }

  /** The record register builds. */
  function NewUser(username: string, email: string, password: string, role: Option<string>, env: Env): User {
    User(env.freshId, username, email, HashPassword(password, env.salt), DefaultRole(role), env.isoNow)
  }

  /**
   * The user register builds: the fresh id, the name and email as given,
   * the defaulted role, the ISO creation time, and a hash under the call's
   * salt that matches exactly the password given.
   */
  lemma NewUserFields(username: string, email: string, password: string, role: Option<string>, env: Env,
                      attempt: string)
    ensures var u := NewUser(username, email, password, role, env);
            && u.id == env.freshId && u.username == username && u.email == email
            && u.role == DefaultRole(role) && u.createdAt == env.isoNow && u.password.salt == env.salt
            && (ComparePassword(attempt, u.password) <==> attempt == password)
  {
    CompareHash(password, attempt, env.salt);
  }

  /** register's duplicate test: `u.email === email || u.username === username`. */
  predicate Clashes(u: User, username: string, email: string) {
    u.email == email || u.username == username
  }

  predicate AnyClash(users: seq<User>, username: string, email: string) {
    exists i :: 0 <= i < |users| && Clashes(users[i], username, email)
  }

  /** i is where `users.find(u => u.email === email)` stops. */
  predicate FirstWithEmail(users: seq<User>, email: string, i: int) {
    0 <= i < |users| && users[i].email == email && forall j :: 0 <= j < i ==> users[j].email != email
  }

  /**
   * login's check: the first user with the email, if its hash matches the
   * password. An unknown email and a wrong password fail alike.
   */
  function Authenticate(users: seq<User>, email: string, password: string): (r: Result<User, ApiError>)
    ensures r.Err? ==> r == Err(InvalidCredentials)
    ensures r.Ok? <==> exists i :: FirstWithEmail(users, email, i) && ComparePassword(password, users[i].password)
    ensures r.Ok? ==> exists i :: FirstWithEmail(users, email, i) && r.value == users[i]
  {
    match Seqs.FindIndex(users, (u: User) => u.email == email)
    case None => Err(InvalidCredentials)
    case Some(i) =>
      assert FirstWithEmail(users, email, i);
      assert forall j :: FirstWithEmail(users, email, j) ==> j == i;
      if ComparePassword(password, users[i].password) then Ok(users[i]) else Err(InvalidCredentials)
  }

  /** `s._id === id`. */
  predicate HasId(r: Record, id: string) {
    "_id" in r && r["_id"] == Str(id)
  }

  /** `records.find(s => s._id === id)`. */
  function Lookup(records: seq<Record>, id: string): Option<Record> {
    Seqs.Find(records, (r: Record) => HasId(r, id))
  }

  /** `records.findIndex(s => s._id === id)`. */
  function IndexOf(records: seq<Record>, id: string): Option<nat> {
    Seqs.FindIndex(records, (r: Record) => HasId(r, id))
  }

  /** `records.filter(s => s._id !== id)`. */
  function WithoutId(records: seq<Record>, id: string): seq<Record> {
    Seqs.Filter(records, (r: Record) => !HasId(r, id))
  }

  /**
   * `find` and `findIndex` with the same test agree: both fail exactly when
   * no record has the id, and otherwise `find` yields the record at the
   * first position `findIndex` reports, which has the id.
   */
  lemma LookupIndexOf(records: seq<Record>, id: string)
    ensures Lookup(records, id).None? <==> IndexOf(records, id).None?
    ensures Lookup(records, id).None? <==> forall i :: 0 <= i < |records| ==> !HasId(records[i], id)
    ensures IndexOf(records, id).Some? ==>
              Lookup(records, id) == Some(records[IndexOf(records, id).value]) &&
              HasId(Lookup(records, id).value, id)
  {
  }

  /**
   * `filter(s => s._id !== id)`: no record with the id is left, every
   * other record stays, and the list shrinks exactly when some record had
   * the id, which is delete's not-found test.
   */
  lemma WithoutIdSpec(records: seq<Record>, id: string)
    ensures forall i :: 0 <= i < |WithoutId(records, id)| ==> !HasId(WithoutId(records, id)[i], id)
    ensures forall i :: 0 <= i < |records| && !HasId(records[i], id) ==> records[i] in WithoutId(records, id)
    ensures |WithoutId(records, id)| < |records| <==> IndexOf(records, id).Some?
  {
  }

  /** `{ _id: generateId(), ...payload, createdBy: user.id, createdAt }`. */
  function NewRecord(payload: Record, id: string, creator: string, createdAt: string): (r: Record)
    ensures "createdBy" in r && r["createdBy"] == Str(creator)
    ensures "createdAt" in r && r["createdAt"] == Str(createdAt)
    ensures "_id" in r && r["_id"] == if "_id" in payload then payload["_id"] else Str(id)
    ensures forall k :: k in payload && k != "createdBy" && k != "createdAt" ==> k in r && r[k] == payload[k]
    ensures forall k :: k in r ==> k in payload || k == "_id" || k == "createdBy" || k == "createdAt"
  {
    map["_id" := Str(id)] + payload + map["createdBy" := Str(creator), "createdAt" := Str(createdAt)]
  }

  /** `{ ...current, ...payload }`: every key of the payload overwrites, every other key stays. */
  function Merge(current: Record, payload: Record): (r: Record)
    ensures r.Keys == current.Keys + payload.Keys
    ensures forall k :: k in payload ==> r[k] == payload[k]
    ensures forall k :: k in current && k !in payload ==> r[k] == current[k]
  {
    current + payload
  }

  /** What `localStorage.getItem('currentToken')` hands `atob`: an absent token reads as "null". */
  function StoredTokenText(token: Option<string>): string {
    match token
    case None => "null"
    case Some(t) => t
  }

  /** initializeStorage on one list key: create it empty if absent. */
  function Filled<T>(slot: Option<seq<T>>): (r: Option<seq<T>>)
    ensures r.Some? && r.value == slot.GetOr([])
    ensures slot.Some? ==> r == slot
  {
    if slot.None? then Some([]) else slot
  }

  /** initializeStorage on the record keys. */
  function FilledCollections(c: map<Kind, seq<Record>>): (r: map<Kind, seq<Record>>)
    ensures forall k :: k in r
    ensures forall k :: k in c ==> r[k] == c[k]
    ensures forall k :: k !in c ==> r[k] == []
  {
    map k: Kind | true :: if k in c then c[k] else []
  }

  /** initializeStorage is idempotent. */
  lemma FilledIdempotent(users: Option<seq<User>>, c: map<Kind, seq<Record>>)
    ensures Filled(Filled(users)) == Filled(users)
    ensures FilledCollections(FilledCollections(c)) == FilledCollections(c)
  {
    assert FilledCollections(FilledCollections(c)).Keys == FilledCollections(c).Keys;
  }

  // ---- properties across operations ----

  /** A user that register accepted can log in at once with the password it registered. */
  lemma RegisterThenLogin(users: seq<User>, username: string, email: string, password: string,
                          role: Option<string>, env: Env)
    requires !AnyClash(users, username, email)
    ensures Authenticate(users + [NewUser(username, email, password, role, env)], email, password) ==
            Ok(NewUser(username, email, password, role, env))
  {
    var u := NewUser(username, email, password, role, env);
    var p := (x: User) => x.email == email;
    assert forall i :: 0 <= i < |users| ==> !p(users[i]) by {
      assert forall i :: 0 <= i < |users| ==> !Clashes(users[i], username, email);
    }
    Seqs.FindIndexAppend(users, u, p);
    assert Seqs.FindIndex(users + [u], p) == Some(|users|);
  }

  /**
   * A register that `btoa` refused has still stored the user: the email
   * and username are taken from then on, and login with them finds the
   * user and fails again when it generates the token.
   */
  lemma HalfRegistered(users: seq<User>, username: string, email: string, password: string,
                       role: Option<string>, env: Env, now: nat)
    requires !AnyClash(users, username, email)
    requires !Token.Encodable(Snapshot(NewUser(username, email, password, role, env)))
    ensures AnyClash(users + [NewUser(username, email, password, role, env)], username, email)
    ensures Authenticate(users + [NewUser(username, email, password, role, env)], email, password) ==
            Ok(NewUser(username, email, password, role, env))
    ensures Token.Generate(Snapshot(NewUser(username, email, password, role, env)), now).None?
  {
    var u := NewUser(username, email, password, role, env);
    assert (users + [u])[|users|] == u;
    RegisterThenLogin(users, username, email, password, role, env);
  }

  /** A record created under a fresh id is what getById returns for that id. */
  lemma CreateThenGetById(records: seq<Record>, payload: Record, id: string, creator: string, createdAt: string)
    requires forall i :: 0 <= i < |records| ==> !HasId(records[i], id)
    requires "_id" !in payload
    ensures Lookup(records + [NewRecord(payload, id, creator, createdAt)], id) ==
            Some(NewRecord(payload, id, creator, createdAt))
  {
    var r := NewRecord(payload, id, creator, createdAt);
    var p := (x: Record) => HasId(x, id);
    Seqs.FindIndexAppend(records, r, p);
    assert Seqs.FindIndex(records + [r], p) == Some(|records|);
  }

  /**
   * After update at the first record with the id, getById finds the merged
   * record, unless the payload itself carries a different `_id`.
   */
  lemma UpdateThenGetById(records: seq<Record>, id: string, payload: Record)
    requires IndexOf(records, id).Some?
    requires "_id" !in payload || payload["_id"] == Str(id)
    ensures var i := IndexOf(records, id).value;
            Lookup(records[i := Merge(records[i], payload)], id) == Some(Merge(records[i], payload))
  {
    var i := IndexOf(records, id).value;
    var updated := records[i := Merge(records[i], payload)];
    var p := (x: Record) => HasId(x, id);
    assert forall j :: 0 <= j < i ==> updated[j] == records[j];
    assert p(updated[i]);
    assert Seqs.FindIndex(updated, p) == Some(i) by {
      var k := Seqs.FindIndex(updated, p);
      assert k.Some?;
      assert !(k.value < i);
      assert !(k.value > i);
    }
  }

  /**
   * The merge does not protect `_id`: a payload that carries another `_id`
   * renames the record, and the id it was the only holder of is gone.
   */
  lemma UpdateRenames(records: seq<Record>, id: string, newId: string)
    requires IndexOf(records, id).Some?
    requires forall j :: 0 <= j < |records| && j != IndexOf(records, id).value ==> !HasId(records[j], id)
    requires newId != id
    ensures var i := IndexOf(records, id).value;
            Lookup(records[i := Merge(records[i], map["_id" := Str(newId)])], id).None?
  {
    var i := IndexOf(records, id).value;
    var updated := records[i := Merge(records[i], map["_id" := Str(newId)])];
    forall j | 0 <= j < |updated| ensures !HasId(updated[j], id) {
      if j == i {
        assert updated[j]["_id"] == Str(newId);
      }
    }
  }

  /** An update with an empty payload changes nothing. */
  lemma UpdateEmptyPayload(current: Record)
    ensures Merge(current, map[]) == current
  {
  }

  /** After delete, no record answers to the id: getById and a second delete both fail. */
  lemma DeleteThenGetById(records: seq<Record>, id: string)
    ensures Lookup(WithoutId(records, id), id).None?
    ensures |WithoutId(WithoutId(records, id), id)| == |WithoutId(records, id)|
  {
  }

  /** The key-value storage as the mock API uses it. */
  class Store {
    /** 'users'. */
    var users: Option<seq<User>>
    /** 'suppliers' and 'warehouses'. */
    var collections: map<Kind, seq<Record>>
    /** 'currentToken'. */
    var currentToken: Option<string>

    /** An empty storage. */
    constructor ()
      ensures users == None && collections == map[] && currentToken == None
    {
      users := None;
      collections := map[];
      currentToken := None;
    }

    /** `JSON.parse(localStorage.getItem('users') || '[]')`. */
    function Users(): seq<User>
      reads this
    {
      users.GetOr([])
    }

    /** `JSON.parse(localStorage.getItem(kind) || '[]')`. */
    function Records(kind: Kind): seq<Record>
      reads this
    {
      if kind in collections then collections[kind] else []
    }

    predicate Initialized()
      reads this
    {
      users.Some? && Suppliers in collections && Warehouses in collections
    }

    /** `initializeStorage()`: creates the missing list keys, empty, and touches nothing else. */
    method InitializeStorage()
      modifies this
      ensures Initialized()
      ensures users == Filled(old(users))
      ensures collections == FilledCollections(old(collections))
      ensures currentToken == old(currentToken)
      ensures Users() == old(Users()) && forall k :: Records(k) == old(Records(k))
      ensures old(Initialized()) ==> users == old(users) && collections == old(collections)
    {
      if users.None? {
        users := Some([]);
      }
      if Suppliers !in collections {
        collections := collections[Suppliers := []];
      }
      if Warehouses !in collections {
        collections := collections[Warehouses := []];
      }
      ghost var filled := FilledCollections(old(collections));
      forall k: Kind
        ensures k in collections && collections[k] == filled[k]
      {
        match k
        case Suppliers =>
        case Warehouses =>
      }
      assert collections.Keys == filled.Keys;
    }

    /** `auth.register(userData)`. */
    method Register(username: string, email: string, password: string, role: Option<string>, env: Env)
      returns (r: Result<Session, ApiError>)
      modifies this
      ensures collections == FilledCollections(old(collections))
      ensures AnyClash(old(Users()), username, email) ==>
                r == Err(UserExists) && users == Some(old(Users())) && currentToken == old(currentToken)
      ensures !AnyClash(old(Users()), username, email) ==>
                var u := NewUser(username, email, password, role, env);
                && users == Some(old(Users()) + [u])
                && match Token.Generate(Snapshot(u), env.now)
                   case None => r == Err(Latin1Range) && currentToken == old(currentToken)
                   case Some(token) => currentToken == Some(token) && r == Ok(Session(token, Snapshot(u)))
    {
      InitializeStorage();
      var existing := Seqs.Find(users.value, (u: User) => Clashes(u, username, email));
      if existing.Some? {
        return Err(UserExists);
      }
      var newUser := NewUser(username, email, password, role, env);
      users := Some(users.value + [newUser]);
      var token := Token.Generate(Snapshot(newUser), env.now);
      if token.None? {
        return Err(Latin1Range);
      }
      currentToken := token;
      r := Ok(Session(token.value, Snapshot(newUser)));
    }

    /** `auth.login(credentials)`. */
    method Login(email: string, password: string, env: Env) returns (r: Result<Session, ApiError>)
      modifies this
      ensures users == Some(old(Users()))
      ensures collections == FilledCollections(old(collections))
      ensures match Authenticate(old(Users()), email, password)
              case Err(e) => r == Err(e) && currentToken == old(currentToken)
              case Ok(u) =>
                match Token.Generate(Snapshot(u), env.now)
                case None => r == Err(Latin1Range) && currentToken == old(currentToken)
                case Some(token) => currentToken == Some(token) && r == Ok(Session(token, Snapshot(u)))
    {
      InitializeStorage();
      var found := Authenticate(users.value, email, password);
      if found.Err? {
        return Err(found.error);
      }
      var token := Token.Generate(Snapshot(found.value), env.now);
      if token.None? {
        return Err(Latin1Range);
      }
      currentToken := token;
      r := Ok(Session(token.value, Snapshot(found.value)));
    }

    /** `auth.getMe()`: the snapshot in the current token; changes nothing. */
    method GetMe(now: nat) returns (r: Result<Token.Identity, ApiError>)
      ensures currentToken.None? || currentToken == Some("") ==> r == Err(NoToken)
      ensures currentToken.Some? && currentToken.value != "" ==>
                match Token.Verify(currentToken.value, now)
                case None => r == Err(InvalidToken)
                case Some(u) => r == Ok(u)
    {
      if currentToken.None? || currentToken.value == "" {
        return Err(NoToken);
      }
      var user := Token.Verify(currentToken.value, now);
      if user.None? {
        return Err(InvalidToken);
      }
      r := Ok(user.value);
    }

    /** The logout effect of the auth context: the current token is removed. */
    method Logout()
      modifies this
      ensures currentToken == None
      ensures users == old(users) && collections == old(collections)
    {
      currentToken := None;
    }

    /** `getAll()`: the whole list, in storage order. */
    method GetAll(kind: Kind) returns (r: seq<Record>)
      modifies this
      ensures r == old(Records(kind))
      ensures users == Filled(old(users)) && collections == FilledCollections(old(collections))
      ensures currentToken == old(currentToken)
    {
      InitializeStorage();
      r := collections[kind];
    }

    /** `getById(id)`: the first record with the id. */
    method GetById(kind: Kind, id: string) returns (r: Result<Record, ApiError>)
      modifies this
      ensures match Lookup(old(Records(kind)), id)
              case None => r == Err(NotFound(kind))
              case Some(x) => r == Ok(x)
      ensures users == Filled(old(users)) && collections == FilledCollections(old(collections))
      ensures currentToken == old(currentToken)
    {
      InitializeStorage();
      var found := Lookup(collections[kind], id);
      if found.None? {
        return Err(NotFound(kind));
      }
      r := Ok(found.value);
    }

    /** `create(payload)`: needs a token that verifies; appends one record stamped with its user. */
    method Create(kind: Kind, payload: Record, env: Env) returns (r: Result<Record, ApiError>)
      modifies this
      ensures users == Filled(old(users)) && currentToken == old(currentToken)
      ensures match Token.Verify(StoredTokenText(old(currentToken)), env.now)
              case None =>
                r == Err(InvalidToken) && collections == FilledCollections(old(collections))
              case Some(user) =>
                var record := NewRecord(payload, env.freshId, user.id, env.isoNow);
                && r == Ok(record)
                && collections == FilledCollections(old(collections))[kind := old(Records(kind)) + [record]]
    {
      InitializeStorage();
      var user := Token.Verify(StoredTokenText(currentToken), env.now);
      if user.None? {
        return Err(InvalidToken);
      }
      var record := NewRecord(payload, env.freshId, user.value.id, env.isoNow);
      collections := collections[kind := collections[kind] + [record]];
      r := Ok(record);
    }

    /** `update(id, payload)`: merges the payload over the first record with the id. */
    method Update(kind: Kind, id: string, payload: Record) returns (r: Result<Record, ApiError>)
      modifies this
      ensures users == Filled(old(users)) && currentToken == old(currentToken)
      ensures match IndexOf(old(Records(kind)), id)
              case None =>
                r == Err(NotFound(kind)) && collections == FilledCollections(old(collections))
              case Some(i) =>
                var record := Merge(old(Records(kind))[i], payload);
                && r == Ok(record)
                && collections == FilledCollections(old(collections))[kind := old(Records(kind))[i := record]]
    {
      InitializeStorage();
      var records := collections[kind];
      var index := IndexOf(records, id);
      if index.None? {
        return Err(NotFound(kind));
      }
      var record := Merge(records[index.value], payload);
      collections := collections[kind := records[index.value := record]];
      r := Ok(record);
    }

    /** `delete(id)`: drops every record with the id; an error if there is none. */
    method Delete(kind: Kind, id: string) returns (r: Result<(), ApiError>)
      modifies this
      ensures users == Filled(old(users)) && currentToken == old(currentToken)
      ensures var kept := WithoutId(old(Records(kind)), id);
              if |kept| == |old(Records(kind))| then
                r == Err(NotFound(kind)) && collections == FilledCollections(old(collections))
              else
                r == Ok(()) && collections == FilledCollections(old(collections))[kind := kept]
    {
      InitializeStorage();
      var records := collections[kind];
      var kept := WithoutId(records, id);
      if |kept| == |records| {
        return Err(NotFound(kind));
      }
      collections := collections[kind := kept];
      r := Ok(());
    }
  }
}
