/**
 * The user model of models/user/index.js: validate the details against a
 * schema, derive the document id from the email, and keep users in the
 * `users` collection of the document store.
 */
module UserModel {
  import opened Wrappers
  import opened Json
  import opened Fs
  import opened HopValidate
  import opened AppErrors
  import opened Db

  /** What a user operation fails with: a thrown validation or type error, or the store's rejection. */
  datatype UserError = Thrown(thrown: AppErrors.Thrown) | Store(error: DbError)

  /** The collection the users live in. */
  const UsersCollection := "users"

  // ---------------------------------------------------------------------------
  // Document ids

  /** `generateUserIdFromEmail`: the email with every `@` and `.` removed. */
  function UserIdFromEmail(email: string): (id: string)
    ensures '@' !in id && '.' !in id
    ensures |id| <= |email|
    ensures ('@' in email || '.' in email) ==> |id| < |email|
  {
    if email == [] then []
    else (if email[0] == '@' || email[0] == '.' then [] else [email[0]]) + UserIdFromEmail(email[1..])
  }

  /** The id of a concatenation is the concatenation of the ids: the other characters keep their order. */
  lemma {:induction false} UserIdAppend(a: string, b: string)
    ensures UserIdFromEmail(a + b) == UserIdFromEmail(a) + UserIdFromEmail(b)
  {
    if a == [] {
      assert a + b == b;
    } else {
      assert (a + b)[1..] == a[1..] + b;
      UserIdAppend(a[1..], b);
    }
  }

  /** A string without `@` or `.` is its own id, so deriving an id twice changes nothing more. */
  lemma {:induction false} UserIdKeepsPlainText(s: string)
    requires '@' !in s && '.' !in s
    ensures UserIdFromEmail(s) == s
  {
    if s != [] {
      assert '@' !in s[1..] && '.' !in s[1..] by {
        forall i | 0 <= i < |s[1..]| ensures s[1..][i] == s[i + 1] { }
      }
      UserIdKeepsPlainText(s[1..]);
    }
  }

  lemma UserIdIdempotent(email: string)
    ensures UserIdFromEmail(UserIdFromEmail(email)) == UserIdFromEmail(email)
  {
    UserIdKeepsPlainText(UserIdFromEmail(email));
  }

  /** The id of validated details: `email.replace` throws when `email` is not a string. */
  function UserIdOf(details: Value): Result<string, UserError> {
    var email := Member(details, "email");
    if email.Str? then Ok(UserIdFromEmail(email.s))
    else if email.Undefined? || email.Null? then Err(Thrown(TypeError(ReadError(email, "replace"))))
    else Err(Thrown(TypeError("email.replace is not a function")))
  }

  // ---------------------------------------------------------------------------
  // Validation

  /** `validate(schema)(details)`: the validated value, or the error thrown. */
  function ValidateOrThrow(details: Value, rules: seq<SchemaEntry>): Result<Value, UserError>
    reads Hops(rules)
  {
    match Validate(details, ObjectSchema(rules))
    case Err(message) => Err(Thrown(TypeError(message)))
    case Ok(outcome) => if outcome.error.Some? then Err(Thrown(Invalid(outcome.error.value))) else Ok(outcome.value)
  }

  /**
   * The validated value is an object holding exactly the schema's fields;
   * the error thrown otherwise is the hop `Validation Error` for details
   * that are an object, and a type error for `undefined` or `null` details.
   */
  lemma ValidateOrThrowFacts(details: Value, rules: seq<SchemaEntry>)
    ensures var r := ValidateOrThrow(details, rules);
      && (r.Ok? ==> r.value.Obj? && r.value.fields.Keys == Fields(rules))
      && (r.Ok? <==> !(rules != [] && (details.Undefined? || details.Null?)) &&
                     forall i :: 0 <= i < |rules| ==> Passes(details, rules[i]))
      && (r.Err? && r.error.thrown.Invalid? ==> r.error.thrown.error.message == "Validation Error")
      && (r.Err? && r.error.thrown.TypeError? <==> rules != [] && (details.Undefined? || details.Null?))
  {
    ObjectOutcomeFacts(details, rules);
  }

  /** The entries of `obj` whose value is not `undefined`. */
  function Defined(obj: map<string, Value>): map<string, Value> {
    map k | k in obj && !obj[k].Undefined? :: obj[k]
  }

  /** `removeUndefinedPropsFromObj`: copy, entry by entry, the entries whose value is not `undefined`. */
  method RemoveUndefinedProps(obj: map<string, Value>) returns (r: map<string, Value>)
    ensures r.Keys == set k | k in obj && !obj[k].Undefined?
    ensures forall k :: k in r ==> r[k] == obj[k]
    ensures r == Defined(obj)
  {
    r := map[];
    var todo := obj.Keys;
    while todo != {}
      invariant todo <= obj.Keys
      invariant r.Keys == set k | k in obj && k !in todo && !obj[k].Undefined?
      invariant forall k :: k in r ==> r[k] == obj[k]
      decreases todo
    {
      var key :| key in todo;
      if !obj[key].Undefined? {
        r := r[key := obj[key]];
      }
      todo := todo - {key};
    }
  }

  // ---------------------------------------------------------------------------
  // The operations as transitions of the file system

  /** `userModel.create(userDetails)` */
  function UserCreate(s: FsState, dbPath: Path, rules: seq<SchemaEntry>, details: Value): (FsState, Result<Value, UserError>)
    reads Hops(rules)
  {
    var checked := ValidateOrThrow(details, rules);
    if checked.Err? then (s, Err(checked.error))
    else
      var id := UserIdOf(checked.value);
      if id.Err? then (s, Err(id.error))
      else
        var (t, r) := StoreCreate(s, dbPath, UsersCollection, id.value, checked.value);
        (t, if r.Err? then Err(Store(r.error)) else Ok(r.value))
  }

  /** `userModel.update(userId, updateDetails)` */
  function UserUpdate(s: FsState, dbPath: Path, rules: seq<SchemaEntry>, userId: string, details: Value)
    : (FsState, Result<Value, UserError>)
    reads Hops(rules)
  {
    var checked := ValidateOrThrow(details, rules);
    if checked.Err? then (s, Err(checked.error))
    else
      var (t, r) := StoreUpdate(s, dbPath, UsersCollection, userId, Obj(Defined(OwnEntries(checked.value))));
      (t, if r.Err? then Err(Store(r.error)) else Ok(r.value))
  }

  // ---------------------------------------------------------------------------
  // Properties of the user model

  /** Details the create schema rejects throw before the store is touched. */
  lemma CreateRejectsFirst(s: FsState, dbPath: Path, rules: seq<SchemaEntry>, details: Value)
    requires ValidateOrThrow(details, rules).Err?
    ensures UserCreate(s, dbPath, rules, details) == (s, Err(ValidateOrThrow(details, rules).error))
  {
  }

  /**
   * Accepted details with a string email are stored under the id derived
   * from that email, and come back with that id as `_id`.
   */
  lemma CreateStoresUnderEmailId(s: FsState, dbPath: Path, rules: seq<SchemaEntry>, details: Value)
    requires IsTree(s)
    requires ValidateOrThrow(details, rules).Ok?
    requires Member(ValidateOrThrow(details, rules).value, "email").Str?
    requires CanCreate(s, dbPath, UsersCollection,
      UserIdFromEmail(Member(ValidateOrThrow(details, rules).value, "email").s))
    ensures var user := ValidateOrThrow(details, rules).value;
      var id := UserIdFromEmail(Member(user, "email").s);
      var (t, r) := UserCreate(s, dbPath, rules, details);
      && r == Ok(WithId(user, id))
      && t.files == s.files[DocumentFilePath(dbPath, UsersCollection, id) := Encode(user)]
  {
    var user := ValidateOrThrow(details, rules).value;
    CreateStores(s, dbPath, UsersCollection, UserIdFromEmail(Member(user, "email").s), user);
  }

  /**
   * `update` passes only the supplied fields: a stored field the validated
   * details leave `undefined` keeps its stored value, and a supplied one
   * takes the new value, in what is written and what is returned.
   */
  lemma UpdateKeepsUnsupplied(s: FsState, dbPath: Path, rules: seq<SchemaEntry>, userId: string, details: Value)
    requires IsTree(s)
    requires var path := DocumentFilePath(dbPath, UsersCollection, userId);
      path in s.files && path !in s.locked && s.files[path].Stored? && s.files[path].value.Obj?
    requires ValidateOrThrow(details, rules).Ok?
    ensures var path := DocumentFilePath(dbPath, UsersCollection, userId);
      var stored := s.files[path].value.fields;
      var user := ValidateOrThrow(details, rules).value.fields;
      var (t, r) := UserUpdate(s, dbPath, rules, userId, details);
      var written := UpdateDetails(StoreGet(s, dbPath, UsersCollection, userId), Obj(Defined(user)));
      && r == Ok(WithId(written, userId))
      && t.files == s.files[path := Overwrite(s.files[path], Encode(written))]
      && written.Obj?
      && (forall k :: k in stored && k != "_id" && (k !in user || user[k].Undefined?) ==> written.fields[k] == stored[k])
      && (forall k :: k in user && !user[k].Undefined? ==> written.fields[k] == user[k])
  {
    var user := ValidateOrThrow(details, rules).value;
    ValidateOrThrowFacts(details, rules);
    UpdateMerges(s, dbPath, UsersCollection, userId, Obj(Defined(user.fields)));
  }

  // ---------------------------------------------------------------------------
  // The model on the machine's disk

  /** The exported `userModel`, over the `users` collection and the create and update schemas. */
  class Users {
    const users: Collection
    const createRules: seq<SchemaEntry>
    const updateRules: seq<SchemaEntry>

    constructor (db: Database, createRules: seq<SchemaEntry>, updateRules: seq<SchemaEntry>)
      ensures users.db == db && users.name == UsersCollection
      ensures this.createRules == createRules && this.updateRules == updateRules
      ensures Valid()
    {
      users := new Collection(db, UsersCollection);
      this.createRules := createRules;
      this.updateRules := updateRules;
    }

    /** The model's collection is `users`. */
    predicate Valid()
      reads this, users
    {
      users.name == UsersCollection
    }

    /** `userModel.create(userDetails)` */
    method Create(details: Value) returns (r: Result<Value, UserError>)
      requires Valid()
      modifies users.db.disk
      ensures (users.db.disk.state, r) == UserCreate(old(users.db.disk.state), users.db.DbPath(), createRules, details)
    {
      var checked := ValidateOrThrow(details, createRules);
      if checked.Err? {
        return Err(checked.error);
      }
      var id := UserIdOf(checked.value);
      if id.Err? {
        return Err(id.error);
      }
      var created := users.Create(id.value, checked.value);
      // The store leaves the schema's hop types as they were.
      assert forall h :: h in Hops(createRules) ==> h.tests == old(h.tests);
      r := if created.Err? then Err(Store(created.error)) else Ok(created.value);
    }

    /** `userModel.update(userId, updateDetails)` */
    method Update(userId: string, details: Value) returns (r: Result<Value, UserError>)
      requires Valid()
      modifies users.db.disk
      ensures (users.db.disk.state, r) == UserUpdate(old(users.db.disk.state), users.db.DbPath(), updateRules, userId, details)
    {
      var checked := ValidateOrThrow(details, updateRules);
      if checked.Err? {
        return Err(checked.error);
      }
      var supplied := RemoveUndefinedProps(OwnEntries(checked.value));
      ghost var data := Obj(Defined(OwnEntries(checked.value)));
      assert Obj(supplied) == data;
      var updated := users.Update(userId, Obj(supplied));
      assert forall h :: h in Hops(updateRules) ==> h.tests == old(h.tests);
      assert (users.db.disk.state, updated) == StoreUpdate(old(users.db.disk.state), users.db.DbPath(), UsersCollection, userId, data);
      r := if updated.Err? then Err(Store(updated.error)) else Ok(updated.value);
    }

    /** `userModel.get(userId)` */
    method Get(userId: string) returns (user: Value)
      requires Valid()
      ensures user == StoreGet(users.db.disk.state, users.db.DbPath(), UsersCollection, userId)
    {
      user := users.Get(userId);
    }

    /** `userModel.remove(userId)` */
    method Remove(userId: string) returns (removed: bool)
      requires Valid()
      modifies users.db.disk
      ensures (users.db.disk.state, removed) == StoreDelete(old(users.db.disk.state), users.db.DbPath(), UsersCollection, userId)
    {
      removed := users.Delete(userId);
    }
  }
}
