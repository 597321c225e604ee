/**
 * The file-backed document store of lib/db/index.js: a database directory
 * under the working directory, one sub-directory per collection and one JSON
 * file per document. The store operations are first given as functions of
 * the file system state; the classes `Database` and `Collection` then carry
 * them out on the machine's `Disk`.
 */
module Db {
  import opened Wrappers
  import opened Json
  import opened Fs
  import opened JsonText
  import FileUtil

  /** What the store operations reject with: the file system's error, or `update`'s own `Error`. */
  datatype DbError = Io(code: FsError) | NotFound(message: string)

  /** `getDbFilePath()`: `databaseName || '.data'` under the working directory. */
  function DbFilePath(cwd: Path, databaseName: Option<string>): Path {
    Fs.Join(cwd, if databaseName.Some? && databaseName.value != "" then databaseName.value else ".data")
  }

  /** `getDocumentFilePath(collectionName)(docId)`: `<database>/<collection>/<docId>.json`. */
  function DocumentFilePath(dbPath: Path, collection: string, docId: string): Path {
    Fs.Join(Fs.Join(dbPath, collection), docId + ".json")
  }

  /**
   * What `JSON.stringify(data)` leaves in the file, as `JSON.parse` will read
   * it back: `undefined` is written as the text `undefined`, which does not
   * parse.
   */
  function Encode(data: Value): Content {
    if data.Undefined? then Corrupt(|"undefined"|) else Stored(Jsonify(data))
  }

  /** The message of the `Error` `update` throws for a missing document. */
  function MissingMessage(docId: string): string {
    "Document (" + docId + ") does not exist"
  }

  // ---------------------------------------------------------------------------
  // The operations as transitions of the file system

  /**
   * `create({docId, data})`: make the collection directory (a failure is
   * swallowed), write the document exclusively (a failure rejects), and
   * return `data` with `_id` laid on top.
   */
  function StoreCreate(s: FsState, dbPath: Path, collection: string, docId: string, data: Value)
    : (FsState, Result<Value, DbError>)
  {
    var s1 := Mkdir(s, Fs.Join(dbPath, collection)).0;
    var (s2, written) := WriteFile(s1, DocumentFilePath(dbPath, collection, docId), Encode(data), WX);
    if written.Err? then (s2, Err(Io(written.error))) else (s2, Ok(WithId(data, docId)))
  }

  /** `get(docId)`: `null` on any failure; an object-typed document comes back with `_id` laid on top. */
  function StoreGet(s: FsState, dbPath: Path, collection: string, docId: string): Value {
    match ReadFile(s, DocumentFilePath(dbPath, collection, docId))
    case Err(_) => Null
    case Ok(content) =>
      if content.Corrupt? then Null
      else if IsObject(content.value) then WithId(content.value, docId)
      else content.value
  }

  /** `delete(docId)`: whether the file was removed. */
  function StoreDelete(s: FsState, dbPath: Path, collection: string, docId: string): (FsState, bool) {
    var (s1, removed) := Unlink(s, DocumentFilePath(dbPath, collection, docId));
    (s1, removed.Ok?)
  }

  /** The value `update` writes: a shallow merge when both sides are object-typed, `data` otherwise. */
  function UpdateDetails(document: Value, data: Value): Value {
    if IsObject(data) && IsObject(document) then Spread(document, data) else data
  }

  /**
   * `update({docId, data})`: read the document with `get`, reject when that
   * is falsy, otherwise write the merge over the file in place (`'r+'`,
   * which does not truncate it).
   */
  function StoreUpdate(s: FsState, dbPath: Path, collection: string, docId: string, data: Value)
    : (FsState, Result<Value, DbError>)
  {
    var document := StoreGet(s, dbPath, collection, docId);
    if !Truthy(document) then (s, Err(NotFound(MissingMessage(docId))))
    else
      var details := UpdateDetails(document, data);
      var (s1, written) := WriteFile(s, DocumentFilePath(dbPath, collection, docId), Encode(details), RPlus);
      if written.Err? then (s1, Err(Io(written.error)))
      else (s1, Ok(if IsObject(details) then WithId(details, docId) else details))
  }

  // ---------------------------------------------------------------------------
  // Properties of the store

  /** Without a name, or with an empty one, the database is `<cwd>/.data`; documents sit two levels below it. */
  lemma DocumentLocation(cwd: Path, databaseName: Option<string>, collection: string, docId: string)
    ensures databaseName.None? || databaseName == Some("") ==> DbFilePath(cwd, databaseName) == cwd + [".data"]
    ensures databaseName.Some? && databaseName.value != "" ==> DbFilePath(cwd, databaseName) == cwd + [databaseName.value]
    ensures DocumentFilePath(DbFilePath(cwd, databaseName), collection, docId) ==
      DbFilePath(cwd, databaseName) + [collection, docId + ".json"]
  {
  }

  /** What the collection's setup needs for `create` to reach the exclusive write of an absent document. */
  predicate CanCreate(s: FsState, dbPath: Path, collection: string, docId: string) {
    var dir := Fs.Join(dbPath, collection);
    var path := DocumentFilePath(dbPath, collection, docId);
    && dbPath in s.dirs
    && dir !in s.files && dir !in s.locked
    && !Exists(s, path) && path !in s.locked
  }

  /**
   * `create` on an absent document, whether or not its collection directory
   * exists yet: it stores the JSON form of `data`, changes no other file, and
   * returns `data` with `_id` set to the document id.
   */
  lemma CreateStores(s: FsState, dbPath: Path, collection: string, docId: string, data: Value)
    requires IsTree(s)
    requires CanCreate(s, dbPath, collection, docId)
    ensures var (t, r) := StoreCreate(s, dbPath, collection, docId, data);
      && r == Ok(WithId(data, docId))
      && t.files == s.files[DocumentFilePath(dbPath, collection, docId) := Encode(data)]
      && Fs.Join(dbPath, collection) in t.dirs
  {
    var dir := Fs.Join(dbPath, collection);
    var s1 := Mkdir(s, dir).0;
    var path := DocumentFilePath(dbPath, collection, docId);
    assert dir in s1.dirs && Parent(path) == dir;
    assert path !in s1.dirs && path !in s1.files;
  }

  /** A plain object created in the store is what a following `get` returns, and what `create` returned. */
  lemma CreateThenGet(s: FsState, dbPath: Path, collection: string, docId: string, data: Value)
    requires IsTree(s)
    requires CanCreate(s, dbPath, collection, docId)
    requires data.Obj? && JsonClean(data)
    ensures var (t, r) := StoreCreate(s, dbPath, collection, docId, data);
      r.Ok? && StoreGet(t, dbPath, collection, docId) == r.value
  {
    CreateStores(s, dbPath, collection, docId, data);
    var t := StoreCreate(s, dbPath, collection, docId, data).0;
    var path := DocumentFilePath(dbPath, collection, docId);
    JsonifyKeepsClean(data);
    assert Encode(data) == Stored(data);
    assert ReadFile(t, path) == Ok(Stored(data)) by {
      assert t.files[path] == Stored(data);
      assert path !in t.locked && path !in t.dirs;
    }
  }

  /** `create` on a document that exists rejects with `EEXIST` and changes nothing. */
  lemma CreateIsExclusive(s: FsState, dbPath: Path, collection: string, docId: string, data: Value)
    requires IsTree(s)
    requires DocumentFilePath(dbPath, collection, docId) in s.files
    requires DocumentFilePath(dbPath, collection, docId) !in s.locked
    ensures StoreCreate(s, dbPath, collection, docId, data) == (s, Err(Io(EEXIST)))
  {
    var dir := Fs.Join(dbPath, collection);
    var path := DocumentFilePath(dbPath, collection, docId);
    assert Parent(path) == dir;
    assert Mkdir(s, dir).0 == s;
  }

  /** `get` yields `null` for a missing, unreadable or unparsable document. */
  lemma GetNull(s: FsState, dbPath: Path, collection: string, docId: string)
    ensures var read := ReadFile(s, DocumentFilePath(dbPath, collection, docId));
      read.Err? || read.value.Corrupt? ==> StoreGet(s, dbPath, collection, docId) == Null
  {
  }

  /**
   * A stored object-typed value (a plain object, an array or `null`) comes
   * back as an object whose `_id` is the document id, over any stored `_id`,
   * with its other own entries kept; any other stored value comes back as is.
   */
  lemma GetStored(s: FsState, dbPath: Path, collection: string, docId: string)
    requires ReadFile(s, DocumentFilePath(dbPath, collection, docId)).Ok?
    requires ReadFile(s, DocumentFilePath(dbPath, collection, docId)).value.Stored?
    ensures var doc := ReadFile(s, DocumentFilePath(dbPath, collection, docId)).value.value;
      var r := StoreGet(s, dbPath, collection, docId);
      && (IsObject(doc) ==> r.Obj? && r.fields["_id"] == Str(docId) && r.fields.Keys == OwnEntries(doc).Keys + {"_id"})
      && (IsObject(doc) ==> forall k :: k in OwnEntries(doc) && k != "_id" ==> r.fields[k] == OwnEntries(doc)[k])
      && (!IsObject(doc) ==> r == doc)
  {
  }

  /** `update` of a document `get` finds falsy (missing, say) rejects with `Document (<id>) does not exist` and writes nothing. */
  lemma UpdateMissing(s: FsState, dbPath: Path, collection: string, docId: string, data: Value)
    requires !Truthy(StoreGet(s, dbPath, collection, docId))
    ensures StoreUpdate(s, dbPath, collection, docId, data) ==
      (s, Err(NotFound("Document (" + docId + ") does not exist")))
  {
  }

  /**
   * `update` of a stored object with object data: the stored keys `data`
   * does not mention are kept, `data` wins on its own keys, `_id` is the
   * document id unless `data` sets one, and the merge is what is written over
   * the file and (with `_id` set to the id) what is returned.
   */
  lemma UpdateMerges(s: FsState, dbPath: Path, collection: string, docId: string, data: Value)
    requires IsTree(s)
    requires var path := DocumentFilePath(dbPath, collection, docId);
      path in s.files && path !in s.locked && s.files[path].Stored? && s.files[path].value.Obj?
    requires data.Obj?
    ensures var path := DocumentFilePath(dbPath, collection, docId);
      var stored := s.files[path].value.fields;
      var (t, r) := StoreUpdate(s, dbPath, collection, docId, data);
      var merged := UpdateDetails(StoreGet(s, dbPath, collection, docId), data);
      && merged.Obj?
      && merged.fields.Keys == stored.Keys + data.fields.Keys + {"_id"}
      && (forall k :: k in data.fields ==> merged.fields[k] == data.fields[k])
      && (forall k :: k in stored && k !in data.fields && k != "_id" ==> merged.fields[k] == stored[k])
      && ("_id" !in data.fields ==> merged.fields["_id"] == Str(docId))
      && t.files == s.files[path := Overwrite(s.files[path], Encode(merged))]
      && r == Ok(WithId(merged, docId))
  {
  }

  /** `update` over a non-object document, or with non-object data, writes `data` itself over the file and returns it. */
  lemma UpdateReplaces(s: FsState, dbPath: Path, collection: string, docId: string, data: Value)
    requires IsTree(s)
    requires var path := DocumentFilePath(dbPath, collection, docId);
      path in s.files && path !in s.locked && s.files[path].Stored? && Truthy(StoreGet(s, dbPath, collection, docId))
    requires !IsObject(data) || !IsObject(s.files[DocumentFilePath(dbPath, collection, docId)].value)
    ensures var path := DocumentFilePath(dbPath, collection, docId);
      var (t, r) := StoreUpdate(s, dbPath, collection, docId, data);
      t.files == s.files[path := Overwrite(s.files[path], Encode(data))] &&
      r == Ok(if IsObject(data) then WithId(data, docId) else data)
  {
  }

  /**
   * After a successful `update` with object data over a stored object, `get`
   * finds the merge (with `_id` laid on top) when its text is no shorter
   * than the file's. When it is shorter, the old text's tail is left behind:
   * `get` yields `null` and a further `update` rejects as for a missing
   * document, although this one resolved.
   */
  lemma UpdateThenGet(s: FsState, dbPath: Path, collection: string, docId: string, data: Value, later: Value)
    requires IsTree(s)
    requires var path := DocumentFilePath(dbPath, collection, docId);
      path in s.files && path !in s.locked && s.files[path].Stored? && s.files[path].value.Obj?
    requires data.Obj?
    ensures var path := DocumentFilePath(dbPath, collection, docId);
      var (t, r) := StoreUpdate(s, dbPath, collection, docId, data);
      var merged := UpdateDetails(StoreGet(s, dbPath, collection, docId), data);
      && r.Ok?
      && (Bytes(s.files[path]) <= TextBytes(Jsonify(merged)) ==>
            StoreGet(t, dbPath, collection, docId) == WithId(Jsonify(merged), docId))
      && (TextBytes(Jsonify(merged)) < Bytes(s.files[path]) ==>
            && StoreGet(t, dbPath, collection, docId) == Null
            && StoreUpdate(t, dbPath, collection, docId, later) == (t, Err(NotFound(MissingMessage(docId)))))
  {
    var path := DocumentFilePath(dbPath, collection, docId);
    var (t, r) := StoreUpdate(s, dbPath, collection, docId, data);
    var merged := UpdateDetails(StoreGet(s, dbPath, collection, docId), data);
    UpdateMerges(s, dbPath, collection, docId, data);
    var c := Overwrite(s.files[path], Encode(merged));
    assert t.files[path] == c && t.locked == s.locked && t.dirs == s.dirs;
    GetOfContent(t, dbPath, collection, docId);
    if TextBytes(Jsonify(merged)) < Bytes(s.files[path]) {
      UpdateMissing(t, dbPath, collection, docId, later);
    }
  }

  /** What `get` makes of a readable file: `null` for text that does not parse, `{...value, _id}` for an object. */
  lemma GetOfContent(t: FsState, dbPath: Path, collection: string, docId: string)
    requires IsTree(t)
    requires var path := DocumentFilePath(dbPath, collection, docId);
      path in t.files && path !in t.locked
    ensures var c := t.files[DocumentFilePath(dbPath, collection, docId)];
      && (c.Corrupt? ==> StoreGet(t, dbPath, collection, docId) == Null)
      && (c.Stored? && IsObject(c.value) ==> StoreGet(t, dbPath, collection, docId) == WithId(c.value, docId))
  {
  }

  /**
   * The shrinking update: a stored object that already carries its `_id`
   * (as every object `update` has written does), updated with a string field
   * shorter than the one stored, is lost to `get` and to later updates.
   */
  lemma UpdateShrinkLosesDocument(s: FsState, dbPath: Path, collection: string, docId: string,
                                  fields: map<string, Value>, key: string, a: string, b: string, later: Value)
    requires IsTree(s)
    requires var path := DocumentFilePath(dbPath, collection, docId);
      path in s.files && path !in s.locked && s.files[path] == Stored(Obj(fields))
    requires JsonClean(Obj(fields)) && "_id" in fields && fields["_id"] == Str(docId)
    requires key in fields && key != "_id" && fields[key] == Str(a) && CharsBytes(b) < CharsBytes(a)
    ensures var (t, r) := StoreUpdate(s, dbPath, collection, docId, Obj(map[key := Str(b)]));
      && r == Ok(Obj(fields[key := Str(b)]))
      && StoreGet(t, dbPath, collection, docId) == Null
      && StoreUpdate(t, dbPath, collection, docId, later) == (t, Err(NotFound(MissingMessage(docId))))
  {
    var data := Obj(map[key := Str(b)]);
    var merged := Obj(fields[key := Str(b)]);
    GetOfContent(s, dbPath, collection, docId);
    OwnIdKept(fields, docId);
    SpreadOneField(fields, key, Str(b));
    assert UpdateDetails(StoreGet(s, dbPath, collection, docId), data) == merged;
    ShorterMerge(fields, key, a, b, docId);
    UpdateThenGet(s, dbPath, collection, docId, data, later);
  }

  /** The merge of the shrinking update: clean, carrying its `_id`, and shorter than the stored text. */
  lemma ShorterMerge(fields: map<string, Value>, key: string, a: string, b: string, docId: string)
    requires JsonClean(Obj(fields)) && "_id" in fields && fields["_id"] == Str(docId)
    requires key in fields && key != "_id" && fields[key] == Str(a) && CharsBytes(b) < CharsBytes(a)
    ensures var merged := Obj(fields[key := Str(b)]);
      && Jsonify(merged) == merged
      && WithId(merged, docId) == merged
      && TextBytes(merged) < TextBytes(Obj(fields))
  {
    var merged := Obj(fields[key := Str(b)]);
    assert JsonClean(merged);
    JsonifyKeepsClean(merged);
    ShorterField(fields, key, a, b);
    OwnIdKept(fields[key := Str(b)], docId);
  }

  /** Laying `_id` over an object that already has that `_id` changes nothing. */
  lemma OwnIdKept(fields: map<string, Value>, docId: string)
    requires "_id" in fields && fields["_id"] == Str(docId)
    ensures WithId(Obj(fields), docId) == Obj(fields)
  {
    var w := WithId(Obj(fields), docId);
    assert w.fields.Keys == fields.Keys;
    assert w.fields == fields;
  }

  /** Spreading a one-field object over an object sets that field. */
  lemma SpreadOneField(fields: map<string, Value>, key: string, v: Value)
    ensures Spread(Obj(fields), Obj(map[key := v])) == Obj(fields[key := v])
  {
    var sp := Spread(Obj(fields), Obj(map[key := v]));
    assert sp.fields.Keys == fields[key := v].Keys;
    assert sp.fields == fields[key := v];
  }

  /**
   * A stored falsy primitive (`0`, `false`, `''`) makes `update` reject as if
   * the document were missing, while a stored `null` reads as `{_id}` and can
   * be updated.
   */
  lemma UpdateFalsyDocument(s: FsState, dbPath: Path, collection: string, docId: string, data: Value)
    requires var path := DocumentFilePath(dbPath, collection, docId);
      path in s.files && path !in s.locked && path !in s.dirs
    ensures var stored := s.files[DocumentFilePath(dbPath, collection, docId)];
      stored.Stored? && !IsObject(stored.value) && !Truthy(stored.value) ==>
        StoreUpdate(s, dbPath, collection, docId, data).1 == Err(NotFound(MissingMessage(docId)))
    ensures s.files[DocumentFilePath(dbPath, collection, docId)] == Stored(Null) ==>
      StoreGet(s, dbPath, collection, docId) == Obj(map["_id" := Str(docId)])
  {
    if s.files[DocumentFilePath(dbPath, collection, docId)] == Stored(Null) {
      var r := StoreGet(s, dbPath, collection, docId);
      assert r.fields.Keys == {"_id"};
    }
  }

  /** `delete` answers whether the file was there to remove; then `get` yields `null`. A failed delete changes nothing. */
  lemma DeleteThenGet(s: FsState, dbPath: Path, collection: string, docId: string)
    ensures var path := DocumentFilePath(dbPath, collection, docId);
      var (t, removed) := StoreDelete(s, dbPath, collection, docId);
      && (removed <==> path in s.files && path !in s.locked && path !in s.dirs)
      && (removed ==> StoreGet(t, dbPath, collection, docId) == Null)
      && (!removed ==> t == s)
  {
  }

  // ---------------------------------------------------------------------------
  // The store on the machine's disk

  /** The module state of lib/db/index.js: the working directory, the disk and `databaseName`. */
  class Database {
    const cwd: Path
    const disk: Disk
    var databaseName: Option<string>

    constructor (cwd: Path, disk: Disk)
      ensures this.cwd == cwd && this.disk == disk && databaseName == None
    {
      this.cwd := cwd;
      this.disk := disk;
      databaseName := None;
    }

    /** `getDbFilePath()`, read afresh on every call. */
    function DbPath(): Path
      reads this
    {
      DbFilePath(cwd, databaseName)
    }

    /** `initDb(dbName = '.data')`: remember the name and create the database directory, swallowing failures. */
    method InitDb(dbName: Option<string>)
      modifies this, disk
      ensures databaseName == Some(if dbName.Some? then dbName.value else ".data")
      ensures disk.state == Mkdir(old(disk.state), DbPath()).0
    {
      databaseName := Some(if dbName.Some? then dbName.value else ".data");
      FileUtil.CreateDirectory(disk, DbPath());
    }
  }

  /** `createModel(collectionName)`: the four document operations of one collection. */
  class Collection {
    const db: Database
    const name: string

    constructor (db: Database, name: string)
      ensures this.db == db && this.name == name
    {
      this.db := db;
      this.name := name;
    }

    /** `create({docId, data})` */
    method Create(docId: string, data: Value) returns (r: Result<Value, DbError>)
      modifies db.disk
      ensures (db.disk.state, r) == StoreCreate(old(db.disk.state), db.DbPath(), name, docId, data)
    {
      FileUtil.CreateDirectory(db.disk, Fs.Join(db.DbPath(), name));
      var written := FileUtil.WriteFile(db.disk, DocumentFilePath(db.DbPath(), name, docId), Encode(data), Some(WX));
      if written.Err? {
        return Err(Io(written.error));
      }
      r := Ok(WithId(data, docId));
    }

    /** `get(docId)` */
    method Get(docId: string) returns (document: Value)
      ensures document == StoreGet(db.disk.state, db.DbPath(), name, docId)
    {
      document := Null;
      var contents := FileUtil.ReadFile(db.disk, DocumentFilePath(db.DbPath(), name, docId));
      if contents.Ok? && contents.value.Stored? {
        var doc := contents.value.value;
        document := if IsObject(doc) then WithId(doc, docId) else doc;
      }
    }

    /** `delete(docId)` */
    method Delete(docId: string) returns (removed: bool)
      modifies db.disk
      ensures (db.disk.state, removed) == StoreDelete(old(db.disk.state), db.DbPath(), name, docId)
    {
      var deleted := FileUtil.DeleteFile(db.disk, DocumentFilePath(db.DbPath(), name, docId));
      removed := deleted.Ok?;
    }

    /** `update({docId, data})` */
    method Update(docId: string, data: Value) returns (r: Result<Value, DbError>)
      modifies db.disk
      ensures (db.disk.state, r) == StoreUpdate(old(db.disk.state), db.DbPath(), name, docId, data)
    {
      var document := Get(docId);
      if !Truthy(document) {
        return Err(NotFound(MissingMessage(docId)));
      }
      var details := if IsObject(data) && IsObject(document) then Spread(document, data) else data;
      var written := FileUtil.WriteFile(db.disk, DocumentFilePath(db.DbPath(), name, docId), Encode(details), Some(RPlus));
      if written.Err? {
        return Err(Io(written.error));
      }
      r := Ok(if IsObject(details) then WithId(details, docId) else details);
    }
  }
}
