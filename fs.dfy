/**
 * The part of Node's `fs` module the document store relies on, as
 * transitions of an abstract file system: a set of directory paths, a map
 * from file paths to their contents, and a set of paths on which every
 * operation fails (standing for permission and other I/O errors).
 */
module Fs {
  import opened Wrappers
  import opened Json
  import opened JsonText

  /** A path as its segments: `path.join(dir, name)` appends a segment. */
  type Path = seq<string>

  /**
   * What a file holds: the value `JSON.parse` gives back (the file is that
   * value's JSON text), or `bytes` bytes of text it cannot parse (an empty
   * file, say).
   */
  datatype Content = Stored(value: Value) | Corrupt(bytes: nat)

  /** The error codes the operations reject with. */
  datatype FsError = ENOENT | EEXIST | EACCES | EISDIR | ENOTDIR | ENOTEMPTY | EBUSY | EBADF

  /** The file system flags: `'r'`, `'w'`, `'wx'` and `'r+'`. */
  datatype Flag = R | W | WX | RPlus

  /** What `lstat` tells apart. */
  datatype Stat = FileStat | DirStat

  datatype FsState = FsState(dirs: set<Path>, files: map<Path, Content>, locked: set<Path>)

  function Join(dir: Path, name: string): Path {
    dir + [name]
  }

  function Parent(p: Path): Path
    requires p != []
  {
    p[..|p| - 1]
  }

  /** `p` is `dir` or lies below it. */
  predicate Under(dir: Path, p: Path) {
    |dir| <= |p| && p[..|dir|] == dir
  }

  /** A tree: the root is a directory, every other entry sits in a directory, and no path is both. */
  predicate IsTree(s: FsState) {
    && [] in s.dirs
    && (forall p :: p in s.dirs && p != [] ==> Parent(p) in s.dirs)
    && (forall p :: p in s.files ==> p != [] && Parent(p) in s.dirs && p !in s.dirs)
  }

  predicate Exists(s: FsState, p: Path) {
    p in s.dirs || p in s.files
  }

  /** The names `readdir` lists for `dir`. */
  function Children(s: FsState, dir: Path): set<string> {
    set p | p in s.dirs + s.files.Keys && |p| == |dir| + 1 && p[..|dir|] == dir :: p[|dir|]
  }

  /** The error for a path whose parent directory is missing. */
  function MissingParent(s: FsState, p: Path): FsError
    requires p != []
  {
    if Parent(p) in s.files then ENOTDIR else ENOENT
  }

  // ---------------------------------------------------------------------------
  // The primitives

  /** `fs.mkdir(p)` */
  function Mkdir(s: FsState, p: Path): (FsState, Result<(), FsError>) {
    if p in s.locked then (s, Err(EACCES))
    else if p == [] || Exists(s, p) then (s, Err(EEXIST))
    else if Parent(p) !in s.dirs then (s, Err(MissingParent(s, p)))
    else (s.(dirs := s.dirs + {p}), Ok(()))
  }

  /** `fs.readdir(p)`, as the set of names it lists. */
  function ReadDir(s: FsState, p: Path): Result<set<string>, FsError> {
    if p in s.locked then Err(EACCES)
    else if p in s.files then Err(ENOTDIR)
    else if p !in s.dirs then Err(ENOENT)
    else Ok(Children(s, p))
  }

  /** `fs.lstat(p)` */
  function Lstat(s: FsState, p: Path): Result<Stat, FsError> {
    if p in s.locked then Err(EACCES)
    else if p in s.dirs then Ok(DirStat)
    else if p in s.files then Ok(FileStat)
    else Err(ENOENT)
  }

  /** `fs.rmdir(p)`: only an empty directory other than the root goes. */
  function Rmdir(s: FsState, p: Path): (FsState, Result<(), FsError>) {
    if p in s.locked then (s, Err(EACCES))
    else if p in s.files then (s, Err(ENOTDIR))
    else if p !in s.dirs then (s, Err(ENOENT))
    else if p == [] then (s, Err(EBUSY))
    else if Children(s, p) != {} then (s, Err(ENOTEMPTY))
    else (s.(dirs := s.dirs - {p}), Ok(()))
  }

  /** `fs.unlink(p)` */
  function Unlink(s: FsState, p: Path): (FsState, Result<(), FsError>) {
    if p in s.locked then (s, Err(EACCES))
    else if p in s.dirs then (s, Err(EISDIR))
    else if p !in s.files then (s, Err(ENOENT))
    else (s.(files := s.files - {p}), Ok(()))
  }

  /** `fs.readFile(p)` */
  function ReadFile(s: FsState, p: Path): Result<Content, FsError> {
    if p in s.locked then Err(EACCES)
    else if p in s.dirs then Err(EISDIR)
    else if p !in s.files then Err(ENOENT)
    else Ok(s.files[p])
  }

  /** The length of a file's text in bytes. */
  function Bytes(c: Content): nat {
    match c
    case Stored(v) => TextBytes(v)
    case Corrupt(n) => n
  }

  /**
   * A write from the start of a file that does not truncate it (`'r+'`):
   * text shorter than the old leaves the old text's tail behind. That tail
   * ends with the old text's last character, which JSON text never has as
   * white space, so the file no longer parses.
   */
  function Overwrite(prev: Content, c: Content): (r: Content)
    ensures Bytes(r) == if Bytes(c) < Bytes(prev) then Bytes(prev) else Bytes(c)
    ensures r.Stored? ==> r == c
    ensures Bytes(prev) <= Bytes(c) ==> r == c
  {
    if Bytes(c) < Bytes(prev) then Corrupt(Bytes(prev)) else c
  }

  /**
   * `fs.writeFile(p, data, {flag})`: `'w'` creates or replaces, `'wx'` only
   * creates, `'r+'` writes over an existing file without truncating it, and
   * `'r'` opens for reading so the write itself fails.
   */
  function WriteFile(s: FsState, p: Path, c: Content, flag: Flag): (FsState, Result<(), FsError>) {
    if p in s.locked then (s, Err(EACCES))
    else if p == [] || p in s.dirs then (s, Err(EISDIR))
    else
      match flag
      case R => (s, Err(if p in s.files then EBADF else ENOENT))
      case RPlus => if p in s.files then (s.(files := s.files[p := Overwrite(s.files[p], c)]), Ok(())) else (s, Err(ENOENT))
      case WX =>
        if p in s.files then (s, Err(EEXIST))
        else if Parent(p) !in s.dirs then (s, Err(MissingParent(s, p)))
        else (s.(files := s.files[p := c]), Ok(()))
      case W =>
        if p in s.files then (s.(files := s.files[p := c]), Ok(()))
        else if Parent(p) !in s.dirs then (s, Err(MissingParent(s, p)))
        else (s.(files := s.files[p := c]), Ok(()))
  }

  /**
   * `fs.open(p, flag)`, resolving to a descriptor (here the path): `'w'` and
   * `'wx'` leave an empty file, which does not parse.
   */
  function Open(s: FsState, p: Path, flag: Flag): (FsState, Result<Path, FsError>) {
    if p in s.locked then (s, Err(EACCES))
    else
      match flag
      case R => if Exists(s, p) then (s, Ok(p)) else (s, Err(ENOENT))
      case RPlus => if p in s.dirs then (s, Err(EISDIR)) else if p in s.files then (s, Ok(p)) else (s, Err(ENOENT))
      case _ =>
        if p == [] || p in s.dirs then (s, Err(EISDIR))
        else if flag == WX && p in s.files then (s, Err(EEXIST))
        else if p !in s.files && Parent(p) !in s.dirs then (s, Err(MissingParent(s, p)))
        else (s.(files := s.files[p := Corrupt(0)]), Ok(p))
  }

  // ---------------------------------------------------------------------------
  // Properties of the primitives

  /** A child listed by `readdir` is an entry, and every entry one level down is listed. */
  lemma ChildrenMembers(s: FsState, dir: Path)
    ensures forall n :: n in Children(s, dir) ==> Exists(s, Join(dir, n))
    ensures forall p :: Exists(s, p) && |p| == |dir| + 1 && p[..|dir|] == dir ==> p[|dir|] in Children(s, dir)
  {
    forall n | n in Children(s, dir) ensures Exists(s, Join(dir, n)) {
      var p :| p in s.dirs + s.files.Keys && |p| == |dir| + 1 && p[..|dir|] == dir && p[|dir|] == n;
      assert p == Join(dir, n);
    }
  }

  /** Every operation keeps the file system a tree. */
  lemma MkdirKeepsValid(s: FsState, p: Path)
    requires IsTree(s)
    ensures IsTree(Mkdir(s, p).0)
    ensures Mkdir(s, p).1.Ok? <==> p !in s.locked && !Exists(s, p) && p != [] && Parent(p) in s.dirs
  {
  }

  lemma RmdirKeepsValid(s: FsState, p: Path)
    requires IsTree(s)
    ensures IsTree(Rmdir(s, p).0)
  {
    var t := Rmdir(s, p).0;
    if Rmdir(s, p).1.Ok? {
      ChildrenMembers(s, p);
    }
  }

  lemma UnlinkKeepsValid(s: FsState, p: Path)
    requires IsTree(s)
    ensures IsTree(Unlink(s, p).0)
  {
  }

  lemma WriteFileKeepsValid(s: FsState, p: Path, c: Content, flag: Flag)
    requires IsTree(s)
    ensures IsTree(WriteFile(s, p, c, flag).0)
  {
  }

  lemma OpenKeepsValid(s: FsState, p: Path, flag: Flag)
    requires IsTree(s)
    ensures IsTree(Open(s, p, flag).0)
  {
  }

  /**
   * A successful write is what a following read returns, unless it was an
   * `'r+'` write of text shorter than the file's, after which the file does
   * not parse; nothing else changes.
   */
  lemma WriteThenRead(s: FsState, p: Path, c: Content, flag: Flag)
    requires WriteFile(s, p, c, flag).1.Ok?
    ensures var t := WriteFile(s, p, c, flag).0;
      && t.dirs == s.dirs && t.locked == s.locked
      && (flag != RPlus || Bytes(s.files[p]) <= Bytes(c) ==> t.files == s.files[p := c] && ReadFile(t, p) == Ok(c))
      && (flag == RPlus && Bytes(c) < Bytes(s.files[p]) ==>
            t.files == s.files[p := Corrupt(Bytes(s.files[p]))] && ReadFile(t, p) == Ok(Corrupt(Bytes(s.files[p]))))
  {
  }

  /** A failed write changes nothing; `'wx'` fails exactly on an existing file, an unwritable path or a missing parent. */
  lemma WriteFileFailure(s: FsState, p: Path, c: Content, flag: Flag)
    ensures WriteFile(s, p, c, flag).1.Err? ==> WriteFile(s, p, c, flag).0 == s
    ensures flag == WX ==>
      (WriteFile(s, p, c, flag).1.Err? <==> p in s.locked || p == [] || Exists(s, p) || Parent(p) !in s.dirs)
    ensures flag == WX && p in s.files && p !in s.locked && p !in s.dirs && p != [] ==> WriteFile(s, p, c, flag).1 == Err(EEXIST)
    ensures flag == RPlus ==> (WriteFile(s, p, c, flag).1.Ok? <==> p in s.files && p !in s.locked && p !in s.dirs && p != [])
  {
  }

  /** A removed file is gone for a following read; a failed unlink changes nothing. */
  lemma UnlinkThenRead(s: FsState, p: Path)
    ensures Unlink(s, p).1.Ok? <==> p in s.files && p !in s.locked && p !in s.dirs
    ensures Unlink(s, p).1.Ok? ==> ReadFile(Unlink(s, p).0, p) == Err(ENOENT)
    ensures Unlink(s, p).1.Err? ==> Unlink(s, p).0 == s
  {
  }

  /** Opening with `'r'` or `'r+'` never changes the file system. */
  lemma OpenForReading(s: FsState, p: Path, flag: Flag)
    requires flag == R || flag == RPlus
    ensures Open(s, p, flag).0 == s
    ensures Open(s, p, flag).1.Ok? ==> Exists(s, p)
  {
  }

  // ---------------------------------------------------------------------------
  // The file system itself

  /** The machine's file system, which the operations change in place. */
  class Disk {
    var state: FsState

    constructor (s: FsState)
      requires IsTree(s)
      ensures state == s
    {
      state := s;
    }

    predicate Valid()
      reads this
    {
      IsTree(state)
    }
  }
}
