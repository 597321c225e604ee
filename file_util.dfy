/**
 * The promise wrappers of lib/db/file-util.js, as operations on the machine's
 * file system. A rejected promise is an `Err` result; the two directory
 * helpers swallow every failure and so return nothing.
 */
module FileUtil {
  import opened Wrappers
  import opened Fs

  /** `createDirectory(dirPath)`: `mkdir`, with every failure (an existing directory too) swallowed. */
  method CreateDirectory(disk: Disk, dirPath: Path)
    modifies disk
    ensures disk.state == Mkdir(old(disk.state), dirPath).0
  {
    disk.state := Mkdir(disk.state, dirPath).0;
  }

  /** `openFile({path, mode = 'r'})`: the descriptor, or the failure unchanged. */
  method OpenFile(disk: Disk, path: Path, mode: Option<Flag>) returns (r: Result<Path, FsError>)
    modifies disk
    ensures var flag := if mode.Some? then mode.value else R;
      disk.state == Open(old(disk.state), path, flag).0 && r == Open(old(disk.state), path, flag).1
  {
    var flag := if mode.Some? then mode.value else R;
    var (s, res) := Open(disk.state, path, flag);
    disk.state := s;
    r := res;
  }

  /** `writeFile({path, data, mode = 'w'})`: the write, or the failure unchanged. */
  method WriteFile(disk: Disk, path: Path, data: Content, mode: Option<Flag>) returns (r: Result<(), FsError>)
    modifies disk
    ensures var flag := if mode.Some? then mode.value else W;
      disk.state == Fs.WriteFile(old(disk.state), path, data, flag).0 &&
      r == Fs.WriteFile(old(disk.state), path, data, flag).1
  {
    var flag := if mode.Some? then mode.value else W;
    var (s, res) := Fs.WriteFile(disk.state, path, data, flag);
    disk.state := s;
    r := res;
  }

  /** `readFile(path)`: the contents, or the failure unchanged. */
  method ReadFile(disk: Disk, path: Path) returns (r: Result<Content, FsError>)
    ensures r == Fs.ReadFile(disk.state, path)
  {
    r := Fs.ReadFile(disk.state, path);
  }

  /** `deleteFile(path)`: `unlink`, or the failure unchanged. */
  method DeleteFile(disk: Disk, path: Path) returns (r: Result<(), FsError>)
    modifies disk
    ensures disk.state == Unlink(old(disk.state), path).0 && r == Unlink(old(disk.state), path).1
  {
    var (s, res) := Unlink(disk.state, path);
    disk.state := s;
    r := res;
  }

  /** `readdir(dir)`: the children in some order, each once. */
  method ListDirectory(disk: Disk, dir: Path) returns (r: Result<seq<string>, FsError>)
    ensures ReadDir(disk.state, dir).Err? ==> r == Err(ReadDir(disk.state, dir).error)
    ensures ReadDir(disk.state, dir).Ok? ==>
      && r.Ok?
      && (forall n :: n in r.value <==> n in ReadDir(disk.state, dir).value)
      && (forall i, j :: 0 <= i < j < |r.value| ==> r.value[i] != r.value[j])
  {
    match ReadDir(disk.state, dir)
    case Err(e) => r := Err(e);
    case Ok(children) =>
      var left := children;
      var names: seq<string> := [];
      while left != {}
        invariant forall n :: n in children <==> n in names || n in left
        invariant forall n :: n in names ==> n !in left
        invariant forall i, j :: 0 <= i < j < |names| ==> names[i] != names[j]
        decreases |left|
      {
        var n :| n in left;
        names := names + [n];
        left := left - {n};
      }
      r := Ok(names);
  }

  // ---------------------------------------------------------------------------
  // removeDirectory

  /** Between `s0` and `s1` only entries at or below `dir` went away; nothing was created or rewritten. */
  ghost predicate RemovedOnlyUnder(s0: FsState, s1: FsState, dir: Path) {
    && s1.locked == s0.locked
    && s1.dirs <= s0.dirs
    && s1.files.Keys <= s0.files.Keys
    && (forall p :: p in s1.files ==> s1.files[p] == s0.files[p])
    && (forall p :: Exists(s0, p) && !Under(dir, p) ==> Exists(s1, p))
  }

  /** Nothing at or below `dir` exists. */
  ghost predicate Cleared(s: FsState, dir: Path) {
    forall p :: Under(dir, p) ==> !Exists(s, p)
  }

  /** No operation at or below `dir` fails for want of permission. */
  ghost predicate Unlocked(s: FsState, dir: Path) {
    forall p :: p in s.locked ==> !Under(dir, p)
  }

  /** `p` lies below one of the children `names` of `dir`. */
  predicate BelowOneOf(dir: Path, names: seq<string>, p: Path) {
    |p| > |dir| && p[..|dir|] == dir && p[|dir|] in names
  }

  /** In a tree every proper ancestor of an entry is a directory. */
  lemma {:induction false} AncestorIsDir(s: FsState, q: Path, p: Path)
    requires IsTree(s) && Exists(s, p) && Under(q, p) && q != p
    ensures q in s.dirs
    decreases |p|
  {
    var parent := Parent(p);
    assert parent in s.dirs;
    if parent != q {
      assert |q| < |p|;
      assert parent[..|q|] == p[..|q|];
      AncestorIsDir(s, q, parent);
    }
  }

  /** Below a child is below its directory. */
  lemma UnderChild(dir: Path, name: string, p: Path)
    requires Under(Join(dir, name), p)
    ensures Under(dir, p) && BelowOneOf(dir, [name], p)
  {
    assert p[..|dir|] == p[..|dir| + 1][..|dir|];
  }

  /** Deleting a file removes at most that file; when nothing there is locked it is gone, with nothing below it. */
  lemma UnlinkStep(s1: FsState, child: Path)
    requires IsTree(s1) && child in s1.files
    ensures RemovedOnlyUnder(s1, Unlink(s1, child).0, child)
    ensures child !in s1.locked ==> Cleared(Unlink(s1, child).0, child)
  {
    var s2 := Unlink(s1, child).0;
    if child !in s1.locked {
      forall p | Under(child, p) ensures !Exists(s2, p) {
        if p != child && Exists(s2, p) {
          AncestorIsDir(s1, child, p);
        }
      }
    }
  }

  /**
   * `removeDirectory(dirPath)`: every child of the directory is removed (a
   * file by `deleteFile`, a directory by a nested `removeDirectory`), and then
   * the directory itself, unless a child's `lstat` or `deleteFile` failed.
   * Every failure is swallowed. Only entries at or below the directory go;
   * when none of them is locked, all of them go.
   */
  method RemoveDirectory(disk: Disk, dir: Path)
    requires disk.Valid()
    modifies disk
    ensures disk.Valid()
    ensures RemovedOnlyUnder(old(disk.state), disk.state, dir)
    ensures Unlocked(old(disk.state), dir) && dir != [] && dir !in old(disk.state).files ==> Cleared(disk.state, dir)
    decreases set p | p in disk.state.dirs && Under(dir, p)
  {
    ghost var s0 := disk.state;
    var listing := ListDirectory(disk, dir);
    if listing.Err? {
      if dir !in s0.locked && dir !in s0.files {
        forall p | Under(dir, p) && Exists(s0, p) && p != dir ensures false {
          AncestorIsDir(s0, dir, p);
        }
      }
      return;
    }
    var names := listing.value;
    assert dir in s0.dirs;
    var failed := false;
    var i := 0;
    while i < |names|
      invariant 0 <= i <= |names|
      invariant disk.Valid()
      invariant RemovedOnlyUnder(s0, disk.state, dir)
      invariant forall p :: Exists(s0, p) && !BelowOneOf(dir, names[..i], p) ==> Exists(disk.state, p)
      invariant Unlocked(s0, dir) ==> !failed
      invariant Unlocked(s0, dir) ==> forall p :: BelowOneOf(dir, names[..i], p) ==> !Exists(disk.state, p)
    {
      ghost var s1 := disk.state;
      var child := Join(dir, names[i]);
      ChildExists(s0, s1, dir, names, i);
      var stat := Lstat(disk.state, child);
      if stat.Err? {
        failed := true;
      } else if stat.value == DirStat {
        ghost var below := set p | p in disk.state.dirs && Under(child, p);
        ghost var above := set p | p in s0.dirs && Under(dir, p);
        forall p | p in below ensures p in above {
          UnderChild(dir, names[i], p);
        }
        assert dir in above && dir !in below;
        assert below < above;
        RemoveDirectory(disk, child);
      } else {
        var deleted := DeleteFile(disk, child);
        UnlinkKeepsValid(s1, child);
        UnlinkStep(s1, child);
        if deleted.Err? {
          failed := true;
        }
      }
      ChildStep(s0, s1, disk.state, dir, names, i);
      i := i + 1;
    }
    assert names[..i] == names;
    if !failed {
      ghost var s1 := disk.state;
      RmdirKeepsValid(s1, dir);
      disk.state := Rmdir(disk.state, dir).0;
      FinalStep(s0, s1, dir, names);
    }
  }

  /** The next child still exists when its turn comes, and is unlocked when nothing under `dir` is. */
  lemma ChildExists(s0: FsState, s1: FsState, dir: Path, names: seq<string>, i: nat)
    requires i < |names|
    requires forall n :: n in names <==> n in Children(s0, dir)
    requires forall j, k :: 0 <= j < k < |names| ==> names[j] != names[k]
    requires s1.locked == s0.locked
    requires forall p :: Exists(s0, p) && !BelowOneOf(dir, names[..i], p) ==> Exists(s1, p)
    ensures Exists(s1, Join(dir, names[i]))
    ensures Unlocked(s0, dir) ==> Join(dir, names[i]) !in s1.locked
  {
    var child := Join(dir, names[i]);
    ChildrenMembers(s0, dir);
    assert child[..|dir|] == dir && child[|dir|] == names[i];
    assert names[i] !in names[..i];
  }

  /** One pass of the loop: the child's subtree alone may go, and goes entirely when nothing under `dir` is locked. */
  lemma ChildStep(s0: FsState, s1: FsState, s2: FsState, dir: Path, names: seq<string>, i: nat)
    requires i < |names|
    requires RemovedOnlyUnder(s0, s1, dir)
    requires RemovedOnlyUnder(s1, s2, Join(dir, names[i]))
    requires forall p :: Exists(s0, p) && !BelowOneOf(dir, names[..i], p) ==> Exists(s1, p)
    requires Unlocked(s0, dir) ==> forall p :: BelowOneOf(dir, names[..i], p) ==> !Exists(s1, p)
    requires Unlocked(s0, dir) ==> Cleared(s2, Join(dir, names[i]))
    ensures RemovedOnlyUnder(s0, s2, dir)
    ensures forall p :: Exists(s0, p) && !BelowOneOf(dir, names[..i + 1], p) ==> Exists(s2, p)
    ensures Unlocked(s0, dir) ==> forall p :: BelowOneOf(dir, names[..i + 1], p) ==> !Exists(s2, p)
  {
    var child := Join(dir, names[i]);
    assert names[..i + 1] == names[..i] + [names[i]];
    forall p | Exists(s1, p) && !Under(dir, p) ensures Exists(s2, p) {
      if Under(child, p) {
        UnderChild(dir, names[i], p);
      }
    }
    forall p | Exists(s0, p) && !BelowOneOf(dir, names[..i + 1], p) ensures Exists(s2, p) {
      if Under(child, p) {
        UnderChild(dir, names[i], p);
      }
    }
    if Unlocked(s0, dir) {
      forall p | BelowOneOf(dir, names[..i + 1], p) ensures !Exists(s2, p) {
        if p[|dir|] == names[i] {
          assert p[..|child|] == p[..|dir|] + [p[|dir|]];
          assert Under(child, p);
        } else {
          assert p[|dir|] in names[..i];
          assert BelowOneOf(dir, names[..i], p);
        }
      }
    }
  }

  /** After the loop: with nothing locked below it, the directory is empty and `rmdir` removes it. */
  lemma FinalStep(s0: FsState, s1: FsState, dir: Path, names: seq<string>)
    requires IsTree(s1)
    requires ReadDir(s0, dir).Ok?
    requires forall n :: n in names <==> n in Children(s0, dir)
    requires RemovedOnlyUnder(s0, s1, dir)
    requires forall p :: Exists(s0, p) && !BelowOneOf(dir, names, p) ==> Exists(s1, p)
    requires Unlocked(s0, dir) ==> forall p :: BelowOneOf(dir, names, p) ==> !Exists(s1, p)
    ensures RemovedOnlyUnder(s0, Rmdir(s1, dir).0, dir)
    ensures Unlocked(s0, dir) && dir != [] ==> Cleared(Rmdir(s1, dir).0, dir)
  {
    if Unlocked(s0, dir) && dir != [] {
      ChildrenMembers(s1, dir);
      ChildrenMembers(s0, dir);
      assert Children(s1, dir) == {};
      assert Exists(s0, dir) && !BelowOneOf(dir, names, dir);
      assert dir in s1.dirs;
      var s2 := Rmdir(s1, dir).0;
      forall p | Under(dir, p) && p != dir && Exists(s2, p) ensures false {
        var q := p[..|dir| + 1];
        assert q[..|dir|] == dir;
        if q != p {
          AncestorIsDir(s1, q, p);
        }
      }
    }
  }
}
