/** The disk both checksum-aggregating stores write to, kept as a set of directory
    paths and a map from file paths to their contents, with the few POSIX path
    and file operations the stores call (`os.path.join`, `os.path.basename`,
    `os.makedirs`, `os.rmdir`, `os.remove`, `shutil.copy2`, `open().read()`). */
module DiskStore {
  import opened Common

  /** `os.path.join(a, b)` of posixpath: an absolute `b` replaces `a`; otherwise a
      slash is put between them unless `a` is empty or already ends in one. */
  function PathJoin(a: string, b: string): (r: string)
    ensures StartsWith(b, "/") ==> r == b
    ensures !StartsWith(b, "/") ==> |r| >= |b| && r[|r| - |b|..] == b
  {
    if StartsWith(b, "/") then b
    else if a == "" || a[|a| - 1] == '/' then a + b
    else a + "/" + b
  }

  /** `os.path.basename(p)`: what follows the last slash. */
  function Basename(p: string): (r: string)
    ensures '/' !in r
  {
    AfterLast(p, '/')
  }

  /** Joining a name that holds no slash onto a folder and taking the base name
      gives the name back. */
  lemma BasenameOfJoin(a: string, b: string)
    requires b != "" && '/' !in b
    ensures Basename(PathJoin(a, b)) == b
  {
    var r := PathJoin(a, b);
    assert !StartsWith(b, "/") by { assert b[0] in b; }
    if a == "" {
      assert r == b;
    } else {
      var j := if a[|a| - 1] == '/' then a else a + "/";
      assert r == j + b;
      assert j[|j| - 1] == '/';
      assert '/' in r by { assert r[|j| - 1] == '/'; }
      var before := BeforeLast(r, '/');
      assert |before| == |j| - 1;
      assert Basename(r) == r[|j|..];
      assert r[|j|..] == b;
    }
  }

  /** And the folder part of the join is the folder, when it is a plain directory
      path without a trailing slash. */
  lemma DirnameOfJoin(a: string, b: string)
    requires a != "" && a[|a| - 1] != '/' && b != "" && '/' !in b
    ensures BeforeLast(PathJoin(a, b), '/') == a
  {
    var r := PathJoin(a, b);
    assert !StartsWith(b, "/") by { assert b[0] in b; }
    assert r == a + "/" + b;
    assert '/' in r by { assert r[|a|] == '/'; }
    var before := BeforeLast(r, '/');
    assert |before| == |a|;
    assert before == r[..|a|] == a;
  }

  /** The folder a path lives in, when it names one: the part before its last
      slash, `/` for a path directly under the root. A relative path without a
      slash lives in the working directory, which is taken to exist. */
  function Parent(p: string): Option<string> {
    if '/' !in p then None
    else if BeforeLast(p, '/') == "" then Some("/")
    else Some(BeforeLast(p, '/'))
  }

  /** The folder `os.makedirs` looks at next above `p`: its parent; there is none
      above `/` or a relative name without a slash. */
  function Up(p: string): (r: Option<string>)
    ensures r.Some? ==> |r.value| < |p|
  {
    if p == "/" then None else Parent(p)
  }

  /** The folders `os.makedirs(p)` creates before `p`, outermost first: the
      ancestors of `p` up to the nearest one among `present`. */
  function Missing(present: set<string>, p: string): seq<string>
    decreases |p|
  {
    match Up(p)
    case None => []
    case Some(q) => if q in present then [] else Missing(present, q) + [q]
  }

  /** The nearest ancestor of `p` among `present`, where the missing chain hangs. */
  function Anchor(present: set<string>, p: string): Option<string>
    decreases |p|
  {
    match Up(p)
    case None => None
    case Some(q) => if q in present then Some(q) else Anchor(present, q)
  }

  /** The missing folders are missing, the anchor is present, and the parent of
      `p` is either missing or the anchor. */
  lemma {:induction false} MissingLaw(present: set<string>, p: string)
    ensures forall q :: q in Missing(present, p) ==> q !in present
    ensures Anchor(present, p).Some? ==> Anchor(present, p).value in present
    ensures Up(p).Some? ==> Up(p).value in Missing(present, p) || Anchor(present, p) == Up(p)
    decreases |p|
  {
    if Up(p).Some? && Up(p).value !in present {
      MissingLaw(present, Up(p).value);
    }
  }

  /** Some of the folders or files lies inside the folder `p`. */
  predicate EntryBelow(dirs: set<string>, files: set<string>, p: string) {
    (exists x :: x in dirs && StartsWith(x, p + "/")) ||
    (exists x :: x in files && StartsWith(x, p + "/"))
  }

  /** The path `shutil.copy2(src, dst)` writes to: into a folder `dst` under the
      source's base name, otherwise `dst` itself. */
  function CopyTarget(dirs: set<string>, src: string, dst: string): (r: string)
    ensures dst !in dirs ==> r == dst
  {
    if dst in dirs then PathJoin(dst, Basename(src)) else dst
  }

  class Disk {
    var dirs: set<string>
    var blobs: map<string, string>

    constructor(dirs: set<string>, blobs: map<string, string>)
      requires dirs !! blobs.Keys
      ensures this.dirs == dirs && this.blobs == blobs
      ensures Valid()
    {
      this.dirs := dirs;
      this.blobs := blobs;
    }

    /** On a real disk no path is both a folder and a file. */
    predicate Valid()
      reads this
    {
      dirs !! blobs.Keys
    }

    predicate Exists(p: string)
      reads this
    {
      p in dirs || p in blobs
    }

    /** Some directory or file lies inside the folder `p`. */
    predicate HasEntryBelow(p: string)
      reads this
    {
      EntryBelow(dirs, blobs.Keys, p)
    }

    /** `open(p).read()`: the contents, or IOError for a path that is no file. */
    function Read(p: string): (r: Result<string>)
      reads this
      ensures r.Ok? <==> p in blobs
      ensures r.Ok? ==> r.value == blobs[p]
      ensures r.Err? ==> r.error == IOError
    {
      if p in blobs then Ok(blobs[p]) else Err(IOError)
    }

    /** The nearest existing ancestor of `p` is a file, so creating the folder
        below it fails with ENOTDIR. */
    predicate UnderFile(p: string)
      reads this
    {
      var a := Anchor(dirs + blobs.Keys, p);
      a.Some? && a.value in blobs
    }

    /** `os.makedirs(p)`: OSError when `p` exists or its nearest existing ancestor
        is a file; otherwise `p` is made with every missing folder above it. */
    method MakeDirs(p: string) returns (err: Option<PyError>)
      modifies this
      ensures err.Some? <==> old(Exists(p) || UnderFile(p))
      ensures err.Some? ==> err.value == OSError && dirs == old(dirs)
      ensures err.None? ==> dirs == old(dirs) + (set q | q in old(Missing(dirs + blobs.Keys, p))) + {p}
      ensures err.None? && Up(p).Some? ==> Up(p).value in dirs
      ensures blobs == old(blobs)
      ensures old(Valid()) ==> Valid()
    {
      if Exists(p) || UnderFile(p) {
        return Some(OSError);
      }
      var present := dirs + blobs.Keys;
      MissingLaw(present, p);
      dirs := dirs + (set q | q in Missing(present, p)) + {p};
      return None;
    }

    /** `os.rmdir(p)`: only an existing, empty folder is removed. */
    method RemoveDir(p: string) returns (err: Option<PyError>)
      modifies this
      ensures err.None? <==> old(p in dirs && !HasEntryBelow(p))
      ensures err.Some? ==> err.value == OSError
      ensures err.None? ==> dirs == old(dirs) - {p}
      ensures err.Some? ==> dirs == old(dirs)
      ensures blobs == old(blobs)
      ensures old(Valid()) ==> Valid()
    {
      if p !in dirs || HasEntryBelow(p) {
        return Some(OSError);
      }
      dirs := dirs - {p};
      return None;
    }

    /** `os.remove(p)`: only an existing file is removed. */
    method Remove(p: string) returns (err: Option<PyError>)
      modifies this
      ensures err.None? <==> old(p in blobs)
      ensures err.Some? ==> err.value == OSError
      ensures err.None? ==> blobs == old(blobs) - {p}
      ensures err.Some? ==> blobs == old(blobs)
      ensures dirs == old(dirs)
      ensures old(Valid()) ==> Valid()
    {
      if p !in blobs {
        return Some(OSError);
      }
      blobs := blobs - {p};
      return None;
    }

    /** `shutil.copy2(src, dst)`: `copyfile` first raises `shutil.Error` when the
        target is the source file itself; otherwise IOError unless `src` is a file,
        the target is no folder and its folder exists; then the target holds the
        source's contents. */
    method Copy(src: string, dst: string) returns (err: Option<PyError>)
      modifies this
      ensures var t := CopyTarget(old(dirs), src, dst);
        (err.None? <==>
          old(src in blobs && t != src && t !in dirs && (Parent(t).None? || Parent(t).value in dirs))) &&
        (err.None? ==> blobs == old(blobs)[t := old(blobs)[src]]) &&
        (err.Some? ==> err.value == (if old(src in blobs) && t == src then ShutilError else IOError)) &&
        (err.Some? ==> blobs == old(blobs))
      ensures dirs == old(dirs)
      ensures old(Valid()) ==> Valid()
    {
      var t := CopyTarget(dirs, src, dst);
      if src in blobs && t == src {
        return Some(ShutilError);
      }
      if src !in blobs || t in dirs || (Parent(t).Some? && Parent(t).value !in dirs) {
        return Some(IOError);
      }
      blobs := blobs[t := blobs[src]];
      return None;
    }
  }
}
