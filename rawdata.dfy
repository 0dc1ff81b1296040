/** The raw-data store of morphdepot/models/core.py. A `NeuroRepresentation` owns a
    folder on disk named after its UUID and a list of `File` rows, one per file
    copied into that folder. Each file's checksum is the SHA-1 of its bytes; the
    container's checksum is the SHA-1 of its files' checksums concatenated in list
    order, and every file checksum update recomputes it. SHA-1 is a parameter
    (any function from the hashed bytes to the hex digest); the disk is a
    `DiskStore.Disk`. */
module RawData {
  import opened Common
  import opened UuidCodec
  import opened DiskStore
  import FileStat

  /** What a sequence of `hash.update(x)` calls feeds the hash: the arguments
      concatenated, or None when one of them is None (hashlib raises TypeError). */
  function Fed(parts: seq<Option<string>>): (r: Option<string>)
    ensures r.Some? <==> forall k :: 0 <= k < |parts| ==> parts[k].Some?
  {
    if parts == [] then Some("")
    else
      var f := Fed(parts[..|parts| - 1]);
      if f.None? || parts[|parts| - 1].None? then None
      else Some(f.value + parts[|parts| - 1].value)
  }

  /** Feeding one more present string extends the input by it. */
  lemma FedAppend(parts: seq<Option<string>>, x: string)
    ensures Fed(parts + [Some(x)]).Some? <==> Fed(parts).Some?
    ensures Fed(parts).Some? ==> Fed(parts + [Some(x)]) == Some(Fed(parts).value + x)
  {
    assert (parts + [Some(x)])[..|parts|] == parts;
  }

  /** With every argument present the input is their concatenation. */
  lemma {:induction false} FedOfPresent(xs: seq<string>)
    ensures Fed(seq(|xs|, k requires 0 <= k < |xs| => Some(xs[k]))) == Some(Concat(xs))
    decreases |xs|
  {
    var parts := seq(|xs|, k requires 0 <= k < |xs| => Some(xs[k]));
    if xs != [] {
      var init := xs[..|xs| - 1];
      FedOfPresent(init);
      assert parts[..|parts| - 1] == seq(|init|, k requires 0 <= k < |init| => Some(init[k]));
    }
  }

  /** The times and block size `os.stat` reports for a source file; its size is
      the length of the file's contents. */
  datatype StatTimes = StatTimes(atime: FileStat.Time, mtime: FileStat.Time, ctime: FileStat.Time, blksize: int)

  /** The `checksum` of each file, in list order. */
  function Checksums(fs: seq<File>): (r: seq<Option<string>>)
    reads fs
    ensures |r| == |fs|
  {
    if fs == [] then [] else Checksums(fs[..|fs| - 1]) + [fs[|fs| - 1].checksum]
  }

  /** Whether `shutil.copy2` of an existing file to `dst` writes it there: `dst`
      is no folder and its folder exists. */
  predicate Copies(dst: string, dirs: set<string>) {
    dst !in dirs && (Parent(dst).None? || Parent(dst).value in dirs)
  }

  /** The checksums change only when some file does. */
  twostate lemma ChecksumsFrame(fs: seq<File>)
    requires unchanged(fs)
    ensures Checksums(fs) == old(Checksums(fs))
  {
  }

  lemma ChecksumsAppend(fs: seq<File>, f: File)
    ensures Checksums(fs + [f]) == Checksums(fs) + [f.checksum]
  {
    assert (fs + [f])[..|fs|] == fs;
  }

  /** Entry `k` is the checksum of file `k`. */
  lemma {:induction false} ChecksumAt(fs: seq<File>, k: nat)
    requires k < |fs|
    ensures Checksums(fs)[k] == fs[k].checksum
    decreases |fs|
  {
    if k < |fs| - 1 {
      ChecksumAt(fs[..|fs| - 1], k);
    }
  }

  /** `str(self.id)`: the hyphenated UUID, or "None" before one is assigned. */
  function IdText(id: Option<Uuid>): (r: string)
    ensures '/' !in r
  {
    if id.None? then "None"
    else
      HyphenatedAlphabet(id.value);
      Hyphenated(id.value)
  }

  class File {
    var fileName: string
    var atime: FileStat.Time
    var mtime: FileStat.Time
    var ctime: FileStat.Time
    var blksize: int
    var size: int
    var checksum: Option<string>
    /** `neuro_representation`: set by the ORM when the file joins a container's
        `files` list. */
    var container: NeuroRepresentation?

    /** `File(file_name=…, st_*=…)`: a row not yet hashed or attached. */
    constructor(fileName: string, times: StatTimes, size: int)
      ensures this.fileName == fileName && this.size == size
      ensures atime == times.atime && mtime == times.mtime && ctime == times.ctime
      ensures blksize == times.blksize
      ensures checksum.None? && container == null
    {
      this.fileName := fileName;
      atime, mtime, ctime := times.atime, times.mtime, times.ctime;
      blksize := times.blksize;
      this.size := size;
      checksum := None;
      container := null;
    }

    /** The row constraint `check_filesize_positive`. */
    predicate SizeChecked()
      reads this
    {
      size >= 0
    }

    /** `get_abs_path`: the container's folder joined with the file name; a file in
        no container raises AttributeError on `None.get_abs_path`. */
    function AbsPath(): (r: Result<string>)
      reads this, container
      ensures r.Ok? <==> container != null
    {
      if container == null then Err(AttributeError)
      else Ok(PathJoin(container.AbsPath(), fileName))
    }

    /** `File.update_checksum`: hash the file's bytes on disk, store the digest,
        then recompute the container's checksum. */
    method UpdateChecksum(disk: Disk, sha1: string -> string) returns (err: Option<PyError>)
      modifies this, container
      ensures fileName == old(fileName) && size == old(size) && container == old(container)
      ensures atime == old(atime) && mtime == old(mtime) && ctime == old(ctime) && blksize == old(blksize)
      ensures container != null ==>
        container.files == old(container.files) && container.caption == old(container.caption) &&
        container.id == old(container.id)
      ensures container == null ==> err == Some(AttributeError) && checksum == old(checksum)
      ensures container != null && AbsPath().value !in disk.blobs ==>
        err == Some(IOError) && checksum == old(checksum) && container.checksum == old(container.checksum)
      ensures container != null && AbsPath().value in disk.blobs ==>
        checksum == Some(sha1(disk.blobs[AbsPath().value])) &&
        (var fed := Fed(Checksums(container.files));
         (err.None? <==> fed.Some?) &&
         (err.None? ==> container.checksum == Some(sha1(fed.value))) &&
         (err.Some? ==> err == Some(TypeError) && container.checksum == old(container.checksum)))
    {
      if container == null {
        return Some(AttributeError);
      }
      var contents := disk.Read(PathJoin(container.AbsPath(), fileName));
      if contents.Err? {
        return Some(contents.error);
      }
      checksum := Some(sha1(contents.value));
      label hashed:
      err := container.UpdateChecksum(sha1);
      ChecksumsFrame@hashed(container.files);
    }

    /** `File.delete_file`, run after the row is deleted: remove the file's copy. */
    method DeleteFile(disk: Disk) returns (err: Option<PyError>)
      modifies disk
      ensures container == null ==> err == Some(AttributeError) && unchanged(disk)
      ensures container != null ==>
        var p := AbsPath().value;
        (err.None? <==> p in old(disk.blobs)) &&
        (err.None? ==> disk.blobs == old(disk.blobs) - {p}) &&
        (err.Some? ==> err == Some(OSError) && disk.blobs == old(disk.blobs)) &&
        disk.dirs == old(disk.dirs)
    {
      var p := AbsPath();
      if p.Err? {
        return Some(p.error);
      }
      err := disk.Remove(p.value);
    }
  }

  class NeuroRepresentation {
    /** `label`. */
    var caption: string
    var checksum: Option<string>
    var id: Option<Uuid>
    var files: seq<File>
    /** `config.RAW_DATA['root_dir']`. */
    const rootDir: string

    constructor Blank(caption: string, rootDir: string)
      ensures this.caption == caption && this.rootDir == rootDir
      ensures checksum.None? && id.None? && files == []
    {
      this.caption := caption;
      this.rootDir := rootDir;
      checksum := None;
      id := None;
      files := [];
    }

    /** `get_abs_path`: the root directory joined with `str(self.id)`. */
    function AbsPath(): string
      reads this
    {
      PathJoin(rootDir, IdText(id))
    }

    /** `NeuroRepresentation.update_checksum`: feed every file's checksum to one
        SHA-1, in list order, and keep the digest. A file without a checksum makes
        `update(None)` raise TypeError before anything is stored. */
    method UpdateChecksum(sha1: string -> string) returns (err: Option<PyError>)
      modifies this
      ensures files == old(files) && caption == old(caption) && id == old(id)
      ensures var fed := Fed(old(Checksums(files)));
        (err.None? <==> fed.Some?) &&
        (err.None? ==> checksum == Some(sha1(fed.value))) &&
        (err.Some? ==> err == Some(TypeError) && checksum == old(checksum))
    {
      ghost var cs := Checksums(files);
      var fed := "";
      var i := 0;
      while i < |files|
        invariant 0 <= i <= |files|
        invariant unchanged(this)
        invariant Fed(cs[..i]) == Some(fed)
      {
        var c := files[i].checksum;
        ChecksumAt(files, i);
        if c.None? {
          return Some(TypeError);
        }
        assert cs[..i + 1] == cs[..i] + [Some(c.value)];
        FedAppend(cs[..i], c.value);
        fed := fed + c.value;
        i := i + 1;
      }
      assert cs[..i] == cs;
      checksum := Some(sha1(fed));
      return None;
    }

    /** `NeuroRepresentation(label)`: set the label, compute the checksum of the
        still empty file list, assign the UUID the caller drew (`uuid4()`), then
        create the folder and any missing one above it (`DiskStore.Disk.MakeDirs`). */
    static method Init(caption: string, newId: Uuid, rootDir: string, disk: Disk, sha1: string -> string)
      returns (nr: NeuroRepresentation, err: Option<PyError>)
      modifies disk
      ensures fresh(nr)
      ensures nr.caption == caption && nr.rootDir == rootDir && nr.files == []
      ensures nr.checksum == Some(sha1("")) && nr.id == Some(newId)
      ensures nr.AbsPath() == PathJoin(rootDir, Hyphenated(newId))
      ensures err.None? <==> !old(disk.Exists(PathJoin(rootDir, Hyphenated(newId))) ||
        disk.UnderFile(PathJoin(rootDir, Hyphenated(newId))))
      ensures err.Some? ==> err == Some(OSError) && disk.dirs == old(disk.dirs)
      ensures err.None? ==>
        disk.dirs == old(disk.dirs) +
          (set q | q in Missing(old(disk.dirs + disk.blobs.Keys), PathJoin(rootDir, Hyphenated(newId)))) + {nr.AbsPath()}
      ensures err.None? && Up(nr.AbsPath()).Some? ==> Up(nr.AbsPath()).value in disk.dirs
      ensures disk.blobs == old(disk.blobs)
    {
      nr := new NeuroRepresentation.Blank(caption, rootDir);
      var e := nr.UpdateChecksum(sha1);
      assert Checksums([]) == [];
      nr.id := Some(newId);
      var folder := nr.AbsPath();
      err := disk.MakeDirs(folder);
    }

    /** The new row put on `files`, which also sets its `neuro_representation`. */
    method Attach(fileName: string, times: StatTimes, size: int) returns (f: File)
      modifies this
      ensures fresh(f) && files == old(files) + [f] && f.container == this
      ensures f.fileName == fileName && f.size == size && f.checksum.None?
      ensures f.atime == times.atime && f.mtime == times.mtime && f.ctime == times.ctime
      ensures f.blksize == times.blksize
      ensures caption == old(caption) && id == old(id) && checksum == old(checksum)
    {
      f := new File(fileName, times, size);
      files := files + [f];
      f.container := this;
    }

    /** `add_file(path_to_file)`: stat the source (OSError when nothing is there),
        build a `File` named by the source's base name with its size, append it,
        copy the source into the folder under that name, then hash the copy, which
        recomputes this container's checksum. A folder passes `os.stat` with the
        size `dirSize` it reports, is appended, and then `copy2` fails to open it;
        a file already in the folder under its name is appended, and then `copy2`
        raises `shutil.Error`. */
    method AddFile(source: string, times: StatTimes, dirSize: int, disk: Disk, sha1: string -> string)
      returns (f: File?, err: Option<PyError>)
      requires disk.Valid()
      modifies this, disk
      ensures caption == old(caption) && id == old(id)
      ensures !old(disk.Exists(source)) ==>
        f == null && err == Some(OSError) && files == old(files) && unchanged(disk) && checksum == old(checksum)
      ensures source in old(disk.dirs) ==>
        f != null && fresh(f) && files == old(files) + [f] && f.container == this &&
        f.fileName == Basename(source) && f.size == dirSize && f.checksum.None? &&
        err == Some(IOError) && unchanged(disk) && checksum == old(checksum)
      ensures source in old(disk.blobs) ==>
        (f != null && fresh(f) && files == old(files) + [f] && f.container == this &&
         f.fileName == Basename(source) && f.size == |old(disk.blobs)[source]| && f.SizeChecked())
      ensures source in old(disk.blobs) ==> (f != null &&
        f.atime == times.atime && f.mtime == times.mtime && f.ctime == times.ctime && f.blksize == times.blksize)
      ensures source in old(disk.blobs) && CopySame(source, old(disk.dirs)) ==>
        err == Some(ShutilError) && disk.blobs == old(disk.blobs) && checksum == old(checksum)
      ensures source in old(disk.blobs) && !CopySame(source, old(disk.dirs)) &&
              !CopyMade(source, old(disk.dirs), old(disk.blobs)) ==>
        err == Some(IOError) && checksum == old(checksum)
      ensures source in old(disk.blobs) && !CopySame(source, old(disk.dirs)) &&
              !CopyMade(source, old(disk.dirs), old(disk.blobs)) ==>
        f != null && f.checksum.None?
      ensures source in old(disk.blobs) && !CopyMade(source, old(disk.dirs), old(disk.blobs)) &&
              PathJoin(AbsPath(), Basename(source)) !in old(disk.dirs) ==>
        disk.blobs == old(disk.blobs)
      ensures source in old(disk.blobs) && !CopySame(source, old(disk.dirs)) &&
              PathJoin(AbsPath(), Basename(source)) in old(disk.dirs) ==>
        var t := CopyTarget(old(disk.dirs), source, PathJoin(AbsPath(), Basename(source)));
        (Copies(t, old(disk.dirs)) ==> disk.blobs == old(disk.blobs)[t := old(disk.blobs)[source]]) &&
        (!Copies(t, old(disk.dirs)) ==> disk.blobs == old(disk.blobs))
      ensures CopyMade(source, old(disk.dirs), old(disk.blobs)) ==> (f != null &&
        disk.blobs == old(disk.blobs)[PathJoin(AbsPath(), Basename(source)) := old(disk.blobs)[source]] &&
        f.checksum == Some(sha1(old(disk.blobs)[source])))
      ensures CopyMade(source, old(disk.dirs), old(disk.blobs)) ==>
        var fed := Fed(old(Checksums(files)));
        (err.None? <==> fed.Some?) &&
        (err.None? ==> checksum == Some(sha1(fed.value + sha1(old(disk.blobs)[source]))))
      ensures disk.dirs == old(disk.dirs)
    {
      if !disk.Exists(source) {
        return null, Some(OSError);
      }
      if source in disk.dirs {
        f := Attach(Basename(source), times, dirSize);
        return f, Some(IOError);
      }
      ghost var prior := files;
      var g := Attach(Basename(source), times, |disk.blobs[source]|);
      f := g;
      ChecksumsFrame(prior);
      err := CopyIn(g, source, PathJoin(AbsPath(), g.fileName), disk, sha1, prior);
    }

    /** The second half of `add_file`: `shutil.copy2` of the source to the new
        file's path `dst`, then `update_checksum` of the file. */
    method CopyIn(g: File, source: string, dst: string, disk: Disk, sha1: string -> string, ghost prior: seq<File>)
      returns (err: Option<PyError>)
      requires disk.Valid() && source in disk.blobs
      requires files == prior + [g] && g !in prior && g.container == this
      requires dst == PathJoin(AbsPath(), g.fileName)
      modifies this, disk, g
      ensures caption == old(caption) && id == old(id) && files == old(files)
      ensures g.fileName == old(g.fileName) && g.size == old(g.size) && g.container == old(g.container)
      ensures g.atime == old(g.atime) && g.mtime == old(g.mtime) && g.ctime == old(g.ctime)
      ensures g.blksize == old(g.blksize)
      ensures CopyTarget(old(disk.dirs), source, dst) == source ==>
        err == Some(ShutilError) && disk.blobs == old(disk.blobs) &&
        checksum == old(checksum) && g.checksum == old(g.checksum)
      ensures CopyTarget(old(disk.dirs), source, dst) != source && !Copies(dst, old(disk.dirs)) ==>
        err == Some(IOError) && checksum == old(checksum) && g.checksum == old(g.checksum)
      ensures !Copies(dst, old(disk.dirs)) && dst !in old(disk.dirs) ==> disk.blobs == old(disk.blobs)
      ensures dst in old(disk.dirs) && CopyTarget(old(disk.dirs), source, dst) != source ==>
        var t := CopyTarget(old(disk.dirs), source, dst);
        (Copies(t, old(disk.dirs)) ==> disk.blobs == old(disk.blobs)[t := old(disk.blobs)[source]]) &&
        (!Copies(t, old(disk.dirs)) ==> disk.blobs == old(disk.blobs))
      ensures dst != source && Copies(dst, old(disk.dirs)) ==>
        disk.blobs == old(disk.blobs)[dst := old(disk.blobs)[source]] &&
        g.checksum == Some(sha1(old(disk.blobs)[source]))
      ensures dst != source && Copies(dst, old(disk.dirs)) ==>
        var fed := Fed(old(Checksums(prior)));
        (err.None? <==> fed.Some?) &&
        (err.None? ==> checksum == Some(sha1(fed.value + sha1(old(disk.blobs)[source]))))
      ensures disk.dirs == old(disk.dirs)
    {
      var contents := disk.blobs[source];
      ghost var same := CopyTarget(disk.dirs, source, dst) == source;
      ghost var made := dst != source && Copies(dst, disk.dirs);
      assert made ==> !same;
      err := disk.Copy(source, dst);
      if err.Some? {
        assert !made;
        assert same ==> err == Some(ShutilError);
        return;
      }
      assert !same;
      assert made ==> disk.blobs[dst] == contents;
      assert !made ==> dst in disk.dirs && dst !in disk.blobs;
      assert g.AbsPath() == Ok(dst);
      label copied:
      err := g.UpdateChecksum(disk, sha1);
      assert !made ==> err == Some(IOError);
      ChecksumsFrame@copied(prior);
      ChecksumsAppend(prior, g);
      if made {
        FedAppend(Checksums(prior), sha1(contents));
      }
    }

    /** Whether `shutil.copy2` in `add_file` writes the source to the file's own
        path in the folder: the source is a file other than that path, that path
        is no folder and its folder exists. */
    ghost predicate CopyMade(source: string, dirs: set<string>, blobs: map<string, string>)
      reads this
    {
      var dst := PathJoin(AbsPath(), Basename(source));
      source in blobs && dst != source && Copies(dst, dirs)
    }

    /** Whether `shutil.copy2` in `add_file` finds the source to be its own
        target, a file already in the folder under its name, so that `copyfile`
        raises `shutil.Error`. */
    ghost predicate CopySame(source: string, dirs: set<string>)
      reads this
    {
      CopyTarget(dirs, source, PathJoin(AbsPath(), Basename(source))) == source
    }

    /** `auto_delete_directory`, run before the row is deleted: `os.rmdir` of the
        folder, which succeeds only when it exists and is empty. */
    method AutoDeleteDirectory(disk: Disk) returns (err: Option<PyError>)
      modifies disk
      ensures err.None? <==> old(AbsPath() in disk.dirs && !disk.HasEntryBelow(AbsPath()))
      ensures err.Some? ==> err == Some(OSError) && disk.dirs == old(disk.dirs)
      ensures err.None? ==> disk.dirs == old(disk.dirs) - {AbsPath()}
      ensures disk.blobs == old(disk.blobs)
    {
      err := disk.RemoveDir(AbsPath());
    }
  }

  /** A container's folder is its UUID under the root directory. */
  lemma IdFolderLaw(nr: NeuroRepresentation)
    requires nr.id.Some? && nr.rootDir != "" && nr.rootDir[|nr.rootDir| - 1] != '/'
    ensures Basename(nr.AbsPath()) == Hyphenated(nr.id.value)
    ensures BeforeLast(nr.AbsPath(), '/') == nr.rootDir
  {
    var t := IdText(nr.id);
    assert t[0] in t;
    BasenameOfJoin(nr.rootDir, t);
    DirnameOfJoin(nr.rootDir, t);
  }

  /** A file's path is its name inside its container's folder. */
  lemma FilePathLaw(f: File)
    requires f.container != null && f.fileName != "" && '/' !in f.fileName
    ensures f.AbsPath().Ok?
    ensures Basename(f.AbsPath().value) == f.fileName
    ensures f.container.AbsPath()[|f.container.AbsPath()| - 1] != '/' ==>
      BeforeLast(f.AbsPath().value, '/') == f.container.AbsPath()
  {
    BasenameOfJoin(f.container.AbsPath(), f.fileName);
    if f.container.AbsPath()[|f.container.AbsPath()| - 1] != '/' {
      DirnameOfJoin(f.container.AbsPath(), f.fileName);
    }
  }
}
