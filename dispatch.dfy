/** The FUSE call table: `DefaultFS` of morphdepot/defaultfs.py answers every call
    with a fixed result, and `MorphFS` of morphdepot/morphfs.py overrides only
    `getattr`, which it answers by resolving the path from its root directory. */
module Dispatch {
  import opened Common
  import opened FileStat
  import opened FuseNode
  import RootDirectory

  /** The FUSE calls, with the arguments the results depend on. */
  datatype Call =
    | Fsinit | Fsdestroy
    | Getattr(path: string) | Fgetattr(path: string)
    | Utime(path: string, atime: int, mtime: int) | Utimes(path: string, atime: int, mtime: int)
    | Access(path: string, flags: int)
    | Readlink(path: string) | Mknod(path: string, mode: int, rdev: int) | Mkdir(path: string, mode: int)
    | Unlink(path: string) | Rmdir(path: string)
    | Symlink(target: string, name: string) | Link(target: string, name: string)
    | Rename(oldName: string, newName: string)
    | Chmod(path: string, mode: int) | Chown(path: string, uid: int, gid: int)
    | Truncate(path: string, size: int)
    | Opendir(path: string) | Releasedir(path: string) | Fsyncdir(path: string, datasync: bool)
    | Readdir(path: string, offset: int)
    | Open(path: string, flags: int) | Create(path: string, mode: int, rdev: int)
    | Release(path: string, flags: int) | Fsync(path: string, datasync: bool) | Flush(path: string)
    | Read(path: string, size: int, offset: int) | Write(path: string, buf: string, offset: int)
    | Ftruncate(path: string, size: int)
    | Statfs

  /** What a call answers: an integer code, None, the names a `readdir` generator
      yields, a stat record, or an exception. */
  datatype Reply =
    Code(code: int) | Nothing | Names(names: seq<string>) | Attr(stat: Stat) | Vfs(vfs: StatVfs) | Threw(error: PyError)

  /** A `fuse.StatVfs` record, as `statfs(2)` describes it (without `f_type`). */
  datatype StatVfs = StatVfs(bsize: int, blocks: int, bfree: int, bavail: int, files: int, ffree: int, namemax: int)

  /** `fuse.StatVfs()` with no field set: FUSE reports zeros. */
  const EMPTY_STATVFS: StatVfs := StatVfs(0, 0, 0, 0, 0, 0, 0)

  /** The calls `DefaultFS` does not support. */
  predicate Unsupported(c: Call) {
    c.Utime? || c.Utimes? || c.Readlink? || c.Mknod? || c.Mkdir? || c.Unlink? || c.Rmdir? ||
    c.Symlink? || c.Link? || c.Rename? || c.Chmod? || c.Chown? || c.Truncate? ||
    c.Open? || c.Create? || c.Read? || c.Write? || c.Ftruncate?
  }

  /** The calls that only return None. */
  predicate Silent(c: Call) {
    c.Fsinit? || c.Fsdestroy? || c.Releasedir? || c.Fsyncdir? || c.Release? || c.Fsync? || c.Flush?
  }

  /** `DefaultFS.utimes`, to which `utime` hands the unpacked pair. */
  function DefaultUtimes(path: string, atime: int, mtime: int): Reply {
    Code(-EOPNOTSUPP)
  }

  /** `DefaultFS.getattr`: nothing exists. */
  function DefaultGetattr(path: string): Reply {
    Code(-ENOENT)
  }

  /** `DefaultFS`, call by call. `fgetattr` and `utime` delegate through `self`, so
      a subclass that overrides `getattr` changes `fgetattr` too; `getattr` is
      therefore a parameter here. */
  function Default(c: Call, getattr: string -> Reply): (r: Reply)
    ensures c.Fgetattr? ==> r == getattr(c.path)
    ensures !c.Fgetattr? ==> !r.Threw?
  {
    match c
    case Getattr(path) => DefaultGetattr(path)
    case Fgetattr(path) => getattr(path)
    case Utime(path, atime, mtime) => DefaultUtimes(path, atime, mtime)
    case Utimes(path, atime, mtime) => DefaultUtimes(path, atime, mtime)
    case Access(_, _) => Code(-EACCES)
    case Opendir(path) => if path == "/" then Code(0) else Code(-EACCES)
    case Readdir(path, _) => if path == "/" then Names([".", ".."]) else Names([])
    case Fsinit => Nothing
    case Fsdestroy => Nothing
    case Releasedir(_) => Nothing
    case Fsyncdir(_, _) => Nothing
    case Release(_, _) => Nothing
    case Fsync(_, _) => Nothing
    case Flush(_) => Nothing
    case Statfs => Vfs(EMPTY_STATVFS)
    case _ => Code(-EOPNOTSUPP)
  }

  /** A `DefaultFS` instance itself. */
  function DefaultFS(c: Call): (r: Reply)
    ensures c.Getattr? || c.Fgetattr? ==> r == Code(-ENOENT)
    ensures c.Access? ==> r == Code(-EACCES)
    ensures c.Statfs? ==> r.Vfs? && r.vfs.blocks == 0 && r.vfs.files == 0 && r.vfs.namemax == 0
    ensures Unsupported(c) ==> r == Code(-EOPNOTSUPP)
    ensures Silent(c) ==> r == Nothing
    ensures c.Opendir? ==> (r == Code(0) <==> c.path == "/") && (r != Code(0) ==> r == Code(-EACCES))
    ensures c.Readdir? ==> r.Names? && (c.path == "/" ==> r.names == [".", ".."]) && (c.path != "/" ==> r.names == [])
  {
    Default(c, DefaultGetattr)
  }

  /** `fgetattr(path)` is `getattr(path)`, whatever `getattr` is. */
  lemma FgetattrDelegates(path: string, getattr: string -> Reply)
    ensures Default(Fgetattr(path), getattr) == getattr(path)
    ensures Default(Utime(path, 1, 2), getattr) == Default(Utimes(path, 1, 2), getattr)
  {
  }

  /** `MorphFS`: a `DefaultFS` whose root directory is built once, in `__init__`,
      and never replaced. */
  class MorphFS {
    const root: Node

    /** `MorphFS()`: the root is built once, by `RootDir()`. As written that raises
        (`RootDirectory.NewRoot`), so the root here is the directory it evidently
        means (`RootDirectory.NewFixedRoot`). */
    constructor ()
      ensures root == RootDirectory.FIXED_ROOT && FileMode.IsDir(root.mode)
    {
      var made := RootDirectory.NewFixedRoot();
      root := made.Snapshot();
    }

    /** `MorphFS.getattr(path)`: resolve from the root; None gives `-ENOENT`, the
        root its own stat record. A bare listed entry has no `getattr`. */
    function Getattr(path: string, processUid: int, processGid: int, now: Time): (r: Reply)
      ensures r.Threw? <==> path == ""
      ensures r.Threw? ==> r.error == IndexError
      ensures !r.Threw? ==> r.Attr? || r == Code(-ENOENT)
    {
      RootDirectory.ResolveNeverMatches(path);
      match RootDirectory.Resolve(path)
      case Root => Attr(FuseNode.Getattr(root, processUid, processGid, now))
      case Entry(_) => Threw(AttributeError)
      case NoResult => Code(-ENOENT)
      case Raised(e) => Threw(e)
    }

    /** Every call: `getattr` overridden, everything else inherited. */
    function Handle(c: Call, processUid: int, processGid: int, now: Time): (r: Reply)
      ensures c.Getattr? || c.Fgetattr? ==> r == Getattr(c.path, processUid, processGid, now)
      ensures !c.Getattr? && !c.Fgetattr? ==> r == DefaultFS(c)
    {
      if c.Getattr? then Getattr(c.path, processUid, processGid, now)
      else Default(c, p => Getattr(p, processUid, processGid, now))
    }

    /** `getattr` answers the root's stat record for "/" and `-ENOENT` for every
        other non-empty path, since the root's `resolve` matches no entry. */
    lemma GetattrLaw(path: string, processUid: int, processGid: int, now: Time)
      requires path != ""
      ensures FsPath.FromString(path).value.segs == [] ==>
        Getattr(path, processUid, processGid, now) == Attr(FuseNode.Getattr(root, processUid, processGid, now))
      ensures FsPath.FromString(path).value.segs != [] ==> Getattr(path, processUid, processGid, now) == Code(-ENOENT)
    {
      RootDirectory.ResolveNeverMatches(path);
    }

    /** `getattr` is the override, `fgetattr` goes through it; every other call is
        answered as `DefaultFS` answers it. */
    lemma InheritsDefaults(c: Call, processUid: int, processGid: int, now: Time)
      ensures c.Getattr? || c.Fgetattr? ==>
        Handle(c, processUid, processGid, now) == Getattr(c.path, processUid, processGid, now)
      ensures !c.Getattr? && !c.Fgetattr? ==> Handle(c, processUid, processGid, now) == DefaultFS(c)
    {
    }
  }
}
