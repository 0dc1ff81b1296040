/** The `Stat` record of morphdepot/fshelper.py and morphdepot/virtfs.py: the
    attributes a FUSE `getattr` returns, with the defaults both constructors fill
    in. The clock and the process ids are parameters; timestamps are kept as
    opaque values. */
module FileStat {
  import opened Common
  import opened FileMode

  /** A point in time, as `datetime.utcnow()` returns it; never inspected. */
  type Time(==)

  datatype Stat = Stat(
    mode: Bits,
    size: int,
    nlink: int,
    uid: int,
    gid: int,
    atime: Time,
    mtime: Time,
    ctime: Time)

  /** The number of hard links when the caller passes none. */
  const DEFAULT_NLINK: int := 1

  /** A timestamp argument: the one passed, or `now` when it was left out (a
      `datetime` is always true, so `dt or now` picks `now` only for None). */
  function OrNow(t: Option<Time>, now: Time): (r: Time)
    ensures t.Some? ==> r == t.value
    ensures t.None? ==> r == now
  {
    if t.Some? then t.value else now
  }

  /** `Stat(st_mode, st_size, st_nlink=1, st_uid=None, st_gid=None, dt_*=None)`.
      `nlink` is None when the argument is left out; `uid` and `gid` are None
      when they are None in Python, and then the process ids are used. */
  function MakeStat(mode: Bits, size: int, nlink: Option<int>, uid: Option<int>, gid: Option<int>,
                    atime: Option<Time>, mtime: Option<Time>, ctime: Option<Time>,
                    processUid: int, processGid: int, now: Time): (r: Stat)
    ensures r.mode == mode && r.size == size
    ensures r.nlink == (if nlink.Some? then nlink.value else DEFAULT_NLINK)
    ensures uid.Some? ==> r.uid == uid.value
    ensures uid.None? ==> r.uid == processUid
    ensures gid.Some? ==> r.gid == gid.value
    ensures gid.None? ==> r.gid == processGid
    ensures r.atime == OrNow(atime, now) && r.mtime == OrNow(mtime, now) && r.ctime == OrNow(ctime, now)
  {
    Stat(mode, size,
         if nlink.Some? then nlink.value else DEFAULT_NLINK,
         if uid.Some? then uid.value else processUid,
         if gid.Some? then gid.value else processGid,
         OrNow(atime, now), OrNow(mtime, now), OrNow(ctime, now))
  }

  /** `st_ino` and `st_dev`: always 0. */
  function Ino(s: Stat): (r: int)
    ensures r == 0
  {
    0
  }

  function Dev(s: Stat): (r: int)
    ensures r == 0
  {
    0
  }

  /** An owner id of 0 (root) is kept: the process ids replace only None,
      whatever the process runs as. */
  lemma ZeroOwnerKept(mode: Bits, size: int, processUid: int, processGid: int, now: Time)
    ensures MakeStat(mode, size, None, Some(0), Some(0), None, None, None, processUid, processGid, now).uid == 0
    ensures MakeStat(mode, size, None, Some(0), Some(0), None, None, None, processUid, processGid, now).gid == 0
  {
  }

  /** With every optional argument left out the record holds one link, the
      process ids and `now` for all three timestamps. */
  lemma AllDefaults(mode: Bits, size: int, processUid: int, processGid: int, now: Time)
    ensures var s := MakeStat(mode, size, None, None, None, None, None, None, processUid, processGid, now);
      s.nlink == 1 && s.uid == processUid && s.gid == processGid &&
      s.atime == now && s.mtime == now && s.ctime == now
  {
  }
}
