/** `FuSQL` of morphdepot/fs/mount_morphdepot.py: a FUSE file system over a flat
    list of path strings (`/`, one directory per scientist table, rows below them
    and one file per column below each row), whose file contents live in a database
    reached through `db`. The database is a map from (table, column, row) to the
    stored string plus the log of the calls that change its schema; what it answers
    to a query is a parameter. */
module FuSql {
  import opened Common
  import opened FileMode

  // ---------------------------------------------------------------------------
  // Metadata

  /** The fields of a `Metadata` (a `fuse.Stat`): times are the integer clock. */
  datatype Metadata = Metadata(mode: Bits, nlink: int, size: int, uid: int, gid: int,
                               atime: int, mtime: int, ctime: int)

  /** `Metadata(mode, isDir)`: the type bit of a directory or a regular file over
      the given permission bits, two links for a directory and one for a file, size
      0, the clock and the process ids. */
  function MakeMetadata(mode: Bits, isDir: bool, now: int, processUid: int, processGid: int): (r: Metadata)
    ensures r.mode & 0x0FFF == mode & 0x0FFF                         // permissions kept
    ensures isDir ==> r.mode & 0x4000 != 0 && r.nlink == 2           // S_IFDIR
    ensures !isDir ==> r.mode & 0x8000 != 0 && r.nlink == 1          // S_IFREG
    ensures r.size == 0 && r.uid == processUid && r.gid == processGid
    ensures r.atime == now && r.mtime == now && r.ctime == now
  {
    if isDir then Metadata(S_IFDIR | mode, 2, 0, processUid, processGid, now, now, now)
    else Metadata(S_IFREG | mode, 1, 0, processUid, processGid, now, now, now)
  }

  /** `root_mode` is 0o755 and `file_mode` 0o644. */
  const ROOT_MODE: Bits := S_IRUSR | S_IXUSR | S_IWUSR | S_IRGRP | S_IXGRP | S_IXOTH | S_IROTH
  const FILE_MODE: Bits := S_IRUSR | S_IWUSR | S_IRGRP | S_IROTH

  /** The shared directory metadata has mode 0o40755, the shared file metadata
      0o100644. */
  lemma SharedModes(now: int, processUid: int, processGid: int)
    ensures MakeMetadata(ROOT_MODE, true, now, processUid, processGid).mode == 0x41ED
    ensures MakeMetadata(FILE_MODE, false, now, processUid, processGid).mode == 0x81A4
  {
  }

  // ---------------------------------------------------------------------------
  // The initial path list

  /** The three row names every table is given, and the two column files of a row. */
  const ROWS: seq<string> := ["2013-01-20_0001", "2013-01-24_0002", "2013-01-22_0003"]
  const COLUMNS: seq<(string, string)> := [("uuid", "txt"), ("label", "txt")]

  function ColumnPaths(rowPath: string, columns: seq<(string, string)>): seq<string> {
    if columns == [] then []
    else
      var c := columns[|columns| - 1];
      ColumnPaths(rowPath, columns[..|columns| - 1]) + [rowPath + "/" + c.0 + "." + c.1]
  }

  function RowPaths(tablePath: string, rows: seq<string>): seq<string> {
    if rows == [] then []
    else
      var rowPath := tablePath + "/" + rows[|rows| - 1];
      RowPaths(tablePath, rows[..|rows| - 1]) + [rowPath] + ColumnPaths(rowPath, COLUMNS)
  }

  function TablePaths(captions: seq<string>): seq<string> {
    if captions == [] then []
    else
      var tablePath := "/" + captions[|captions| - 1];
      TablePaths(captions[..|captions| - 1]) + [tablePath] + RowPaths(tablePath, ROWS)
  }

  /** What `__init__` leaves in `paths`: the root, then for each caption its table,
      and for each of the three rows the row and its two column files. */
  function InitialPaths(captions: seq<string>): (r: seq<string>)
    ensures |r| >= 1 && r[0] == "/"
  {
    ["/"] + TablePaths(captions)
  }

  lemma PrefixOfConcat(a: string, b: string)
    ensures StartsWith(a + b, a)
  {
    assert (a + b)[..|a|] == a;
  }

  lemma ColumnBlock(rowPath: string)
    ensures ColumnPaths(rowPath, COLUMNS) == [rowPath + "/uuid.txt", rowPath + "/label.txt"]
  {
    assert COLUMNS[..1] == [("uuid", "txt")] && COLUMNS[..1][..0] == [];
    assert ColumnPaths(rowPath, []) == [];
    assert ColumnPaths(rowPath, COLUMNS[..1]) == [rowPath + "/" + "uuid" + "." + "txt"];
    assert ColumnPaths(rowPath, COLUMNS) == ColumnPaths(rowPath, COLUMNS[..1]) + [rowPath + "/" + "label" + "." + "txt"];
    assert rowPath + "/" + "uuid" + "." + "txt" == rowPath + "/uuid.txt";
    assert rowPath + "/" + "label" + "." + "txt" == rowPath + "/label.txt";
  }

  /** The nine entries one table is given. */
  lemma RowBlock(tablePath: string)
    ensures |RowPaths(tablePath, ROWS)| == 9
    ensures forall k :: 0 <= k < 9 ==> StartsWith(RowPaths(tablePath, ROWS)[k], tablePath + "/")
  {
    var t := tablePath + "/";
    assert ROWS[..2] == ["2013-01-20_0001", "2013-01-24_0002"];
    assert ROWS[..2][..1] == ["2013-01-20_0001"] && ROWS[..2][..1][..0] == [];
    var r0 := tablePath + "/" + ROWS[0];
    var r1 := tablePath + "/" + ROWS[1];
    var r2 := tablePath + "/" + ROWS[2];
    ColumnBlock(r0);
    ColumnBlock(r1);
    ColumnBlock(r2);
    var all := [r0, r0 + "/uuid.txt", r0 + "/label.txt",
                r1, r1 + "/uuid.txt", r1 + "/label.txt",
                r2, r2 + "/uuid.txt", r2 + "/label.txt"];
    assert RowPaths(tablePath, ROWS[..2][..1][..0]) == [];
    assert RowPaths(tablePath, ROWS[..2][..1]) == [r0, r0 + "/uuid.txt", r0 + "/label.txt"];
    assert RowPaths(tablePath, ROWS[..2]) == RowPaths(tablePath, ROWS[..2][..1]) + [r1, r1 + "/uuid.txt", r1 + "/label.txt"];
    assert RowPaths(tablePath, ROWS) == RowPaths(tablePath, ROWS[..2]) + [r2, r2 + "/uuid.txt", r2 + "/label.txt"];
    assert RowPaths(tablePath, ROWS) == all;
    forall k | 0 <= k < 9 ensures StartsWith(all[k], t) {
      var row := ROWS[k / 3];
      var tail := if k % 3 == 0 then row else if k % 3 == 1 then row + "/uuid.txt" else row + "/label.txt";
      assert all[k] == t + tail;
      PrefixOfConcat(t, tail);
    }
  }

  /** Ten entries per caption after the root, each below the root; every table is
      listed. */
  lemma {:induction false} InitialPathsLaw(captions: seq<string>)
    ensures |InitialPaths(captions)| == 1 + 10 * |captions|
    ensures forall k :: 0 <= k < |InitialPaths(captions)| ==> StartsWith(InitialPaths(captions)[k], "/")
    ensures forall k :: 0 <= k < |captions| ==> "/" + captions[k] in InitialPaths(captions)
    decreases |captions|
  {
    if captions != [] {
      var init := captions[..|captions| - 1];
      InitialPathsLaw(init);
      var tablePath := "/" + captions[|captions| - 1];
      RowBlock(tablePath);
      var rows := RowPaths(tablePath, ROWS);
      assert InitialPaths(captions) == InitialPaths(init) + [tablePath] + rows;
      forall k | 0 <= k < 9 ensures StartsWith(rows[k], "/") {
        assert rows[k][..|tablePath + "/"|] == tablePath + "/";
        assert rows[k][..1] == (tablePath + "/")[..1];
      }
      forall k | 0 <= k < |captions| ensures "/" + captions[k] in InitialPaths(captions) {
        if k < |captions| - 1 {
          assert captions[k] == init[k];
        }
      }
    }
  }

  // ---------------------------------------------------------------------------
  // Reading and storing column data

  /** The database key of a column file: (table, column, row). */
  datatype DataKey = DataKey(table: string, column: string, row: int)

  /** The key `write` and `truncate` compute from `/table/row/column.ext`: `spath[1]`,
      `int(spath[2])`, then `spath[3].rsplit(".", 1)[0]`, raising in that order. */
  function Key(path: string): (r: Result<DataKey>)
    ensures var spath := Split(path, '/');
      r.Ok? <==> |spath| >= 4 && ParseInt(spath[2]).Ok?
    ensures var spath := Split(path, '/');
      r.Ok? ==> r.value == DataKey(spath[1], BeforeLast(spath[3], '.'), ParseInt(spath[2]).value)
    ensures var spath := Split(path, '/');
      r.Err? ==> r.error == (if |spath| >= 3 && ParseInt(spath[2]).Err? then ValueError else IndexError)
  {
    var spath := Split(path, '/');
    if |spath| < 3 then Err(IndexError)
    else
      var row := ParseInt(spath[2]);
      if row.Err? then Err(ValueError)
      else if |spath| < 4 then Err(IndexError)
      else Ok(DataKey(spath[1], BeforeLast(spath[3], '.'), row.value))
  }

  /** The string `read` slices: the database lookup is commented out. */
  const READ_DATA: string := "Test-Data within read"

  /** `read(path, size, offset)`: `spath[1]`, `len(spath[2])` and `spath[3]` are
      evaluated and discarded, then `data[offset:offset+size]` is returned. */
  function Read(path: string, size: int, offset: int): (r: Result<string>)
    ensures r.Err? <==> |Split(path, '/')| < 4
    ensures r.Err? ==> r.error == IndexError
    ensures r.Ok? && size >= 0 ==> |r.value| <= size
    ensures r.Ok? && 0 <= offset && 0 <= size ==>
      r.value == READ_DATA[Min(offset, |READ_DATA|)..Min(offset + size, |READ_DATA|)]
  {
    if |Split(path, '/')| < 4 then Err(IndexError)
    else
      var r := PySlice(READ_DATA, Some(offset), Some(offset + size));
      assert size >= 0 ==> |r| <= size by {
        if size >= 0 {
          SliceLengthAtMost(READ_DATA, offset, size);
        }
      }
      Ok(r)
  }

  /** `s[lo:lo+size]` never holds more than `size` characters, whatever the sign of
      `lo` (a negative `size` can select a middle part). */
  lemma SliceLengthAtMost(s: string, lo: int, size: int)
    requires size >= 0
    ensures |PySlice(s, Some(lo), Some(lo + size))| <= size
  {
    var l := PySliceBound(lo, |s|);
    var h := PySliceBound(lo + size, |s|);
    if l < h {
      if lo < 0 && lo + size >= 0 {
        assert h <= lo + size;
        assert l >= |s| + lo || l == 0;
      }
    }
  }

  function Min(a: int, b: int): int { if a < b then a else b }
  function Max(a: int, b: int): int { if a < b then b else a }

  /** `n * "0"`. */
  function Zeros(n: nat): (r: string)
    ensures |r| == n && forall k :: 0 <= k < n ==> r[k] == '0'
  {
    seq(n, _ => '0')
  }

  /** The value `truncate(path, size)` stores: padded with '0' up to `size`, or cut
      to `prev[0:size]`. */
  function Truncated(prev: string, size: int): (r: string)
    ensures size <= |prev| ==> |r| <= |prev| && r == prev[..|r|]
    ensures size > |prev| ==> |r| == size && r[..|prev|] == prev
  {
    if size > |prev| then prev + Zeros(size - |prev|) else PySlice(prev, Some(0), Some(size))
  }

  /** For a size of at least 0 the stored value has exactly `size` characters: the
      old value as far as both reach, then '0's. */
  lemma TruncatedLaw(prev: string, size: int)
    requires size >= 0
    ensures |Truncated(prev, size)| == size
    ensures forall k :: 0 <= k < size ==> Truncated(prev, size)[k] == (if k < |prev| then prev[k] else '0')
  {
  }

  /** The value `write(path, buf, offset)` stores: the splice
      `prev[:offset] + buf + prev[offset+len(buf):]` of the value read before the
      padding `truncate` call, whose result it overwrites. */
  function Spliced(prev: string, buf: string, offset: int): (r: string)
    ensures |r| >= |buf|
    ensures 0 <= offset <= |prev| ==> |r| >= offset + |buf| && r[offset..offset + |buf|] == buf
  {
    var head := PySlice(prev, None, Some(offset));
    assert 0 <= offset <= |prev| ==> |head| == offset;
    head + buf + PySlice(prev, Some(offset + |buf|), None)
  }

  /** Within the stored value the buffer lands at `offset` and everything else is
      kept; the value grows only by what the buffer reaches past its end. */
  lemma SplicedInPlace(prev: string, buf: string, offset: int)
    requires 0 <= offset <= |prev|
    ensures var r := Spliced(prev, buf, offset);
      |r| == Max(|prev|, offset + |buf|) &&
      r[..offset] == prev[..offset] &&
      r[offset..offset + |buf|] == buf &&
      r[offset + |buf|..] == PySlice(prev, Some(offset + |buf|), None)
  {
  }

  /** Past the end the padding is lost: the buffer is appended right after the old
      value, not at `offset`. */
  lemma SplicedGapLost(prev: string, buf: string, offset: int)
    requires offset > |prev|
    ensures Spliced(prev, buf, offset) == prev + buf
  {
    assert PySlice(prev, None, Some(offset)) == prev;
  }

  lemma SplicedGapExample()
    ensures Spliced("ab", "x", 4) == "abx"
  {
    SplicedGapLost("ab", "x", 4);
  }

  /** The evidently intended write: splice into the value as the padding
      `truncate` left it. */
  function FixedSpliced(prev: string, buf: string, offset: int): string {
    var padded := if offset + |buf| > |prev| then Truncated(prev, offset + |buf|) else prev;
    Spliced(padded, buf, offset)
  }

  /** The fixed write puts the buffer at `offset`, fills a gap with '0's and keeps
      every other character. */
  lemma FixedSplicedLaw(prev: string, buf: string, offset: int)
    requires offset >= 0
    ensures var r := FixedSpliced(prev, buf, offset);
      |r| == Max(|prev|, offset + |buf|) &&
      r[offset..offset + |buf|] == buf &&
      (forall k :: 0 <= k < offset ==> r[k] == (if k < |prev| then prev[k] else '0')) &&
      (forall k :: offset + |buf| <= k < |r| ==> r[k] == prev[k])
  {
    var padded := if offset + |buf| > |prev| then Truncated(prev, offset + |buf|) else prev;
    if offset + |buf| > |prev| {
      TruncatedLaw(prev, offset + |buf|);
    }
    SplicedInPlace(padded, buf, offset);
  }

  /** Both agree whenever the write starts inside the old value. */
  lemma FixedAgreesInside(prev: string, buf: string, offset: int)
    requires 0 <= offset <= |prev|
    ensures FixedSpliced(prev, buf, offset) == Spliced(prev, buf, offset)
  {
    if offset + |buf| > |prev| {
      var padded := Truncated(prev, offset + |buf|);
      TruncatedLaw(prev, offset + |buf|);
      assert padded[..offset] == prev[..offset];
    }
  }

  // ---------------------------------------------------------------------------
  // Directory listing

  /** The first position at which `sub` occurs in `s`. */
  function IndexOf(s: string, sub: string): (r: Option<nat>)
    ensures r.Some? ==> r.value + |sub| <= |s| && s[r.value..r.value + |sub|] == sub
    decreases |s|
  {
    if |s| < |sub| then None
    else if s[..|sub|] == sub then Some(0)
    else
      var k := IndexOf(s[1..], sub);
      if k.None? then None
      else
        assert s[1..][k.value..k.value + |sub|] == s[k.value + 1..k.value + 1 + |sub|];
        Some(k.value + 1)
  }

  /** `i.split(base)[1]` for an `i` that starts with `base`: what follows the first
      occurrence, up to the next one. */
  function AfterPrefix(i: string, base: string): string
    requires |base| >= 1 && StartsWith(i, base)
  {
    var rest := i[|base|..];
    var k := IndexOf(rest, base);
    if k.Some? then rest[..k.value] else rest
  }

  /** The name `readdir` lists for `i`: `i.split(base)[1].split("/")[0]`. */
  function ChildName(i: string, base: string): string
    requires |base| >= 1 && StartsWith(i, base)
  {
    Split(AfterPrefix(i, base), '/')[0]
  }

  /** For a base that starts with a slash, as every FUSE path does, that name is
      simply the next segment after the base. */
  lemma ChildNameIsNextSegment(i: string, base: string)
    requires |base| >= 1 && base[0] == '/' && StartsWith(i, base)
    ensures ChildName(i, base) == Split(i[|base|..], '/')[0]
  {
    var rest := i[|base|..];
    var k := IndexOf(rest, base);
    if k.Some? {
      assert rest[k.value] == base[0];
      assert rest == rest[..k.value] + ['/'] + rest[k.value + 1..];
      SplitAround(rest[..k.value], rest[k.value + 1..], '/');
    }
  }

  /** `path + "/"` unless the path is the root. */
  function DirBase(path: string): (r: string)
    ensures |r| >= 1
  {
    if path != "/" then path + "/" else path
  }

  /** Whether `readdir` lists something for the stored path `i`. */
  predicate Below(i: string, base: string) {
    |base| >= 1 && StartsWith(i, base) && i != "/"
  }

  /** The listing `readdir` builds from `result`, going through `ps` in order and
      appending each new name. */
  function AddNames(result: seq<string>, ps: seq<string>, base: string): (r: seq<string>)
    ensures |r| >= |result| && r[..|result|] == result
  {
    if ps == [] then result
    else
      var r := AddNames(result, ps[..|ps| - 1], base);
      var i := ps[|ps| - 1];
      if Below(i, base) && ChildName(i, base) !in r then r + [ChildName(i, base)] else r
  }

  /** What `readdir(path)` yields. */
  function Listing(ps: seq<string>, path: string): (r: seq<string>)
    ensures |r| >= 2 && r[0] == "." && r[1] == ".."
  {
    AddNames([".", ".."], ps, DirBase(path))
  }

  predicate NoDuplicates(s: seq<string>) {
    forall a, b :: 0 <= a < b < |s| ==> s[a] != s[b]
  }

  /** `name` is the child name of some stored path below the base. */
  predicate NameFrom(ps: seq<string>, base: string, name: string) {
    exists j :: 0 <= j < |ps| && Below(ps[j], base) && name == ChildName(ps[j], base)
  }

  /** Names are only ever appended, never twice, and each one comes from a listed
      path; every path below the base contributes its name. */
  lemma {:induction false} AddNamesLaw(result: seq<string>, ps: seq<string>, base: string)
    requires NoDuplicates(result)
    ensures var r := AddNames(result, ps, base);
      |r| >= |result| && r[..|result|] == result && NoDuplicates(r) &&
      (forall k :: |result| <= k < |r| ==> NameFrom(ps, base, r[k])) &&
      (forall j :: 0 <= j < |ps| && Below(ps[j], base) ==> ChildName(ps[j], base) in r)
    decreases |ps|
  {
    if ps != [] {
      var init := ps[..|ps| - 1];
      AddNamesLaw(result, init, base);
      var r0 := AddNames(result, init, base);
      var r := AddNames(result, ps, base);
      forall k | |result| <= k < |r|
        ensures NameFrom(ps, base, r[k])
      {
        if k < |r0| {
          assert r[k] == r0[k];
          assert NameFrom(init, base, r0[k]);
          var j :| 0 <= j < |init| && Below(init[j], base) && r0[k] == ChildName(init[j], base);
          assert ps[j] == init[j];
        } else {
          var j := |ps| - 1;
          assert Below(ps[j], base) && r[k] == ChildName(ps[j], base);
        }
      }
      forall j | 0 <= j < |ps| && Below(ps[j], base) ensures ChildName(ps[j], base) in r {
        if j < |ps| - 1 {
          assert ps[j] == init[j];
        }
      }
    }
  }

  /** `readdir` yields `.` and `..` first, then distinct names, each the child name
      of a stored path below the directory, and every such name. */
  lemma ListingLaw(ps: seq<string>, path: string)
    ensures var r := Listing(ps, path);
      |r| >= 2 && r[0] == "." && r[1] == ".." && NoDuplicates(r) &&
      (forall k :: 2 <= k < |r| ==> NameFrom(ps, DirBase(path), r[k])) &&
      (forall j :: 0 <= j < |ps| && Below(ps[j], DirBase(path)) ==> ChildName(ps[j], DirBase(path)) in r)
  {
    AddNamesLaw([".", ".."], ps, DirBase(path));
  }

  // ---------------------------------------------------------------------------
  // Removing paths, as `rmdir` does it

  /** Python's `ps.remove(x)`: the first occurrence goes. */
  function RemoveFirst(ps: seq<string>, x: string): (r: seq<string>)
    requires x in ps
    ensures |r| == |ps| - 1
    ensures multiset(r) == multiset(ps) - multiset{x}
  {
    if ps[0] == x then
      assert ps == [ps[0]] + ps[1..];
      ps[1..]
    else
      assert ps == [ps[0]] + ps[1..];
      [ps[0]] + RemoveFirst(ps[1..], x)
  }

  /** `for i in ps: if i.startswith(prefix): ps.remove(i)` on a Python list: the
      iterator walks by position, so removing an element moves the next one under
      the position already passed. Started at `at`. */
  function RemoveWalk(ps: seq<string>, at: nat, prefix: string): (r: seq<string>)
    ensures |r| <= |ps|
    ensures forall x :: x in r ==> x in ps
    decreases |ps| - at
  {
    if at >= |ps| then ps
    else if StartsWith(ps[at], prefix) then
      var q := RemoveFirst(ps, ps[at]);
      assert forall x :: x in q ==> x in multiset(q);
      RemoveWalk(q, at + 1, prefix)
    else RemoveWalk(ps, at + 1, prefix)
  }

  /** The walk removes only paths that start with the prefix, and keeps every other
      one as often as it was there. */
  lemma {:induction false} RemoveWalkLaw(ps: seq<string>, at: nat, prefix: string)
    ensures multiset(RemoveWalk(ps, at, prefix)) <= multiset(ps)
    ensures forall x :: !StartsWith(x, prefix) ==> multiset(RemoveWalk(ps, at, prefix))[x] == multiset(ps)[x]
    decreases |ps| - at
  {
    if at < |ps| {
      if StartsWith(ps[at], prefix) {
        RemoveWalkLaw(RemoveFirst(ps, ps[at]), at + 1, prefix);
      } else {
        RemoveWalkLaw(ps, at + 1, prefix);
      }
    }
  }

  /** Two matching paths in a row: the second is skipped and stays. */
  lemma RemoveWalkSkips()
    ensures RemoveWalk(["/t", "/t/r"], 0, "/t") == ["/t/r"]
  {
    assert StartsWith("/t", "/t");
    assert RemoveFirst(["/t", "/t/r"], "/t") == ["/t/r"];
  }

  /** The evidently intended removal: every path starting with the prefix goes, the
      others stay in order. */
  function Without(ps: seq<string>, prefix: string): (r: seq<string>)
    ensures |r| <= |ps|
    ensures forall x :: x in r ==> x in ps
  {
    if ps == [] then []
    else (if StartsWith(ps[0], prefix) then [] else [ps[0]]) + Without(ps[1..], prefix)
  }

  /** One step of `Without` along a suffix. */
  lemma WithoutStep(ps: seq<string>, i: nat, prefix: string)
    requires i < |ps|
    ensures Without(ps[i..], prefix) == (if StartsWith(ps[i], prefix) then [] else [ps[i]]) + Without(ps[i + 1..], prefix)
  {
    assert ps[i..][0] == ps[i];
    assert ps[i..][1..] == ps[i + 1..];
  }

  /** The loop of the corrected `remove_paths`: the paths outside the prefix, in
      order. */
  method KeepOutside(ps: seq<string>, prefix: string) returns (kept: seq<string>)
    ensures kept == Without(ps, prefix)
  {
    kept := [];
    var i := 0;
    assert ps[0..] == ps;
    while i < |ps|
      invariant 0 <= i <= |ps|
      invariant Without(ps, prefix) == kept + Without(ps[i..], prefix)
    {
      WithoutStep(ps, i, prefix);
      if !StartsWith(ps[i], prefix) {
        assert kept + ([ps[i]] + Without(ps[i + 1..], prefix)) == (kept + [ps[i]]) + Without(ps[i + 1..], prefix);
        kept := kept + [ps[i]];
      } else {
        assert [] + Without(ps[i + 1..], prefix) == Without(ps[i + 1..], prefix);
      }
      i := i + 1;
    }
    assert ps[|ps|..] == [];
    assert kept + [] == kept;
  }

  /** No path starting with the prefix is left. */
  lemma {:induction false} WithoutExcludes(ps: seq<string>, prefix: string)
    ensures forall x :: x in Without(ps, prefix) ==> !StartsWith(x, prefix)
    decreases |ps|
  {
    if ps != [] {
      WithoutExcludes(ps[1..], prefix);
      var h := if StartsWith(ps[0], prefix) then [] else [ps[0]];
      assert Without(ps, prefix) == h + Without(ps[1..], prefix);
    }
  }

  /** Every other path stays as often as it was there, and nothing is added. */
  lemma {:induction false} WithoutCounts(ps: seq<string>, prefix: string)
    ensures multiset(Without(ps, prefix)) <= multiset(ps)
    ensures forall x :: !StartsWith(x, prefix) ==> multiset(Without(ps, prefix))[x] == multiset(ps)[x]
    decreases |ps|
  {
    if ps != [] {
      WithoutCounts(ps[1..], prefix);
      var h := if StartsWith(ps[0], prefix) then [] else [ps[0]];
      assert ps == [ps[0]] + ps[1..];
      assert Without(ps, prefix) == h + Without(ps[1..], prefix);
    }
  }

  // ---------------------------------------------------------------------------
  // mknod and rename

  /** The column files `mknod` adds: one below each stored path that starts with
      `/table/`, in the order of `ps`. */
  function NewColumnFiles(ps: seq<string>, table: string, file: string): (r: seq<string>)
    ensures |r| <= |ps|
    ensures (forall j :: 0 <= j < |ps| ==> !StartsWith(ps[j], "/" + table + "/")) ==> r == []
  {
    if ps == [] then []
    else
      var init := NewColumnFiles(ps[..|ps| - 1], table, file);
      var d := ps[|ps| - 1];
      if StartsWith(d, "/" + table + "/") then init + [d + "/" + file] else init
  }

  /** Each added file lies below the table and is named after the new column; one is
      added per stored path below the table. */
  lemma {:induction false} NewColumnFilesLaw(ps: seq<string>, table: string, file: string)
    ensures forall k :: 0 <= k < |NewColumnFiles(ps, table, file)| ==>
      StartsWith(NewColumnFiles(ps, table, file)[k], "/" + table + "/")
    ensures forall j :: 0 <= j < |ps| && StartsWith(ps[j], "/" + table + "/") ==>
      ps[j] + "/" + file in NewColumnFiles(ps, table, file)
    decreases |ps|
  {
    if ps != [] {
      var init := ps[..|ps| - 1];
      NewColumnFilesLaw(init, table, file);
      var d := ps[|ps| - 1];
      var pre := "/" + table + "/";
      if StartsWith(d, pre) {
        assert (d + "/" + file)[..|pre|] == d[..|pre|];
      }
      forall j | 0 <= j < |ps| && StartsWith(ps[j], pre) ensures ps[j] + "/" + file in NewColumnFiles(ps, table, file) {
        if j < |ps| - 1 {
          assert ps[j] == init[j];
        }
      }
    }
  }

  /** What `rename` decides before it rewrites the path list. */
  datatype RenameAction =
    | Refuse(code: int)                                  // returned at once
    | SetRowId(table: string, idFrom: int, idTo: int)    // `db.set_element_data(table, "id", from, to)`
    | RenameTable(tableFrom: string, tableTo: string)    // `db.rename_table(from, to)`

  /** `rename(path_from, path_to)`: both table names are read first; differing
      depths, or a row moved across tables, give `-EINVAL`; a row (three pieces)
      changes its id, any other depth renames the table. */
  function RenameDecision(pathFrom: string, pathTo: string): (r: Result<RenameAction>)
    ensures var a := Split(pathFrom, '/'); var b := Split(pathTo, '/');
      r.Err? <==> (|a| < 2 || |b| < 2 ||
                   (|a| == |b| == 3 && (ParseInt(a[2]).Err? || ParseInt(b[2]).Err?)))
    ensures var a := Split(pathFrom, '/'); var b := Split(pathTo, '/');
      r.Ok? && r.value.Refuse? <==> r.Ok? && (|a| != |b| || (|a| == 3 && a[1] != b[1]))
    ensures r.Ok? && r.value.Refuse? ==> r.value.code == -EINVAL
    ensures var a := Split(pathFrom, '/'); var b := Split(pathTo, '/');
      r.Ok? && r.value.SetRowId? ==> |a| == 3 && r.value == SetRowId(b[1], ParseInt(a[2]).value, ParseInt(b[2]).value)
    ensures var a := Split(pathFrom, '/'); var b := Split(pathTo, '/');
      r.Ok? && r.value.RenameTable? ==> |a| == |b| != 3 && r.value == RenameTable(a[1], b[1])
  {
    var a := Split(pathFrom, '/');
    var b := Split(pathTo, '/');
    if |a| < 2 || |b| < 2 then Err(IndexError)
    else if |a| != |b| then Ok(Refuse(-EINVAL))
    else if |a| == 3 then
      var idFrom := ParseInt(a[2]);
      var idTo := ParseInt(b[2]);
      if idFrom.Err? || idTo.Err? then Err(ValueError)
      else if a[1] != b[1] then Ok(Refuse(-EINVAL))
      else Ok(SetRowId(b[1], idFrom.value, idTo.value))
    else Ok(RenameTable(a[1], b[1]))
  }

  // ---------------------------------------------------------------------------
  // The file system object

  /** The database calls that change it, in the order made. */
  datatype DbCall =
    | AddScientist(caption: string)
    | CreateColumn(table: string, column: string, columnType: string)
    | DeleteTable(table: string)
    | DeleteElement(table: string, row: int)

  /** What `getattr` returns: a metadata object or a negated errno. */
  datatype Attr = Meta(meta: Metadata) | Errno(code: int)

  /** The splitting every call starts with. */
  function Pieces(path: string): seq<string> {
    Split(path, '/')
  }

  /** The innermost loop of `__init__`: a row's column files after `ps`. */
  method AppendColumns(ps: seq<string>, rowPath: string) returns (r: seq<string>)
    ensures r == ps + ColumnPaths(rowPath, COLUMNS)
  {
    r := ps;
    var k := 0;
    while k < |COLUMNS|
      invariant 0 <= k <= |COLUMNS|
      invariant r == ps + ColumnPaths(rowPath, COLUMNS[..k])
    {
      var x := rowPath + "/" + COLUMNS[k].0 + "." + COLUMNS[k].1;
      assert COLUMNS[..k + 1][..k] == COLUMNS[..k];
      assert ColumnPaths(rowPath, COLUMNS[..k + 1]) == ColumnPaths(rowPath, COLUMNS[..k]) + [x];
      assert ps + (ColumnPaths(rowPath, COLUMNS[..k]) + [x]) == (ps + ColumnPaths(rowPath, COLUMNS[..k])) + [x];
      r := r + [x];
      k := k + 1;
    }
    assert COLUMNS[..k] == COLUMNS;
  }

  /** The middle loop: each row of a table and its column files after `ps`. */
  method AppendRows(ps: seq<string>, tablePath: string) returns (r: seq<string>)
    ensures r == ps + RowPaths(tablePath, ROWS)
  {
    r := ps;
    var j := 0;
    while j < |ROWS|
      invariant 0 <= j <= |ROWS|
      invariant r == ps + RowPaths(tablePath, ROWS[..j])
    {
      var rowPath := tablePath + "/" + ROWS[j];
      r := AppendColumns(r + [rowPath], rowPath);
      assert ROWS[..j + 1][..j] == ROWS[..j];
      assert RowPaths(tablePath, ROWS[..j + 1]) == RowPaths(tablePath, ROWS[..j]) + [rowPath] + ColumnPaths(rowPath, COLUMNS);
      assert r == ps + RowPaths(tablePath, ROWS[..j + 1]);
      j := j + 1;
    }
    assert ROWS[..j] == ROWS;
  }

  /** The outer loop of `__init__`: the root, then each caption's table with its
      rows. */
  method BuildPaths(captions: seq<string>) returns (ps: seq<string>)
    ensures ps == InitialPaths(captions)
  {
    ps := ["/"];
    var i := 0;
    while i < |captions|
      invariant 0 <= i <= |captions|
      invariant ps == ["/"] + TablePaths(captions[..i])
    {
      var tablePath := "/" + captions[i];
      ps := AppendRows(ps + [tablePath], tablePath);
      assert captions[..i + 1][..i] == captions[..i];
      assert TablePaths(captions[..i + 1]) == TablePaths(captions[..i]) + [tablePath] + RowPaths(tablePath, ROWS);
      assert ps == ["/"] + TablePaths(captions[..i + 1]);
      i := i + 1;
    }
    assert captions[..i] == captions;
  }

  class FuSQL {
    /** `self.paths`. */
    var paths: seq<string>
    /** The column contents `get_element_data`/`set_element_data` reach. */
    var data: map<DataKey, string>
    /** The schema-changing database calls made so far. */
    var calls: seq<DbCall>
    /** `self.file_metadata`: one object, handed out by every file `getattr`. */
    var fileMetadata: Metadata
    /** `self.dir_metadata`. */
    const dirMetadata: Metadata

    /** `FuSQL(db)`: the shared metadata, then the path list for the captions
        `db.get_scientist_captions()` returns. */
    constructor (captions: seq<string>, stored: map<DataKey, string>, now: int, processUid: int, processGid: int)
      ensures paths == InitialPaths(captions)
      ensures data == stored && calls == []
      ensures dirMetadata == MakeMetadata(ROOT_MODE, true, now, processUid, processGid)
      ensures fileMetadata == MakeMetadata(FILE_MODE, false, now, processUid, processGid)
    {
      dirMetadata := MakeMetadata(ROOT_MODE, true, now, processUid, processGid);
      fileMetadata := MakeMetadata(FILE_MODE, false, now, processUid, processGid);
      var ps := BuildPaths(captions);
      paths := ps;
      data := stored;
      calls := [];
    }

    /** `mkdir(path, mode)`: two pieces register a scientist and list its table,
        three are accepted and change nothing, anything else is `-EFAULT`. */
    method Mkdir(path: string, mode: int) returns (r: int)
      modifies this
      ensures |Pieces(path)| == 2 ==>
        r == 0 && calls == old(calls) + [AddScientist(Pieces(path)[1])] && paths == old(paths) + ["/" + Pieces(path)[1]]
      ensures |Pieces(path)| == 3 ==> r == 0 && calls == old(calls) && paths == old(paths)
      ensures |Pieces(path)| != 2 && |Pieces(path)| != 3 ==> r == -EFAULT && calls == old(calls) && paths == old(paths)
      ensures data == old(data) && fileMetadata == old(fileMetadata)
      ensures StartsWith(path, "/") && |Pieces(path)| == 2 ==> path in paths
    {
      var spath := Split(path, '/');
      if |spath| == 2 {
        var caption := spath[1];
        calls := calls + [AddScientist(caption)];
        paths := paths + ["/" + caption];
        if StartsWith(path, "/") {
          PathOfTwoPieces(path);
        }
        return 0;
      } else if |spath| == 3 {
        return 0;
      }
      return -EFAULT;
    }

    /** `getattr(path)`: `-ENOENT` unless the path is listed; a listed path of four
        pieces gets the shared file metadata, its size first set to
        `len("my_data")`; any other listed path the directory metadata. */
    method Getattr(path: string) returns (r: Attr)
      modifies this
      ensures r.Errno? <==> path !in paths
      ensures r.Errno? ==> r.code == -ENOENT && fileMetadata == old(fileMetadata)
      ensures path in paths && |Pieces(path)| != 4 ==> r == Meta(dirMetadata) && fileMetadata == old(fileMetadata)
      ensures path in paths && |Pieces(path)| == 4 ==>
        fileMetadata == old(fileMetadata).(size := 7) && r == Meta(fileMetadata)
      ensures paths == old(paths) && data == old(data) && calls == old(calls)
    {
      var spath := Split(path, '/');
      var isDir := |spath| != 4;
      if path in paths {
        if isDir {
          return Meta(dirMetadata);
        }
        var myData := "my_data";
        fileMetadata := fileMetadata.(size := |myData|);
        return Meta(fileMetadata);
      }
      return Errno(-ENOENT);
    }

    /** `truncate(path, size)`: the stored value padded or cut to `size`. */
    method Truncate(path: string, size: int) returns (r: Result<int>)
      modifies this
      ensures Key(path).Err? ==> r == Err(Key(path).error) && data == old(data)
      ensures Key(path).Ok? && Key(path).value !in old(data) ==> r == Err(KeyError) && data == old(data)
      ensures Key(path).Ok? && Key(path).value in old(data) ==>
        r == Ok(0) && data == old(data)[Key(path).value := Truncated(old(data)[Key(path).value], size)]
      ensures paths == old(paths) && calls == old(calls) && fileMetadata == old(fileMetadata)
    {
      var key := Key(path);
      if key.Err? {
        return Err(key.error);
      }
      if key.value !in data {
        return Err(KeyError);
      }
      var prev := data[key.value];
      var newData: string;
      if size > |prev| {
        newData := prev + Zeros(size - |prev|);
      } else {
        newData := PySlice(prev, Some(0), Some(size));
      }
      data := data[key.value := newData];
      return Ok(0);
    }

    /** `write(path, buf, offset)`: pads through `truncate` when the buffer reaches
        past the end, then stores the splice of the value it read before that. */
    method Write(path: string, buf: string, offset: int) returns (r: Result<int>)
      modifies this
      ensures Key(path).Err? ==> r == Err(Key(path).error) && data == old(data)
      ensures Key(path).Ok? && Key(path).value !in old(data) ==> r == Err(KeyError) && data == old(data)
      ensures Key(path).Ok? && Key(path).value in old(data) ==>
        r == Ok(|buf|) && data == old(data)[Key(path).value := Spliced(old(data)[Key(path).value], buf, offset)]
      ensures paths == old(paths) && calls == old(calls) && fileMetadata == old(fileMetadata)
    {
      var key := Key(path);
      if key.Err? {
        return Err(key.error);
      }
      if key.value !in data {
        return Err(KeyError);
      }
      var prev := data[key.value];
      if offset + |buf| > |prev| {
        var _ := Truncate(path, offset + |buf|);
      }
      var newData := PySlice(prev, None, Some(offset)) + buf + PySlice(prev, Some(offset + |buf|), None);
      data := data[key.value := newData];
      return Ok(|buf|);
    }

    /** The evidently intended `write`: splice into the value as `truncate` left it. */
    method FixedWrite(path: string, buf: string, offset: int) returns (r: Result<int>)
      modifies this
      ensures Key(path).Err? ==> r == Err(Key(path).error) && data == old(data)
      ensures Key(path).Ok? && Key(path).value !in old(data) ==> r == Err(KeyError) && data == old(data)
      ensures Key(path).Ok? && Key(path).value in old(data) ==>
        r == Ok(|buf|) && data == old(data)[Key(path).value := FixedSpliced(old(data)[Key(path).value], buf, offset)]
      ensures paths == old(paths) && calls == old(calls) && fileMetadata == old(fileMetadata)
    {
      var key := Key(path);
      if key.Err? {
        return Err(key.error);
      }
      if key.value !in data {
        return Err(KeyError);
      }
      if offset + |buf| > |data[key.value]| {
        var _ := Truncate(path, offset + |buf|);
      }
      var prev := data[key.value];
      var newData := PySlice(prev, None, Some(offset)) + buf + PySlice(prev, Some(offset + |buf|), None);
      data := data[key.value := newData];
      return Ok(|buf|);
    }

    /** `mknod(path, mode, rdev)`: a file needs four pieces and an extension the
        type table knows; then the column is created and a file for it is listed
        below every stored path of the table. */
    method Mknod(path: string, mode: int, rdev: int, translator: map<string, string>) returns (r: Result<int>)
      modifies this
      ensures var spath := Pieces(path);
        (|spath| != 4 || AfterLast(spath[3], '.') !in translator) ==>
          r == Ok(-EPERM) && paths == old(paths) && calls == old(calls)
      ensures var spath := Pieces(path);
        |spath| == 4 && AfterLast(spath[3], '.') in translator && ParseInt(spath[2]).Err? ==>
          r == Err(ValueError) && paths == old(paths) && calls == old(calls)
      ensures var spath := Pieces(path);
        |spath| == 4 && AfterLast(spath[3], '.') in translator && ParseInt(spath[2]).Ok? ==>
          var ext := AfterLast(spath[3], '.');
          var column := BeforeLast(spath[3], '.');
          r == Ok(0) &&
          calls == old(calls) + [CreateColumn(spath[1], column, translator[ext])] &&
          paths == old(paths) + NewColumnFiles(old(paths), spath[1], column + "." + ext)
      ensures data == old(data) && fileMetadata == old(fileMetadata)
    {
      var spath := Split(path, '/');
      if |spath| != 4 {
        return Ok(-EPERM);
      }
      var fileType := AfterLast(spath[3], '.');
      if fileType !in translator {
        return Ok(-EPERM);
      }
      var table := spath[1];
      var elementId := ParseInt(spath[2]);
      if elementId.Err? {
        return Err(ValueError);
      }
      var column := BeforeLast(spath[3], '.');
      calls := calls + [CreateColumn(table, column, translator[fileType])];
      var file := column + "." + fileType;
      var newElements: seq<string> := [];
      var i := 0;
      while i < |paths|
        invariant 0 <= i <= |paths|
        invariant newElements == NewColumnFiles(paths[..i], table, file)
      {
        var dirName := paths[i];
        assert paths[..i + 1][i] == dirName;
        if StartsWith(dirName, "/" + table + "/") {
          newElements := newElements + [dirName + "/" + file];
        }
        assert paths[..i + 1][..i] == paths[..i];
        i := i + 1;
      }
      assert paths[..i] == paths;
      paths := paths + newElements;
      return Ok(0);
    }

    /** `remove_paths(prefix)` inside `rmdir`, with Python's positional list
        iterator. */
    method RemovePaths(prefix: string)
      modifies this
      ensures paths == RemoveWalk(old(paths), 0, prefix)
      ensures data == old(data) && calls == old(calls) && fileMetadata == old(fileMetadata)
    {
      var i := 0;
      while i < |paths|
        invariant RemoveWalk(paths, i, prefix) == RemoveWalk(old(paths), 0, prefix)
        invariant data == old(data) && calls == old(calls) && fileMetadata == old(fileMetadata)
        decreases |paths| - i
      {
        var x := paths[i];
        i := i + 1;
        if StartsWith(x, prefix) {
          paths := RemoveFirst(paths, x);
        }
      }
    }

    /** The evidently intended `remove_paths`: every path starting with the prefix
        goes. */
    method FixedRemovePaths(prefix: string)
      modifies this
      ensures paths == Without(old(paths), prefix)
      ensures data == old(data) && calls == old(calls) && fileMetadata == old(fileMetadata)
    {
      paths := KeepOutside(paths, prefix);
    }

    /** `rmdir(path)`: two pieces name a table, three a row; anything else leaves
        `is_table` unbound (after `spath[1]`, which needs two pieces). A table with
        elements is refused with `-ENOTEMPTY`; otherwise the table or row is deleted
        and the paths below it go. `elements` is `len(db.get_all_elements(table))`. */
    method Rmdir(path: string, elements: nat) returns (r: Result<int>)
      modifies this
      ensures |Pieces(path)| < 2 ==> r == Err(IndexError) && paths == old(paths) && calls == old(calls)
      ensures |Pieces(path)| > 3 ==> r == Err(UnboundLocalError) && paths == old(paths) && calls == old(calls)
      ensures |Pieces(path)| == 2 && elements > 0 ==> r == Ok(-ENOTEMPTY) && paths == old(paths) && calls == old(calls)
      ensures |Pieces(path)| == 2 && elements == 0 ==>
        r == Ok(0) && calls == old(calls) + [DeleteTable(Pieces(path)[1])] && paths == RemoveWalk(old(paths), 0, path)
      ensures |Pieces(path)| == 3 && ParseInt(Pieces(path)[2]).Err? ==>
        r == Err(ValueError) && paths == old(paths) && calls == old(calls)
      ensures |Pieces(path)| == 3 && ParseInt(Pieces(path)[2]).Ok? ==>
        r == Ok(0) && calls == old(calls) + [DeleteElement(Pieces(path)[1], ParseInt(Pieces(path)[2]).value)] &&
        paths == RemoveWalk(old(paths), 0, path)
      ensures data == old(data) && fileMetadata == old(fileMetadata)
    {
      var spath := Split(path, '/');
      if |spath| < 2 {
        return Err(IndexError);
      }
      if |spath| > 3 {
        return Err(UnboundLocalError);
      }
      var isTable := |spath| == 2;
      var tableName := spath[1];
      if isTable {
        if elements == 0 {
          calls := calls + [DeleteTable(tableName)];
          RemovePaths(path);
          return Ok(0);
        }
        return Ok(-ENOTEMPTY);
      }
      var rowId := ParseInt(spath[2]);
      if rowId.Err? {
        return Err(ValueError);
      }
      calls := calls + [DeleteElement(tableName, rowId.value)];
      RemovePaths(path);
      return Ok(0);
    }

    /** `readdir(path, offset)`: `.` and `..`, then each new child name in the order
        of `paths`. */
    method Readdir(path: string, offset: int) returns (result: seq<string>)
      ensures result == Listing(paths, path)
    {
      result := [".", ".."];
      var base := DirBase(path);
      var i := 0;
      while i < |paths|
        invariant 0 <= i <= |paths|
        invariant result == AddNames([".", ".."], paths[..i], base)
      {
        var p := paths[i];
        if Below(p, base) {
          var name := ChildName(p, base);
          if name !in result {
            result := result + [name];
          }
        }
        assert paths[..i + 1][..i] == paths[..i];
        i := i + 1;
      }
      assert paths[..i] == paths;
    }
  }

  /** `"/" + spath[1]` is the path itself when it starts with its only slash. */
  lemma PathOfTwoPieces(path: string)
    requires StartsWith(path, "/") && |Split(path, '/')| == 2
    ensures "/" + Split(path, '/')[1] == path
  {
    assert path == [] + ['/'] + path[1..];
    SplitAround([], path[1..], '/');
    assert Split(path, '/') == [""] + Split(path[1..], '/');
    SplitPiecesAreSepFree(path[1..], '/');
    JoinSplit(path[1..], '/');
  }

  /** `unlink`, `chmod`, `chown`, `utime`, `open` and `release` accept everything and
      change nothing. */
  function Accepted(path: string): (r: int)
    ensures r == 0
  {
    0
  }
}
