/** The Django front end's upload store: file folders whose checksum is SHA-1 over
    their uploaded files' checksums, taken in the files' `ordering = ['file']`
    order, and uploaded files whose checksum is SHA-1 over their stored bytes.
    The database and Django's file storage are one `Site`: the folder table, the
    upload table (kept in the order its default query returns it), the stored
    blobs and folders, and a log of the row, folder and blob steps in the order
    they happen. SHA-1 is an uninterpreted function; successive `update` calls
    hash the concatenation of what they were given. */
module Folders {
  import opened Common
  import opened DiskStore
  import UuidCodec

  /** `utils.ROOT_FILEFOLDERS`. */
  const ROOT_FILEFOLDERS: string := "FileFolders"

  /** Django's `File.DEFAULT_CHUNK_SIZE`, 64 KiB. */
  const CHUNK_SIZE: nat := 65536

  /** The default text of a new folder's `checksum` and `path` columns. */
  const SET_ON_SAVE: string := "automatically set on save"

  // ---------------------------------------------------------------------------
  // Names in the order Python 2 and the database compare them

  /** Character-by-character comparison: a prefix comes first. */
  predicate NameLe(a: string, b: string)
    decreases |a|
  {
    |a| == 0 || (|b| > 0 && (a[0] < b[0] || (a[0] == b[0] && NameLe(a[1..], b[1..]))))
  }

  lemma {:induction false} NameLeRefl(a: string)
    ensures NameLe(a, a)
    decreases |a|
  {
    if |a| > 0 {
      NameLeRefl(a[1..]);
    }
  }

  lemma {:induction false} NameLeTotal(a: string, b: string)
    ensures NameLe(a, b) || NameLe(b, a)
    decreases |a|
  {
    if |a| > 0 && |b| > 0 && a[0] == b[0] {
      NameLeTotal(a[1..], b[1..]);
    }
  }

  lemma {:induction false} NameLeTrans(a: string, b: string, c: string)
    requires NameLe(a, b) && NameLe(b, c)
    ensures NameLe(a, c)
    decreases |a|
  {
    if |a| > 0 && a[0] == b[0] && b[0] == c[0] {
      NameLeTrans(a[1..], b[1..], c[1..]);
    }
  }

  lemma {:induction false} NameLeAntisym(a: string, b: string)
    requires NameLe(a, b) && NameLe(b, a)
    ensures a == b
    decreases |a|
  {
    if |a| > 0 {
      NameLeAntisym(a[1..], b[1..]);
      assert a == [a[0]] + a[1..];
      assert b == [b[0]] + b[1..];
    }
  }

  /** A common prefix does not change how two names compare. */
  lemma {:induction false} NameLePrefix(p: string, a: string, b: string)
    ensures NameLe(p + a, p + b) <==> NameLe(a, b)
    decreases |p|
  {
    if |p| > 0 {
      assert (p + a)[1..] == p[1..] + a;
      assert (p + b)[1..] == p[1..] + b;
      NameLePrefix(p[1..], a, b);
    } else {
      assert p + a == a && p + b == b;
    }
  }

  // ---------------------------------------------------------------------------
  // Stable sorting by name (`list.sort(key=str)`)

  predicate SortedBy<T>(xs: seq<T>, key: T -> string) {
    forall i, j :: 0 <= i < j < |xs| ==> NameLe(key(xs[i]), key(xs[j]))
  }

  /** Put `x` after every element whose name is not greater than its own. */
  function Insert<T>(x: T, xs: seq<T>, key: T -> string): (r: seq<T>)
    ensures |r| == |xs| + 1
    ensures multiset(r) == multiset(xs) + multiset{x}
  {
    if xs == [] then [x]
    else if NameLe(key(xs[0]), key(x)) then
      assert xs == [xs[0]] + xs[1..];
      [xs[0]] + Insert(x, xs[1..], key)
    else [x] + xs
  }

  lemma {:induction false} InsertSorted<T>(x: T, xs: seq<T>, key: T -> string)
    requires SortedBy(xs, key)
    ensures SortedBy(Insert(x, xs, key), key)
    decreases |xs|
  {
    var r := Insert(x, xs, key);
    if xs == [] {
    } else if NameLe(key(xs[0]), key(x)) {
      var rest := Insert(x, xs[1..], key);
      InsertSorted(x, xs[1..], key);
      assert r == [xs[0]] + rest;
      forall j | 0 < j < |r|
        ensures NameLe(key(r[0]), key(r[j]))
      {
        assert r[j] == rest[j - 1];
        assert rest[j - 1] in multiset(rest);
        if rest[j - 1] == x {
        } else {
          assert rest[j - 1] in multiset(xs[1..]);
          var k :| 0 <= k < |xs[1..]| && xs[1..][k] == rest[j - 1];
          assert xs[k + 1] == rest[j - 1];
        }
      }
    } else {
      assert r == [x] + xs;
      forall j | 0 < j < |r|
        ensures NameLe(key(r[0]), key(r[j]))
      {
        NameLeTotal(key(x), key(xs[0]));
        if j > 1 {
          NameLeTrans(key(x), key(xs[0]), key(xs[j - 1]));
        }
      }
    }
  }

  /** Insertion sort, which keeps equal names in their original order. */
  function Sort<T>(xs: seq<T>, key: T -> string): (r: seq<T>)
    ensures |r| == |xs|
    ensures multiset(r) == multiset(xs)
  {
    if xs == [] then []
    else
      assert xs == xs[..|xs| - 1] + [xs[|xs| - 1]];
      Insert(xs[|xs| - 1], Sort(xs[..|xs| - 1], key), key)
  }

  /** The sort orders by name and is a permutation of its input. */
  lemma {:induction false} SortSorted<T>(xs: seq<T>, key: T -> string)
    ensures SortedBy(Sort(xs, key), key)
    ensures multiset(Sort(xs, key)) == multiset(xs)
    decreases |xs|
  {
    if xs != [] {
      SortSorted(xs[..|xs| - 1], key);
      InsertSorted(xs[|xs| - 1], Sort(xs[..|xs| - 1], key), key);
    }
  }

  // ---------------------------------------------------------------------------
  // Filtering, as the database's `WHERE` clauses and the row deletions do

  function Filter<T(!new)>(xs: seq<T>, keep: T -> bool): (r: seq<T>)
    ensures |r| <= |xs|
    ensures forall x :: x in r <==> x in xs && keep(x)
  {
    if xs == [] then []
    else
      assert xs == [xs[0]] + xs[1..];
      (if keep(xs[0]) then [xs[0]] else []) + Filter(xs[1..], keep)
  }

  lemma {:induction false} FilterSorted<T(!new)>(xs: seq<T>, keep: T -> bool, key: T -> string)
    requires SortedBy(xs, key)
    ensures SortedBy(Filter(xs, keep), key)
    decreases |xs|
  {
    if xs != [] {
      FilterSorted(xs[1..], keep, key);
      var rest := Filter(xs[1..], keep);
      if keep(xs[0]) {
        var r := Filter(xs, keep);
        assert r == [xs[0]] + rest;
        forall j | 0 < j < |r|
          ensures NameLe(key(r[0]), key(r[j]))
        {
          assert r[j] == rest[j - 1];
          assert rest[j - 1] in rest;
          var k :| 0 <= k < |xs[1..]| && xs[1..][k] == rest[j - 1];
          assert xs[k + 1] == rest[j - 1];
        }
      } else {
        assert Filter(xs, keep) == rest;
      }
    }
  }

  lemma {:induction false} FilterAppend<T(!new)>(a: seq<T>, b: seq<T>, keep: T -> bool)
    ensures Filter(a + b, keep) == Filter(a, keep) + Filter(b, keep)
    decreases |a|
  {
    if a == [] {
      assert a + b == b;
    } else {
      assert (a + b)[0] == a[0];
      assert (a + b)[1..] == a[1..] + b;
      FilterAppend(a[1..], b, keep);
    }
  }

  lemma {:induction false} FilterCommute<T(!new)>(xs: seq<T>, p: T -> bool, q: T -> bool)
    ensures Filter(Filter(xs, p), q) == Filter(Filter(xs, q), p)
    decreases |xs|
  {
    if xs != [] {
      FilterCommute(xs[1..], p, q);
      var hp := if p(xs[0]) then [xs[0]] else [];
      var hq := if q(xs[0]) then [xs[0]] else [];
      FilterAppend(hp, Filter(xs[1..], p), q);
      FilterAppend(hq, Filter(xs[1..], q), p);
      if p(xs[0]) {
        assert Filter(hp, q) == hq by { assert hp[1..] == []; }
      }
      if q(xs[0]) {
        assert Filter(hq, p) == hp by { assert hq[1..] == []; }
      }
    }
  }

  lemma {:induction false} FilterKeepsAll<T(!new)>(xs: seq<T>, keep: T -> bool)
    requires forall k :: 0 <= k < |xs| ==> keep(xs[k])
    ensures Filter(xs, keep) == xs
    decreases |xs|
  {
    if xs != [] {
      FilterKeepsAll(xs[1..], keep);
      assert [xs[0]] + xs[1..] == xs;
    }
  }

  // ---------------------------------------------------------------------------
  // The two tables

  /** A `FileFolder` row: `label`, `uuid`, `checksum` and `path`. */
  datatype FolderRow = FolderRow(caption: string, uuid: string, checksum: string, path: string)

  /** An `UploadedFile` row: its key, the stored name of its `file`, the key of its
      folder, `filesize` and `checksum`. */
  datatype FileRow = FileRow(id: nat, name: string, folder: nat, filesize: Option<int>, checksum: string)

  function RowName(r: FileRow): string { r.name }

  /** The table after `DELETE ... WHERE id = id`. */
  function Without(rows: seq<FileRow>, id: nat): seq<FileRow> {
    Filter(rows, (r: FileRow) => r.id != id)
  }

  /** `folder.uploadedfile_set.all()` for a saved folder, in table order. */
  function Members(rows: seq<FileRow>, folder: nat): seq<FileRow> {
    Filter(rows, (r: FileRow) => r.folder == folder)
  }

  /** The same for an instance that may be unsaved: the query of an unsaved folder
      selects no rows. */
  function FolderMembers(rows: seq<FileRow>, id: Option<nat>): seq<FileRow> {
    if id.None? then [] else Members(rows, id.value)
  }

  function Checksums(rows: seq<FileRow>): seq<string> {
    seq(|rows|, k requires 0 <= k < |rows| => rows[k].checksum)
  }

  /** Saving a row: the row with its key is replaced (or added), and the table,
      which the default query returns in `file` order, places it by name. */
  function Upsert(rows: seq<FileRow>, r: FileRow): (res: seq<FileRow>)
    ensures |res| <= |rows| + 1
    ensures r in res
    ensures forall x :: x in res ==> x == r || x in rows
  {
    var w := Without(rows, r.id);
    var res := Insert(r, w, RowName);
    assert r in multiset(res);
    assert forall x :: x in res ==> x in multiset(res);
    res
  }

  /** No two rows share a key. */
  predicate KeysDistinct(rows: seq<FileRow>) {
    forall i, j :: 0 <= i < j < |rows| ==> rows[i].id != rows[j].id
  }

  lemma {:induction false} FilterKeysDistinct(rows: seq<FileRow>, keep: FileRow -> bool)
    requires KeysDistinct(rows)
    ensures KeysDistinct(Filter(rows, keep))
    decreases |rows|
  {
    if rows != [] {
      FilterKeysDistinct(rows[1..], keep);
      var rest := Filter(rows[1..], keep);
      if keep(rows[0]) {
        var r := Filter(rows, keep);
        assert r == [rows[0]] + rest;
        forall j | 0 < j < |r|
          ensures r[0].id != r[j].id
        {
          assert r[j] == rest[j - 1];
          assert rest[j - 1] in rest;
          var k :| 0 <= k < |rows[1..]| && rows[1..][k] == rest[j - 1];
          assert rows[k + 1] == rest[j - 1];
        }
      } else {
        assert Filter(rows, keep) == rest;
      }
    }
  }

  /** Saving keeps the table in name order and its keys distinct, and leaves
      exactly the other rows and the saved one. */
  lemma UpsertLaw(rows: seq<FileRow>, r: FileRow)
    requires SortedBy(rows, RowName) && KeysDistinct(rows)
    ensures SortedBy(Upsert(rows, r), RowName) && KeysDistinct(Upsert(rows, r))
    ensures forall x :: x in Upsert(rows, r) <==> x == r || (x in rows && x.id != r.id)
  {
    var w := Without(rows, r.id);
    FilterSorted(rows, (x: FileRow) => x.id != r.id, RowName);
    FilterKeysDistinct(rows, (x: FileRow) => x.id != r.id);
    InsertSorted(r, w, RowName);
    InsertKeysDistinct(r, w);
    var u := Upsert(rows, r);
    assert forall x :: x in u <==> x in multiset(u);
    assert forall x :: x in w <==> x in multiset(w);
  }

  /** Upserting a row whose key and folder are in range keeps every row in
      range, sorted and with distinct keys. */
  lemma UpsertBounded(rows: seq<FileRow>, r: FileRow, next: nat, keys: set<nat>)
    requires SortedBy(rows, RowName) && KeysDistinct(rows)
    requires forall k :: 0 <= k < |rows| ==> rows[k].id < next && rows[k].folder in keys
    requires r.id < next && r.folder in keys
    ensures SortedBy(Upsert(rows, r), RowName) && KeysDistinct(Upsert(rows, r))
    ensures forall k :: 0 <= k < |Upsert(rows, r)| ==>
      Upsert(rows, r)[k].id < next && Upsert(rows, r)[k].folder in keys
  {
    UpsertLaw(rows, r);
    var u := Upsert(rows, r);
    forall k | 0 <= k < |u|
      ensures u[k].id < next && u[k].folder in keys
    {
      assert u[k] in u;
    }
  }

  lemma {:induction false} InsertKeysDistinct(r: FileRow, rows: seq<FileRow>)
    requires KeysDistinct(rows) && forall x :: x in rows ==> x.id != r.id
    ensures KeysDistinct(Insert(r, rows, RowName))
    decreases |rows|
  {
    if rows != [] && NameLe(rows[0].name, r.name) {
      var rest := Insert(r, rows[1..], RowName);
      InsertKeysDistinct(r, rows[1..]);
      var u := Insert(r, rows, RowName);
      assert u == [rows[0]] + rest;
      forall j | 0 < j < |u|
        ensures u[0].id != u[j].id
      {
        assert u[j] == rest[j - 1];
        assert rest[j - 1] in multiset(rest);
        if rest[j - 1] != r {
          assert rest[j - 1] in multiset(rows[1..]);
          var k :| 0 <= k < |rows[1..]| && rows[1..][k] == rest[j - 1];
          assert rows[k + 1] == rest[j - 1];
        }
      }
    }
  }

  /** `uploadedfile_set.all()` returns a folder's files in `file` order. */
  lemma MembersInNameOrder(rows: seq<FileRow>, folder: nat)
    requires SortedBy(rows, RowName)
    ensures SortedBy(Members(rows, folder), RowName)
    ensures forall x :: x in Members(rows, folder) <==> x in rows && x.folder == folder
  {
    FilterSorted(rows, (r: FileRow) => r.folder == folder, RowName);
  }

  /** Deleting a row by key and then querying a folder is the folder's query
      without that row. */
  lemma MembersOfWithout(rows: seq<FileRow>, id: nat, folder: nat)
    ensures Members(Without(rows, id), folder) == Without(Members(rows, folder), id)
  {
    FilterCommute(rows, (r: FileRow) => r.id != id, (r: FileRow) => r.folder == folder);
  }

  /** The same for a folder that may have no key yet. */
  lemma MembersOfWithoutKey(rows: seq<FileRow>, id: nat, folder: Option<nat>)
    ensures FolderMembers(Without(rows, id), folder) == Without(FolderMembers(rows, folder), id)
  {
    if folder.Some? {
      MembersOfWithout(rows, id, folder.value);
    }
  }

  /** Deleting a key no row has changes nothing. */
  lemma WithoutAbsent(rows: seq<FileRow>, id: nat)
    requires forall x :: x in rows ==> x.id != id
    ensures Without(rows, id) == rows
  {
    FilterKeepsAll(rows, (r: FileRow) => r.id != id);
  }

  /** The rows of every folder but `folder`; for an unsaved folder, all rows. */
  function Others(rows: seq<FileRow>, folder: Option<nat>): seq<FileRow> {
    Filter(rows, (r: FileRow) => Some(r.folder) != folder)
  }

  /** An unsaved folder owns no row, so every row is another folder's. */
  lemma OthersOfUnsaved(rows: seq<FileRow>)
    ensures Others(rows, None) == rows
  {
    FilterKeepsAll(rows, (r: FileRow) => Some(r.folder) != None);
  }

  /** Once a folder's query returns nothing, every row belongs to another folder. */
  lemma NoMembersLeft(rows: seq<FileRow>, folder: nat)
    requires Members(rows, folder) == []
    ensures forall k :: 0 <= k < |rows| ==> rows[k].folder != folder
    ensures Others(rows, Some(folder)) == rows
  {
    forall k | 0 <= k < |rows|
      ensures rows[k].folder != folder
    {
      assert rows[k] in rows;
      assert rows[k] !in Members(rows, folder);
    }
    FilterKeepsAll(rows, (r: FileRow) => Some(r.folder) != Some(folder));
  }

  /** No row of the remaining folders belongs to `folder`. */
  lemma OthersExclude(rows: seq<FileRow>, folder: nat)
    ensures forall k :: 0 <= k < |Others(rows, Some(folder))| ==> Others(rows, Some(folder))[k].folder != folder
  {
    var o := Others(rows, Some(folder));
    forall k | 0 <= k < |o|
      ensures o[k].folder != folder
    {
      assert o[k] in o;
    }
  }

  /** With distinct keys, deleting the first row's key removes that row alone. */
  lemma WithoutHead(rows: seq<FileRow>)
    requires rows != [] && KeysDistinct(rows)
    ensures Without(rows, rows[0].id) == rows[1..]
  {
    forall x | x in rows[1..]
      ensures x.id != rows[0].id
    {
      var j :| 0 <= j < |rows[1..]| && rows[1..][j] == x;
      assert rows[j + 1] == x;
    }
    WithoutAbsent(rows[1..], rows[0].id);
  }

  /** Deleting a row of one folder leaves the other folders' rows as they were. */
  lemma OthersOfWithout(rows: seq<FileRow>, m: FileRow)
    requires KeysDistinct(rows) && m in rows
    ensures Others(Without(rows, m.id), Some(m.folder)) == Others(rows, Some(m.folder))
  {
    FilterCommute(rows, (r: FileRow) => r.id != m.id, (r: FileRow) => Some(r.folder) != Some(m.folder));
    var o := Others(rows, Some(m.folder));
    forall x | x in o
      ensures x.id != m.id
    {
      var i :| 0 <= i < |rows| && rows[i] == x;
      var j :| 0 <= j < |rows| && rows[j] == m;
      assert x != m;
      assert i != j;
      assert rows[i].id != rows[j].id;
    }
    WithoutAbsent(o, m.id);
  }

  /** A row whose name is not below any of its folder's rows is placed after all
      of them. */
  lemma {:induction false} MembersInsertLast(rows: seq<FileRow>, r: FileRow)
    requires SortedBy(rows, RowName)
    requires forall x :: x in Members(rows, r.folder) ==> NameLe(x.name, r.name)
    ensures Members(Insert(r, rows, RowName), r.folder) == Members(rows, r.folder) + [r]
    decreases |rows|
  {
    var f := r.folder;
    if rows == [] {
      assert Insert(r, rows, RowName) == [r];
      assert Members([r], f) == [r] by { assert [r][1..] == []; }
    } else if NameLe(rows[0].name, r.name) {
      var rest := rows[1..];
      assert rows == [rows[0]] + rest;
      MembersOfTail(rows, f);
      assert SortedBy(rest, RowName);
      MembersInsertLast(rest, r);
      MembersInsertAfterHead(rows[0], rest, r);
    } else {
      MembersInsertFront(rows, r);
    }
  }

  /** Every row of the tail's query is in the query of the whole table. */
  lemma MembersOfTail(rows: seq<FileRow>, f: nat)
    requires rows != []
    ensures forall x :: x in Members(rows[1..], f) ==> x in Members(rows, f)
  {
    assert rows == [rows[0]] + rows[1..];
    FilterAppend([rows[0]], rows[1..], (x: FileRow) => x.folder == f);
  }

  /** The step of `MembersInsertLast` where the row goes after the table's head. */
  lemma MembersInsertAfterHead(head: FileRow, rest: seq<FileRow>, r: FileRow)
    requires NameLe(head.name, r.name)
    requires Members(Insert(r, rest, RowName), r.folder) == Members(rest, r.folder) + [r]
    ensures Members(Insert(r, [head] + rest, RowName), r.folder) == Members([head] + rest, r.folder) + [r]
  {
    var f := r.folder;
    var h := Members([head], f);
    var m := Members(rest, f);
    var ins := Insert(r, rest, RowName);
    calc {
      Members(Insert(r, [head] + rest, RowName), f);
    == { InsertAfterHead(head, rest, r); }
      Members([head] + ins, f);
    == { FilterAppend([head], ins, (x: FileRow) => x.folder == f); }
      h + (m + [r]);
    == { AppendAssoc(h, m, [r]); }
      (h + m) + [r];
    == { FilterAppend([head], rest, (x: FileRow) => x.folder == f); }
      Members([head] + rest, f) + [r];
    }
  }

  /** A row not below the head is inserted into the tail. */
  lemma InsertAfterHead(head: FileRow, rest: seq<FileRow>, r: FileRow)
    requires NameLe(head.name, r.name)
    ensures Insert(r, [head] + rest, RowName) == [head] + Insert(r, rest, RowName)
  {
    assert ([head] + rest)[0] == head;
    assert ([head] + rest)[1..] == rest;
  }

  lemma AppendAssoc<T>(a: seq<T>, b: seq<T>, c: seq<T>)
    ensures a + (b + c) == (a + b) + c
  {
  }

  /** The step where the row goes before the table's head: its folder has no row
      yet. */
  lemma MembersInsertFront(rows: seq<FileRow>, r: FileRow)
    requires SortedBy(rows, RowName) && rows != [] && !NameLe(rows[0].name, r.name)
    requires forall x :: x in Members(rows, r.folder) ==> NameLe(x.name, r.name)
    ensures Members(Insert(r, rows, RowName), r.folder) == Members(rows, r.folder) + [r]
  {
    var f := r.folder;
    assert Insert(r, rows, RowName) == [r] + rows;
    FilterAppend([r], rows, (x: FileRow) => x.folder == f);
    assert Members([r], f) == [r] by { assert [r][1..] == []; }
    MembersBelowHead(rows, r);
    assert [r] + [] == [] + [r];
  }

  /** When a row's name is below the first name of a sorted table, none of its
      folder's rows can have a name up to it. */
  lemma MembersBelowHead(rows: seq<FileRow>, r: FileRow)
    requires SortedBy(rows, RowName) && rows != [] && !NameLe(rows[0].name, r.name)
    requires forall x :: x in Members(rows, r.folder) ==> NameLe(x.name, r.name)
    ensures Members(rows, r.folder) == []
  {
    if Members(rows, r.folder) != [] {
      var x := Members(rows, r.folder)[0];
      assert x in Members(rows, r.folder);
      var k :| 0 <= k < |rows| && rows[k] == x;
      if k > 0 {
        assert NameLe(rows[0].name, rows[k].name);
        NameLeTrans(rows[0].name, x.name, r.name);
      }
    }
  }

  // ---------------------------------------------------------------------------
  // Scientist.fullname and utils.get_upload_path

  /** A `Scientist` row's name columns. */
  datatype Scientist = Scientist(title: string, firstName: string, middleName: string, lastName: string)

  /** `u"%s %s %s" % (title, first_name, last_name)`; the middle name is not used. */
  function FullName(s: Scientist): (r: string)
    ensures |r| == |s.title| + |s.firstName| + |s.lastName| + 2
  {
    s.title + " " + s.firstName + " " + s.lastName
  }

  /** Splitting the full name at its spaces gives title, first and last name back,
      when none of them holds a space. */
  lemma FullNameWords(s: Scientist)
    requires ' ' !in s.title && ' ' !in s.firstName && ' ' !in s.lastName
    ensures Split(FullName(s), ' ') == [s.title, s.firstName, s.lastName]
  {
    var tail := s.firstName + [' '] + s.lastName;
    assert FullName(s) == s.title + [' '] + tail;
    SplitAround(s.title, tail, ' ');
    SplitAround(s.firstName, s.lastName, ' ');
    SplitSepFree(s.title, ' ');
    SplitSepFree(s.firstName, ' ');
    SplitSepFree(s.lastName, ' ');
  }

  /** A folder's `path`: `os.path.join(ROOT_FILEFOLDERS, uuid)`. */
  function FolderPath(folderUuid: string): (r: string)
    ensures folderUuid != "" && folderUuid[0] != '/' ==> r == ROOT_FILEFOLDERS + "/" + folderUuid
    ensures StartsWith(folderUuid, "/") ==> r == folderUuid
  {
    PathJoin(ROOT_FILEFOLDERS, folderUuid)
  }

  /** `get_upload_path(instance, filename)`:
      `os.path.join(ROOT_FILEFOLDERS, instance.filefolder.uuid, filename)`. */
  function UploadPath(folderUuid: string, filename: string): (r: string)
    ensures !StartsWith(filename, "/") ==> |r| >= |filename| && r[|r| - |filename|..] == filename
    ensures StartsWith(filename, "/") ==> r == filename
  {
    PathJoin(FolderPath(folderUuid), filename)
  }

  /** The folder path of a plain uuid is `FileFolders/<uuid>`, and it does not
      end in a slash. */
  lemma FolderPathPlain(folderUuid: string)
    requires folderUuid != "" && '/' !in folderUuid
    ensures FolderPath(folderUuid) == ROOT_FILEFOLDERS + "/" + folderUuid
    ensures FolderPath(folderUuid) != "" && FolderPath(folderUuid)[|FolderPath(folderUuid)| - 1] != '/'
  {
    assert folderUuid[0] in folderUuid;
    var dir := FolderPath(folderUuid);
    assert dir[|dir| - 1] == folderUuid[|folderUuid| - 1];
  }

  /** The three components joined by slashes. */
  lemma JoinThree(a: string, b: string, c: string)
    ensures Join([a, b, c], '/') == a + "/" + b + "/" + c
  {
    assert Join([b, c], '/') == b + "/" + c by {
      assert [b, c][1..] == [c];
    }
    assert [a, b, c][1..] == [b, c];
  }

  /** For a uuid and a file name without slashes the upload path is
      `FileFolders/<uuid>/<filename>`: it lies directly in the folder's `path`
      and ends in the file name. */
  lemma UploadPathLaw(folderUuid: string, filename: string)
    requires folderUuid != "" && '/' !in folderUuid && filename != "" && '/' !in filename
    ensures UploadPath(folderUuid, filename) == ROOT_FILEFOLDERS + "/" + folderUuid + "/" + filename
    ensures Split(UploadPath(folderUuid, filename), '/') == [ROOT_FILEFOLDERS, folderUuid, filename]
    ensures BeforeLast(UploadPath(folderUuid, filename), '/') == FolderPath(folderUuid)
    ensures Basename(UploadPath(folderUuid, filename)) == filename
  {
    assert filename[0] in filename;
    FolderPathPlain(folderUuid);
    var dir := FolderPath(folderUuid);
    var parts := [ROOT_FILEFOLDERS, folderUuid, filename];
    JoinThree(ROOT_FILEFOLDERS, folderUuid, filename);
    assert UploadPath(folderUuid, filename) == Join(parts, '/');
    assert SepFree(parts, '/') by {
      assert '/' !in ROOT_FILEFOLDERS;
    }
    SplitJoin(parts, '/');
    DirnameOfJoin(dir, filename);
    BasenameOfJoin(dir, filename);
  }

  // ---------------------------------------------------------------------------
  // The database and the file storage

  /** The steps on the three stores, in the order they happen. */
  datatype Effect =
    | FolderRowSaved(folder: nat)
    | FolderRowDeleted(folder: nat)
    | FileRowSaved(file: nat)
    | FileRowDeleted(file: nat)
    | BlobWritten(path: string)
    | BlobDeleted(path: string)
    | DirRemoved(path: string)

  /** Some folder row other than the one with key `key` has the caption. */
  ghost predicate CaptionTaken(folders: map<nat, FolderRow>, caption: string, key: Option<nat>)
    ensures CaptionTaken(folders, caption, key) ==> CaptionTaken(folders, caption, None)
    ensures key.Some? && key.value !in folders ==>
      (CaptionTaken(folders, caption, key) <==> CaptionTaken(folders, caption, None))
    decreases if key.Some? then 1 else 0
  {
    exists k :: k in folders && folders[k].caption == caption && Some(k) != key
  }

  /** The database's constraints: keys below the next key and distinct, every
      upload row pointing at an existing folder row, unique folder labels; and
      the upload table in `file` order. */
  ghost predicate TablesValid(folders: map<nat, FolderRow>, files: seq<FileRow>, nextFolderId: nat, nextFileId: nat) {
    SortedBy(files, RowName) && KeysDistinct(files) &&
    RowsFit(files, nextFileId, folders.Keys) &&
    (forall f :: f in folders ==> f < nextFolderId) &&
    (forall f, g :: f in folders && g in folders && f != g ==> folders[f].caption != folders[g].caption)
  }

  /** Every upload row has a key below the next key and points at an existing
      folder row. */
  ghost predicate RowsFit(files: seq<FileRow>, nextFileId: nat, keys: set<nat>) {
    forall k :: 0 <= k < |files| ==> files[k].id < nextFileId && files[k].folder in keys
  }

  /** Saving an upload row whose key is below the next key and whose folder
      exists keeps the constraints. */
  lemma SaveFileKeepsValid(folders: map<nat, FolderRow>, files: seq<FileRow>, nf: nat, n0: nat, n1: nat, r: FileRow)
    requires TablesValid(folders, files, nf, n0) && n0 <= n1 && r.id < n1 && r.folder in folders
    ensures TablesValid(folders, Upsert(files, r), nf, n1)
  {
    UpsertBounded(files, r, n1, folders.Keys);
  }

  /** Saving a folder row under a key below the next key, with a label no other
      row holds, keeps the constraints. */
  lemma SaveFolderKeepsValid(folders: map<nat, FolderRow>, files: seq<FileRow>, n0: nat, n1: nat, nfi: nat, k: nat, row: FolderRow)
    requires TablesValid(folders, files, n0, nfi) && n0 <= n1 && k < n1
    requires !CaptionTaken(folders, row.caption, Some(k))
    ensures TablesValid(folders[k := row], files, n1, nfi)
  {
  }

  /** Deleting an upload row keeps the constraints. */
  lemma DeleteFileKeepsValid(folders: map<nat, FolderRow>, files: seq<FileRow>, nf: nat, nfi: nat, key: nat)
    requires TablesValid(folders, files, nf, nfi)
    ensures TablesValid(folders, Without(files, key), nf, nfi)
  {
    FilterSorted(files, (r: FileRow) => r.id != key, RowName);
    FilterKeysDistinct(files, (r: FileRow) => r.id != key);
    var w := Without(files, key);
    forall k | 0 <= k < |w|
      ensures w[k].id < nfi && w[k].folder in folders
    {
      assert w[k] in w;
    }
  }

  /** Deleting a folder row that no upload row points at keeps the constraints. */
  lemma DeleteFolderKeepsValid(folders: map<nat, FolderRow>, files: seq<FileRow>, nf: nat, nfi: nat, key: nat)
    requires TablesValid(folders, files, nf, nfi)
    requires forall k :: 0 <= k < |files| ==> files[k].folder != key
    ensures TablesValid(folders - {key}, files, nf, nfi)
  {
  }

  class Site {
    /** `settings.MEDIA_ROOT`. */
    const mediaRoot: string
    var folders: map<nat, FolderRow>
    /** The upload table in the order its default query returns it. */
    var files: seq<FileRow>
    var nextFolderId: nat
    var nextFileId: nat
    /** The storage's files by absolute path, and its folders. */
    var blobs: map<string, string>
    var dirs: set<string>
    var log: seq<Effect>

    /** Empty tables over a storage that already holds what it holds. */
    constructor(mediaRoot: string, dirs: set<string>, blobs: map<string, string>)
      ensures this.mediaRoot == mediaRoot && this.dirs == dirs && this.blobs == blobs
      ensures folders == map[] && files == [] && log == [] && nextFolderId == 0 && nextFileId == 0
      ensures Valid()
    {
      this.mediaRoot := mediaRoot;
      this.dirs := dirs;
      this.blobs := blobs;
      folders := map[];
      files := [];
      nextFolderId := 0;
      nextFileId := 0;
      log := [];
    }

    ghost predicate Valid()
      reads this
    {
      TablesValid(folders, files, nextFolderId, nextFileId)
    }

    /** `storage.path(name)`. */
    function BlobPath(name: string): string {
      PathJoin(mediaRoot, name)
    }

    /** The storage paths of the rows' files. */
    function StoredPaths(rows: seq<FileRow>): set<string> {
      if rows == [] then {}
      else StoredPaths(rows[..|rows| - 1]) + {BlobPath(rows[|rows| - 1].name)}
    }

    /** What deleting the rows one after the other through `UploadedFile.delete`
        does: for each, its row is deleted, its folder's row saved again and its
        file deleted. */
    function DeletionLog(rows: seq<FileRow>): seq<Effect> {
      if rows == [] then []
      else
        var r := rows[|rows| - 1];
        DeletionLog(rows[..|rows| - 1]) + [FileRowDeleted(r.id)] + [FolderRowSaved(r.folder)] + [BlobDeleted(BlobPath(r.name))]
    }

    /** One more deleted row adds its path and its three effects. */
    lemma DeletionStep(rows: seq<FileRow>, i: nat)
      requires i < |rows|
      ensures StoredPaths(rows[..i + 1]) == StoredPaths(rows[..i]) + {BlobPath(rows[i].name)}
      ensures DeletionLog(rows[..i + 1]) ==
        DeletionLog(rows[..i]) + [FileRowDeleted(rows[i].id)] + [FolderRowSaved(rows[i].folder)] +
        [BlobDeleted(BlobPath(rows[i].name))]
    {
      assert rows[..i + 1][..i] == rows[..i];
    }

    /** `Model.save()` of a folder: the row under its key is replaced, or one is
        inserted under the next key; the unique `label` refuses a caption another
        row has. */
    method SaveFolderRow(key: Option<nat>, row: FolderRow) returns (saved: Option<nat>, err: Option<PyError>)
      requires Valid()
      modifies this
      ensures Valid()
      ensures err.Some? <==> old(CaptionTaken(folders, row.caption, key))
      ensures err.Some? ==>
        err == Some(IntegrityError) && saved == key && folders == old(folders) && log == old(log) &&
        nextFolderId == old(nextFolderId)
      ensures err.None? ==>
        saved.Some? && (key.Some? ==> saved == key) && (key.None? ==> saved == Some(old(nextFolderId))) &&
        folders == old(folders)[saved.value := row] && log == old(log) + [FolderRowSaved(saved.value)]
      ensures files == old(files) && blobs == old(blobs) && dirs == old(dirs) && nextFileId == old(nextFileId)
    {
      if exists k :: k in folders && folders[k].caption == row.caption && Some(k) != key {
        return key, Some(IntegrityError);
      }
      var k: nat := if key.Some? then key.value else nextFolderId;
      var next := if nextFolderId <= k then k + 1 else nextFolderId;
      SaveFolderKeepsValid(folders, files, nextFolderId, next, nextFileId, k, row);
      folders, nextFolderId := folders[k := row], next;
      log := log + [FolderRowSaved(k)];
      return Some(k), None;
    }

    /** `Model.save()` of an upload row: its folder key must name a folder row;
        the row under its key is replaced, or inserted under the next key. */
    method SaveFileRow(key: Option<nat>, name: string, folder: Option<nat>, filesize: Option<int>, checksum: string)
      returns (saved: Option<nat>, err: Option<PyError>)
      requires Valid()
      modifies this
      ensures Valid()
      ensures err.Some? <==> folder.None? || folder.value !in folders
      ensures err.Some? ==>
        err == Some(IntegrityError) && saved == key && files == old(files) && log == old(log) &&
        nextFileId == old(nextFileId)
      ensures err.None? ==>
        saved.Some? && (key.Some? ==> saved == key) && (key.None? ==> saved == Some(old(nextFileId))) &&
        files == Upsert(old(files), FileRow(saved.value, name, folder.value, filesize, checksum)) &&
        log == old(log) + [FileRowSaved(saved.value)]
      ensures folders == old(folders) && blobs == old(blobs) && dirs == old(dirs) && nextFolderId == old(nextFolderId)
    {
      if folder.None? || folder.value !in folders {
        return key, Some(IntegrityError);
      }
      var k: nat := if key.Some? then key.value else nextFileId;
      var next := if nextFileId <= k then k + 1 else nextFileId;
      var row := FileRow(k, name, folder.value, filesize, checksum);
      SaveFileKeepsValid(folders, files, nextFolderId, nextFileId, next, row);
      files := Upsert(files, row);
      nextFileId := next;
      log := log + [FileRowSaved(k)];
      return Some(k), None;
    }

    /** `DELETE` of an upload row by key (a key no row has deletes nothing). */
    method DeleteFileRow(key: nat)
      requires Valid()
      modifies this
      ensures Valid()
      ensures files == Without(old(files), key) && log == old(log) + [FileRowDeleted(key)]
      ensures folders == old(folders) && blobs == old(blobs) && dirs == old(dirs)
      ensures nextFolderId == old(nextFolderId) && nextFileId == old(nextFileId)
    {
      DeleteFileKeepsValid(folders, files, nextFolderId, nextFileId, key);
      files := Without(files, key);
      log := log + [FileRowDeleted(key)];
    }

    /** `FileSystemStorage.save`: the upload is written under its name, and the
        folder it lies in is made when missing. */
    method WriteBlob(name: string, content: string)
      modifies this
      ensures blobs == old(blobs)[BlobPath(name) := content]
      ensures dirs == old(dirs) + {BeforeLast(BlobPath(name), '/')}
      ensures log == old(log) + [BlobWritten(BlobPath(name))]
      ensures folders == old(folders) && files == old(files)
      ensures nextFolderId == old(nextFolderId) && nextFileId == old(nextFileId)
    {
      var p := BlobPath(name);
      blobs := blobs[p := content];
      dirs := dirs + {BeforeLast(p, '/')};
      log := log + [BlobWritten(p)];
    }

    /** `FileSystemStorage.delete(path)`: a file that exists is removed; a missing
        one is no error. */
    method DeleteBlob(p: string)
      modifies this
      ensures blobs == old(blobs) - {p} && log == old(log) + [BlobDeleted(p)]
      ensures folders == old(folders) && files == old(files) && dirs == old(dirs)
      ensures nextFolderId == old(nextFolderId) && nextFileId == old(nextFileId)
    {
      blobs := blobs - {p};
      log := log + [BlobDeleted(p)];
    }

    /** `os.rmdir(p)`: only an existing, empty folder is removed. */
    method RemoveDir(p: string) returns (err: Option<PyError>)
      modifies this
      ensures err.None? <==> old(p in dirs && !EntryBelow(dirs, blobs.Keys, p))
      ensures err.Some? ==> err == Some(OSError) && dirs == old(dirs) && log == old(log)
      ensures err.None? ==> dirs == old(dirs) - {p} && log == old(log) + [DirRemoved(p)]
      ensures folders == old(folders) && files == old(files) && blobs == old(blobs)
      ensures nextFolderId == old(nextFolderId) && nextFileId == old(nextFileId)
    {
      if p !in dirs || EntryBelow(dirs, blobs.Keys, p) {
        return Some(OSError);
      }
      dirs := dirs - {p};
      log := log + [DirRemoved(p)];
      return None;
    }

    /** `DELETE` of a folder row whose uploads are gone. */
    method DeleteFolderRow(key: nat)
      requires Valid() && forall k :: 0 <= k < |files| ==> files[k].folder != key
      modifies this
      ensures Valid()
      ensures folders == old(folders) - {key} && log == old(log) + [FolderRowDeleted(key)]
      ensures files == old(files) && blobs == old(blobs) && dirs == old(dirs)
      ensures nextFolderId == old(nextFolderId) && nextFileId == old(nextFileId)
    {
      DeleteFolderKeepsValid(folders, files, nextFolderId, nextFileId, key);
      folders := folders - {key};
      log := log + [FolderRowDeleted(key)];
    }
  }

  // ---------------------------------------------------------------------------
  // FileFolder

  /** What `hash.update(file.checksum)` over the members, one after the other,
      feeds the hash: their concatenation. */
  method HashFeed(checksums: seq<string>) returns (fed: string)
    ensures fed == Concat(checksums)
  {
    fed := "";
    for k := 0 to |checksums|
      invariant fed == Concat(checksums[..k])
    {
      assert checksums[..k + 1] == checksums[..k] + [checksums[k]];
      ConcatAppendOne(checksums[..k], checksums[k]);
      fed := fed + checksums[k];
    }
    assert checksums[..|checksums|] == checksums;
  }

  /** The uuid a folder holds after `save`: its own, or the fresh one when it
      has none. */
  function SavedUuid(u: string, made: UuidCodec.Uuid): (r: string)
    ensures r != "" && (u != "" ==> r == u)
  {
    if u == "" then UuidCodec.Hyphenated(made) else u
  }

  class FileFolder {
    var id: Option<nat>
    var caption: string
    var uuid: string
    var checksum: string
    var path: string

    /** `FileFolder()`: an unsaved folder with an empty label, `uuid` from its
        default `make_uuid()`, and the placeholder checksum and path. */
    constructor(made: UuidCodec.Uuid)
      ensures id.None? && caption == "" && uuid == UuidCodec.Hyphenated(made)
      ensures checksum == SET_ON_SAVE && path == SET_ON_SAVE
    {
      id := None;
      caption := "";
      uuid := UuidCodec.Hyphenated(made);
      checksum := SET_ON_SAVE;
      path := SET_ON_SAVE;
    }

    /** The instance the ORM builds from a row. */
    constructor Loaded(key: nat, row: FolderRow)
      ensures id == Some(key) && Row() == row
    {
      id := Some(key);
      caption, uuid, checksum, path := row.caption, row.uuid, row.checksum, row.path;
    }

    function Row(): FolderRow
      reads this
    {
      FolderRow(caption, uuid, checksum, path)
    }

    /** `FileFolder.save`: a uuid when it has none, the checksum over its files'
        checksums in `file` order, the path from the uuid, then the row. */
    method Save(site: Site, sha1: string -> string, made: UuidCodec.Uuid) returns (err: Option<PyError>)
      requires site.Valid()
      modifies this, site
      ensures site.Valid()
      ensures caption == old(caption)
      ensures uuid == SavedUuid(old(uuid), made)
      ensures checksum == sha1(Concat(Checksums(FolderMembers(old(site.files), old(id)))))
      ensures path == FolderPath(uuid)
      ensures err.Some? <==> CaptionTaken(old(site.folders), caption, old(id))
      ensures err.Some? ==>
        err == Some(IntegrityError) && id == old(id) && site.folders == old(site.folders) &&
        site.log == old(site.log) && site.nextFolderId == old(site.nextFolderId)
      ensures err.None? ==>
        id.Some? && (old(id).Some? ==> id == old(id)) && (old(id).None? ==> id == Some(old(site.nextFolderId))) &&
        site.folders == old(site.folders)[id.value := Row()] &&
        site.log == old(site.log) + [FolderRowSaved(id.value)]
      ensures site.files == old(site.files) && site.blobs == old(site.blobs) && site.dirs == old(site.dirs)
      ensures site.nextFileId == old(site.nextFileId)
    {
      if uuid == "" {
        uuid := UuidCodec.Hyphenated(made);
      }
      var fed := HashFeed(Checksums(FolderMembers(site.files, id)));
      checksum := sha1(fed);
      path := FolderPath(uuid);
      id, err := site.SaveFolderRow(id, Row());
    }

    /** `FileFolder.delete`: every upload of the folder is deleted, the folder's
        directory under the media root is removed with `os.rmdir`, then the row
        (Django asserts it has a key, and clears the key). */
    method Delete(site: Site, sha1: string -> string, made: UuidCodec.Uuid) returns (err: Option<PyError>)
      requires site.Valid()
      modifies this, site
      ensures site.Valid() && caption == old(caption)
      ensures var members := FolderMembers(old(site.files), old(id));
        var loop := MembersError(members, CaptionTaken(old(site.folders), old(caption), old(id)));
        var p := site.BlobPath(if members == [] then old(path) else FolderPath(SavedUuid(old(uuid), made)));
        var kept := old(site.blobs) - site.StoredPaths(members);
        err ==
          if loop.Some? then loop
          else if p !in old(site.dirs) || EntryBelow(old(site.dirs), kept.Keys, p) then Some(OSError)
          else if old(id).None? then Some(AssertionError)
          else None
      ensures var members := FolderMembers(old(site.files), old(id));
        var p := site.BlobPath(if members == [] then old(path) else FolderPath(SavedUuid(old(uuid), made)));
        err.None? ==>
          old(id).Some? && id.None? &&
          site.files == Others(old(site.files), old(id)) &&
          site.folders == old(site.folders) - {old(id).value} &&
          site.blobs == old(site.blobs) - site.StoredPaths(members) &&
          site.dirs == old(site.dirs) - {p} &&
          site.log == old(site.log) + site.DeletionLog(members) + [DirRemoved(p)] + [FolderRowDeleted(old(id).value)]
      ensures var members := FolderMembers(old(site.files), old(id));
        err.None? && members != [] ==>
          uuid == SavedUuid(old(uuid), made) && path == FolderPath(uuid) && checksum == sha1("")
      ensures var members := FolderMembers(old(site.files), old(id));
        err.None? && members == [] ==> Row() == old(Row())
    {
      ghost var members := FolderMembers(site.files, id);
      err := DeleteMembers(this, site, sha1, made);
      if err.Some? {
        return;
      }
      var p := site.BlobPath(path);
      err := site.RemoveDir(p);
      if err.Some? {
        return;
      }
      if id.None? {
        return Some(AssertionError);
      }
      OthersExclude(old(site.files), id.value);
      site.DeleteFolderRow(id.value);
      if members != [] {
        RemoveOverwritten(old(site.folders), id.value, Row());
      }
      id := None;
    }
  }

  // ---------------------------------------------------------------------------
  // UploadedFile

  /** A file of a form: its name, which is also its `str`, and its bytes. */
  datatype Upload = Upload(name: string, content: string)

  function UploadName(u: Upload): string { u.name }

  /** What `UploadedFile.save` feeds the hash: chunk by chunk when the file has
      more than one chunk (`f.multiple_chunks()`), otherwise `f.read()` at once.
      Either way the hash sees the whole content. */
  method HashInput(content: string) returns (fed: string)
    ensures fed == content
  {
    if |content| > CHUNK_SIZE {
      fed := "";
      var i := 0;
      while i < |content|
        invariant 0 <= i <= |content| && fed == content[..i]
        decreases |content| - i
      {
        var j := if i + CHUNK_SIZE < |content| then i + CHUNK_SIZE else |content|;
        assert content[..j] == content[..i] + content[i..j];
        fed := fed + content[i..j];
        i := j;
      }
      assert content[..i] == content;
    } else {
      fed := content;
    }
  }

  class UploadedFile {
    var id: Option<nat>
    /** The `file` field's name: the upload's name until it is stored, then the
        storage name. */
    var name: string
    /** The upload's bytes while they are not yet in storage. */
    var pending: Option<string>
    var folder: FileFolder
    var filesize: Option<int>
    var checksum: string

    /** `UploadedFile()` with `filefolder` and `file` assigned, as the view does. */
    constructor(folder: FileFolder, upload: Upload)
      ensures id.None? && name == upload.name && pending == Some(upload.content)
      ensures this.folder == folder && filesize.None? && checksum == ""
    {
      id := None;
      name := upload.name;
      pending := Some(upload.content);
      this.folder := folder;
      filesize := None;
      checksum := "";
    }

    /** The instance the ORM builds from a row, with its folder. */
    constructor Loaded(row: FileRow, folder: FileFolder)
      ensures id == Some(row.id) && name == row.name && pending.None?
      ensures this.folder == folder && filesize == row.filesize && checksum == row.checksum
    {
      id := Some(row.id);
      name := row.name;
      pending := None;
      this.folder := folder;
      filesize := row.filesize;
      checksum := row.checksum;
    }

    /** Where `save` stores a pending upload. */
    function Target(site: Site): string
      reads this, folder
    {
      site.BlobPath(UploadPath(folder.uuid, name))
    }

    /** `Model.save()` of the upload: the file field stores a pending upload under
        `get_upload_path` first, then the row is written; a folder without a row
        is refused by the foreign key. */
    method SaveRow(site: Site) returns (err: Option<PyError>)
      requires site.Valid()
      requires pending.Some? ==> Target(site) !in site.blobs
      modifies this, site
      ensures site.Valid()
      ensures folder == old(folder) && filesize == old(filesize) && checksum == old(checksum) && pending.None?
      ensures old(pending).Some? ==>
        name == UploadPath(folder.uuid, old(name)) &&
        site.blobs == old(site.blobs)[site.BlobPath(name) := old(pending).value] &&
        site.dirs == old(site.dirs) + {BeforeLast(site.BlobPath(name), '/')}
      ensures old(pending).None? ==> name == old(name) && site.blobs == old(site.blobs) && site.dirs == old(site.dirs)
      ensures err.Some? <==> folder.id.None? || folder.id.value !in old(site.folders)
      ensures err.Some? ==> err == Some(IntegrityError) && id == old(id) && site.files == old(site.files)
      ensures err.Some? && old(pending).Some? ==> site.log == old(site.log) + [BlobWritten(site.BlobPath(name))]
      ensures err.Some? && old(pending).None? ==> site.log == old(site.log)
      ensures err.None? ==>
        id.Some? && (old(id).Some? ==> id == old(id)) && (old(id).None? ==> id == Some(old(site.nextFileId))) &&
        site.files == Upsert(old(site.files), FileRow(id.value, name, folder.id.value, filesize, checksum))
      ensures err.None? && old(pending).Some? ==>
        id.Some? && site.log == old(site.log) + [BlobWritten(site.BlobPath(name))] + [FileRowSaved(id.value)]
      ensures err.None? && old(pending).None? ==>
        id.Some? && site.log == old(site.log) + [FileRowSaved(id.value)]
      ensures site.folders == old(site.folders) && site.nextFolderId == old(site.nextFolderId)
    {
      if pending.Some? {
        name := UploadPath(folder.uuid, name);
        site.WriteBlob(name, pending.value);
        pending := None;
      }
      id, err := site.SaveFileRow(id, name, folder.id, filesize, checksum);
    }

    /** `super(UploadedFile, self).save()` followed by the `post_save` signal
        `update_filefolder`, which saves the file's folder. */
    method SaveAndSignal(site: Site, sha1: string -> string, made: UuidCodec.Uuid) returns (err: Option<PyError>)
      requires site.Valid()
      requires pending.Some? ==> Target(site) !in site.blobs
      modifies this, site, folder
      ensures site.Valid()
      ensures folder == old(folder) && pending.None? && folder.caption == old(folder.caption)
      ensures filesize == old(filesize) && checksum == old(checksum)
      ensures old(pending).Some? ==>
        name == UploadPath(old(folder.uuid), old(name)) &&
        site.blobs == old(site.blobs)[site.BlobPath(name) := old(pending).value] &&
        site.dirs == old(site.dirs) + {BeforeLast(site.BlobPath(name), '/')}
      ensures old(pending).None? ==> name == old(name) && site.blobs == old(site.blobs) && site.dirs == old(site.dirs)
      ensures err.None? <==>
        old(folder.id).Some? && old(folder.id).value in old(site.folders) &&
        !CaptionTaken(old(site.folders), old(folder.caption), old(folder.id))
      ensures err.Some? ==> err == Some(IntegrityError)
      ensures err.None? ==>
        id.Some? && folder.id == old(folder.id) && folder.id.Some? && (old(id).Some? ==> id == old(id)) &&
        (old(id).None? ==> id == Some(old(site.nextFileId))) &&
        site.files == Upsert(old(site.files), FileRow(id.value, name, folder.id.value, filesize, checksum))
      ensures err.None? ==>
        folder.id.Some? &&
        folder.checksum == sha1(Concat(Checksums(Members(site.files, folder.id.value)))) &&
        site.folders == old(site.folders)[folder.id.value := folder.Row()]
      ensures err.None? ==>
        folder.uuid == SavedUuid(old(folder.uuid), made) && folder.path == FolderPath(folder.uuid)
      ensures err.None? && old(pending).Some? ==>
        id.Some? && folder.id.Some? &&
        site.log == old(site.log) + [BlobWritten(site.BlobPath(name))] + [FileRowSaved(id.value)] + [FolderRowSaved(folder.id.value)]
      ensures err.None? && old(pending).None? ==>
        id.Some? && folder.id.Some? &&
        site.log == old(site.log) + [FileRowSaved(id.value)] + [FolderRowSaved(folder.id.value)]
    {
      err := SaveRow(site);
      if err.Some? {
        return;
      }
      err := folder.Save(site, sha1, made);
    }

    /** The second `super().save()` of `UploadedFile.save`, with its signal: the
        upload is already stored and its folder saved, so neither save can fail. */
    method Resave(site: Site, sha1: string -> string, made: UuidCodec.Uuid)
      requires site.Valid() && pending.None?
      requires folder.id.Some? && folder.id.value in site.folders
      requires !CaptionTaken(site.folders, folder.caption, folder.id)
      requires id.Some?
      modifies this, site, folder
      ensures site.Valid()
      ensures folder == old(folder) && pending.None? && name == old(name) && id == old(id)
      ensures filesize == old(filesize) && checksum == old(checksum)
      ensures folder.id == old(folder.id) && folder.caption == old(folder.caption)
      ensures site.blobs == old(site.blobs) && site.dirs == old(site.dirs)
      ensures folder.uuid == SavedUuid(old(folder.uuid), made) && folder.path == FolderPath(folder.uuid)
      ensures site.files == Upsert(old(site.files), FileRow(id.value, name, folder.id.value, filesize, checksum))
      ensures folder.checksum == sha1(Concat(Checksums(Members(site.files, folder.id.value))))
      ensures site.folders == old(site.folders)[folder.id.value := folder.Row()]
      ensures site.log == old(site.log) + [FileRowSaved(id.value)] + [FolderRowSaved(folder.id.value)]
    {
      var e := SaveRow(site);
      assert e.None?;
      e := folder.Save(site, sha1, made);
      assert e.None?;
    }

    /** `UploadedFile.save`: the row is saved, and the folder with it; the stored
        bytes are hashed, `checksum` and `filesize` set, and the row and the
        folder are saved again. */
    method Save(site: Site, sha1: string -> string, made: UuidCodec.Uuid) returns (err: Option<PyError>)
      requires site.Valid()
      requires pending.Some? ==> Target(site) !in site.blobs
      modifies this, site, folder
      ensures site.Valid()
      ensures folder == old(folder) && pending.None? && folder.caption == old(folder.caption)
      ensures old(pending).Some? ==> name == UploadPath(old(folder.uuid), old(name))
      ensures old(pending).None? ==> name == old(name)
      ensures old(folder.id).None? || old(folder.id).value !in old(site.folders) ==>
        err == Some(IntegrityError)
      ensures (old(folder.id).Some? && old(folder.id).value in old(site.folders) &&
               CaptionTaken(old(site.folders), old(folder.caption), old(folder.id))) ==>
        err == Some(IntegrityError)
      ensures (old(folder.id).Some? && old(folder.id).value in old(site.folders) &&
               !CaptionTaken(old(site.folders), old(folder.caption), old(folder.id)) &&
               old(pending).None? && site.BlobPath(old(name)) !in old(site.blobs)) ==>
        err == Some(IOError)
      ensures err.None? <==>
        old(folder.id).Some? && old(folder.id).value in old(site.folders) &&
        !CaptionTaken(old(site.folders), old(folder.caption), old(folder.id)) &&
        (old(pending).Some? || site.BlobPath(old(name)) in old(site.blobs))
      ensures err.None? ==>
        var stored := if old(pending).Some? then old(pending).value else old(site.blobs)[site.BlobPath(old(name))];
        id.Some? && folder.id == old(folder.id) && checksum == sha1(stored) && filesize == Some(|stored|) &&
        (old(id).Some? ==> id == old(id)) && (old(id).None? ==> id == Some(old(site.nextFileId))) &&
        site.blobs == (if old(pending).Some? then old(site.blobs)[site.BlobPath(name) := stored] else old(site.blobs))
      ensures err.None? ==>
        id.Some? && folder.id.Some? &&
        site.files ==
          Upsert(Upsert(old(site.files), FileRow(id.value, name, folder.id.value, old(filesize), old(checksum))),
                 FileRow(id.value, name, folder.id.value, filesize, checksum))
      ensures err.None? ==>
        folder.id.Some? &&
        folder.checksum == sha1(Concat(Checksums(Members(site.files, folder.id.value)))) &&
        site.folders == old(site.folders)[folder.id.value := folder.Row()]
      ensures err.None? ==>
        folder.uuid == SavedUuid(old(folder.uuid), made) && folder.path == FolderPath(folder.uuid) &&
        site.dirs == (if old(pending).Some? then old(site.dirs) + {BeforeLast(site.BlobPath(name), '/')} else old(site.dirs))
      ensures err.None? && old(pending).Some? ==>
        id.Some? && folder.id.Some? &&
        site.log ==
          old(site.log) + [BlobWritten(site.BlobPath(name))] + [FileRowSaved(id.value)] + [FolderRowSaved(folder.id.value)] +
          [FileRowSaved(id.value)] + [FolderRowSaved(folder.id.value)]
      ensures err.None? && old(pending).None? ==>
        id.Some? && folder.id.Some? &&
        site.log ==
          old(site.log) + [FileRowSaved(id.value)] + [FolderRowSaved(folder.id.value)] +
          [FileRowSaved(id.value)] + [FolderRowSaved(folder.id.value)]
    {
      err := SaveAndSignal(site, sha1, made);
      if err.Some? {
        return;
      }
      ghost var fkey := folder.id.value;
      ghost var folders1 := site.folders;
      assert folders1 == old(site.folders)[fkey := folder.Row()];
      CaptionTakenIgnoresOwnRow(old(site.folders), fkey, folder.Row(), folder.caption);
      err := Rehash(site, sha1, made);
      if err.Some? {
        return;
      }
      OverwriteTwice(old(site.folders), fkey, folders1[fkey], folder.Row());
    }

    /** The rest of `UploadedFile.save` once the row and its folder are saved: the
        stored file is read and hashed, `checksum` and `filesize` are set, and the
        row is saved again (the storage refuses a name it holds no file under). */
    method Rehash(site: Site, sha1: string -> string, made: UuidCodec.Uuid) returns (err: Option<PyError>)
      requires site.Valid() && pending.None?
      requires folder.id.Some? && folder.id.value in site.folders
      requires !CaptionTaken(site.folders, folder.caption, folder.id)
      requires id.Some?
      modifies this, site, folder
      ensures site.Valid()
      ensures folder == old(folder) && pending.None? && name == old(name) && id == old(id)
      ensures folder.id == old(folder.id) && folder.caption == old(folder.caption)
      ensures err.None? <==> site.BlobPath(name) in old(site.blobs)
      ensures err.Some? ==> err == Some(IOError)
      ensures err.None? ==>
        folder.uuid == SavedUuid(old(folder.uuid), made) && folder.path == FolderPath(folder.uuid)
      ensures err.None? ==>
        var stored := old(site.blobs)[site.BlobPath(name)];
        checksum == sha1(stored) && filesize == Some(|stored|) &&
        site.blobs == old(site.blobs) && site.dirs == old(site.dirs) &&
        site.files == Upsert(old(site.files), FileRow(id.value, name, folder.id.value, filesize, checksum)) &&
        folder.checksum == sha1(Concat(Checksums(Members(site.files, folder.id.value)))) &&
        site.folders == old(site.folders)[folder.id.value := folder.Row()] &&
        site.log == old(site.log) + [FileRowSaved(id.value)] + [FolderRowSaved(folder.id.value)]
    {
      var p := site.BlobPath(name);
      if p !in site.blobs {
        return Some(IOError);
      }
      var content := site.blobs[p];
      var fed := HashInput(content);
      checksum := sha1(fed);
      filesize := Some(|content|);
      Resave(site, sha1, made);
      err := None;
    }

    /** `UploadedFile.delete`: the storage path is taken first (`file.path`
        raises ValueError for a field without a name), then the row is deleted
        (Django asserts it has a key and clears the key), the folder is saved
        again, which recomputes its checksum without this file, and the stored
        file is deleted last. */
    method Delete(site: Site, sha1: string -> string, made: UuidCodec.Uuid) returns (err: Option<PyError>)
      requires site.Valid()
      modifies this, site, folder
      ensures site.Valid()
      ensures folder == old(folder) && name == old(name) && folder.caption == old(folder.caption)
      ensures site.dirs == old(site.dirs)
      ensures old(folder.id).Some? ==> folder.id == old(folder.id)
      ensures old(name) != "" && old(id).Some? ==>
        folder.uuid == SavedUuid(old(folder.uuid), made) && folder.path == FolderPath(folder.uuid)
      ensures old(name) == "" || old(id).None? ==>
        err == (if old(name) == "" then Some(ValueError) else Some(AssertionError)) &&
        folder.id == old(folder.id) && folder.Row() == old(folder.Row()) &&
        id == old(id) && site.files == old(site.files) && site.folders == old(site.folders) &&
        site.blobs == old(site.blobs) && site.log == old(site.log)
      ensures err.None? <==>
        old(name) != "" && old(id).Some? && !CaptionTaken(old(site.folders), old(folder.caption), old(folder.id))
      ensures old(name) != "" && old(id).Some? ==>
        id.None? && site.files == Without(old(site.files), old(id).value) &&
        folder.checksum == sha1(Concat(Checksums(Without(FolderMembers(old(site.files), old(folder.id)), old(id).value))))
      ensures old(name) != "" && old(id).Some? && err.Some? ==>
        err == Some(IntegrityError) && site.folders == old(site.folders) && site.blobs == old(site.blobs) &&
        site.log == old(site.log) + [FileRowDeleted(old(id).value)]
      ensures err.None? ==>
        folder.id.Some? && site.folders == old(site.folders)[folder.id.value := folder.Row()] &&
        site.blobs == old(site.blobs) - {site.BlobPath(name)} &&
        site.log ==
          old(site.log) + [FileRowDeleted(old(id).value)] + [FolderRowSaved(folder.id.value)] +
          [BlobDeleted(site.BlobPath(name))]
    {
      if name == "" {
        return Some(ValueError);
      }
      var p := site.BlobPath(name);
      if id.None? {
        return Some(AssertionError);
      }
      site.DeleteFileRow(id.value);
      MembersOfWithoutKey(old(site.files), old(id).value, folder.id);
      id := None;
      err := folder.Save(site, sha1, made);
      if err.Some? {
        return;
      }
      site.DeleteBlob(p);
    }
  }

  // ---------------------------------------------------------------------------
  // Deleting a folder

  /** The loop of `FileFolder.delete`: each upload the folder's query returns is
      loaded with this folder as its `filefolder` and deleted through
      `UploadedFile.delete`; the first error ends the loop. */
  method DeleteMembers(folder: FileFolder, site: Site, sha1: string -> string, made: UuidCodec.Uuid)
    returns (err: Option<PyError>)
    requires site.Valid()
    modifies folder, site
    ensures site.Valid()
    ensures folder.id == old(folder.id) && folder.caption == old(folder.caption)
    ensures site.dirs == old(site.dirs)
    ensures err == MembersError(FolderMembers(old(site.files), old(folder.id)),
                                CaptionTaken(old(site.folders), old(folder.caption), old(folder.id)))
    ensures var members := FolderMembers(old(site.files), old(folder.id));
      err.None? ==>
        site.files == Others(old(site.files), old(folder.id)) &&
        site.blobs == old(site.blobs) - site.StoredPaths(members) &&
        site.log == old(site.log) + site.DeletionLog(members)
    ensures var members := FolderMembers(old(site.files), old(folder.id));
      err.None? && members == [] ==> site.folders == old(site.folders) && folder.Row() == old(folder.Row())
    ensures var members := FolderMembers(old(site.files), old(folder.id));
      err.None? && members != [] ==>
        folder.id.Some? && site.folders == old(site.folders)[folder.id.value := folder.Row()] &&
        folder.uuid == SavedUuid(old(folder.uuid), made) && folder.path == FolderPath(folder.uuid) &&
        folder.checksum == sha1("")
  {
    if folder.id.None? {
      OthersOfUnsaved(site.files);
      return None;
    }
    var k := folder.id.value;
    var members := Members(site.files, k);
    ghost var taken := CaptionTaken(site.folders, folder.caption, folder.id);
    ghost var start := Start(site.folders, site.files, site.blobs, site.dirs, site.log, folder.Row());
    err := None;
    var i := 0;
    while i < |members|
      invariant err.None? && DeletedUpTo(folder, site, sha1, made, members, i, k, start, taken)
    {
      err := DeleteAt(folder, site, sha1, made, members, i, k, start, taken);
      if err.Some? {
        return;
      }
      i := i + 1;
    }
    NoMembersLeft(site.files, k);
    assert members[..i] == members && members[i..] == [];
    assert Checksums(members[i..]) == [];
  }

  /** The error the loop of `FileFolder.delete` ends with: each upload is
      refused for an empty name, otherwise its folder's save is refused when
      another folder holds the label (`taken`, which only the first save can
      meet: the label does not change). */
  function MembersError(members: seq<FileRow>, taken: bool): (r: Option<PyError>)
    ensures r.Some? ==> r == Some(ValueError) || r == Some(IntegrityError)
    ensures r == Some(IntegrityError) ==> taken && members != [] && members[0].name != ""
  {
    if members == [] then None
    else if members[0].name == "" then Some(ValueError)
    else if taken then Some(IntegrityError)
    else MembersError(members[1..], false)
  }

  /** The loop runs through exactly when no upload has an empty name and, if
      there is any, the label is free. */
  lemma {:induction false} MembersErrorNone(members: seq<FileRow>, taken: bool)
    ensures MembersError(members, taken).None? <==>
      (forall j :: 0 <= j < |members| ==> members[j].name != "") && (members != [] ==> !taken)
    decreases |members|
  {
    if members != [] && members[0].name != "" && !taken {
      MembersErrorNone(members[1..], false);
      assert forall j :: 1 <= j < |members| ==> members[j] == members[1..][j - 1];
    }
  }

  /** The stores and the folder as they were when the loop of `FileFolder.delete`
      began. */
  datatype Start = Start(folders: map<nat, FolderRow>, files: seq<FileRow>, blobs: map<string, string>,
                         dirs: set<string>, log: seq<Effect>, row: FolderRow)

  /** The state after the loop has deleted the first `i` of the folder `k`'s
      uploads: the stores as at the start less those uploads, and the folder
      saved again after each. */
  ghost predicate DeletedUpTo(folder: FileFolder, site: Site, sha1: string -> string, made: UuidCodec.Uuid,
                              members: seq<FileRow>, i: nat, k: nat, start: Start, taken: bool)
    reads folder, site
  {
    i <= |members| && site.Valid() && folder.id == Some(k) && folder.caption == start.row.caption &&
    site.dirs == start.dirs &&
    MembersError(members, taken) == MembersError(members[i..], taken) && (i > 0 ==> !taken) &&
    taken == CaptionTaken(start.folders, start.row.caption, Some(k)) &&
    Members(site.files, k) == members[i..] && Others(site.files, Some(k)) == Others(start.files, Some(k)) &&
    site.blobs == start.blobs - site.StoredPaths(members[..i]) &&
    site.log == start.log + site.DeletionLog(members[..i]) &&
    (i == 0 ==> site.folders == start.folders && folder.Row() == start.row) &&
    (i > 0 ==>
      site.folders == start.folders[k := folder.Row()] &&
      folder.uuid == SavedUuid(start.row.uuid, made) && folder.path == FolderPath(folder.uuid) &&
      folder.checksum == sha1(Concat(Checksums(members[i..]))))
  }

  /** One turn of the loop of `FileFolder.delete`: the `i`-th upload is loaded
      with the folder and deleted. */
  method DeleteAt(folder: FileFolder, site: Site, sha1: string -> string, made: UuidCodec.Uuid,
                  members: seq<FileRow>, i: nat, k: nat, ghost start: Start, ghost taken: bool)
    returns (err: Option<PyError>)
    requires i < |members| && DeletedUpTo(folder, site, sha1, made, members, i, k, start, taken)
    modifies folder, site
    ensures site.Valid()
    ensures folder.id == Some(k) && folder.caption == old(folder.caption) && site.dirs == old(site.dirs)
    ensures err.Some? ==> err == MembersError(members, taken)
    ensures err.None? ==> DeletedUpTo(folder, site, sha1, made, members, i + 1, k, start, taken)
  {
    var m := members[i];
    ghost var files1, blobs1, log1, rowi := site.files, site.blobs, site.log, folder.Row();
    if i > 0 {
      CaptionTakenIgnoresOwnRow(start.folders, k, rowi, folder.caption);
    }
    MemberInTable(files1, members, i, k);
    var u := new UploadedFile.Loaded(m, folder);
    err := u.Delete(site, sha1, made);
    assert members[i..][0] == m && members[i..][1..] == members[i + 1..];
    if err.Some? {
      return;
    }
    DeleteMemberStep(files1, members, i, k);
    site.DeletionStep(members, i);
    LogStep(start.log, site.DeletionLog(members[..i]), FileRowDeleted(m.id), FolderRowSaved(k),
            BlobDeleted(site.BlobPath(m.name)));
    if i > 0 {
      OverwriteTwice(start.folders, k, rowi, folder.Row());
    }
    BlobsMinusStep(start.blobs, site.StoredPaths(members[..i]), site.BlobPath(m.name));
  }

  /** The upload the loop is at is a row of the table and of the folder. */
  lemma MemberInTable(files: seq<FileRow>, members: seq<FileRow>, i: nat, k: nat)
    requires i < |members| && Members(files, k) == members[i..]
    ensures members[i] in files && members[i].folder == k
  {
    assert members[i..][0] == members[i];
  }

  /** Deleting the upload the loop is at leaves the folder's later uploads and
      the other folders' rows. */
  lemma DeleteMemberStep(files: seq<FileRow>, members: seq<FileRow>, i: nat, k: nat)
    requires i < |members| && KeysDistinct(files) && Members(files, k) == members[i..]
    ensures Without(members[i..], members[i].id) == members[i + 1..]
    ensures Members(Without(files, members[i].id), k) == members[i + 1..]
    ensures Others(Without(files, members[i].id), Some(k)) == Others(files, Some(k))
  {
    MemberInTable(files, members, i, k);
    FilterKeysDistinct(files, (r: FileRow) => r.folder == k);
    MembersOfWithout(files, members[i].id, k);
    WithoutHead(members[i..]);
    assert members[i..][1..] == members[i + 1..];
    OthersOfWithout(files, members[i]);
  }

  /** Appending three effects to a log that already ends in a run of them. */
  lemma LogStep(log: seq<Effect>, run: seq<Effect>, a: Effect, b: Effect, c: Effect)
    ensures log + run + [a] + [b] + [c] == log + (run + [a] + [b] + [c])
  {
  }

  /** Writing a key twice leaves the second value. */
  lemma OverwriteTwice<K, V>(m: map<K, V>, k: K, a: V, b: V)
    ensures m[k := a][k := b] == m[k := b]
  {
  }

  /** Removing a key after writing it is removing it. */
  lemma RemoveOverwritten<K, V>(m: map<K, V>, k: K, v: V)
    ensures m[k := v] - {k} == m - {k}
  {
  }

  /** Removing one more path from what is left. */
  lemma BlobsMinusStep(m: map<string, string>, gone: set<string>, p: string)
    ensures m - gone - {p} == m - (gone + {p})
  {
  }

  /** Whether another row holds a caption does not depend on this key's own row. */
  lemma CaptionTakenIgnoresOwnRow(folders: map<nat, FolderRow>, key: nat, row: FolderRow, caption: string)
    ensures CaptionTaken(folders[key := row], caption, Some(key)) <==> CaptionTaken(folders, caption, Some(key))
  {
    if CaptionTaken(folders, caption, Some(key)) {
      var k :| k in folders && folders[k].caption == caption && Some(k) != Some(key);
      assert folders[key := row][k] == folders[k];
    }
  }
}
