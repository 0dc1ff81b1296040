/** The upload view of the Django front end: `add_filefolder` sorts the list of
    uploaded files by name in place, saves a new folder, saves one
    `UploadedFile` per upload into it in that order, and saves the folder once
    more. */
module FolderViews {
  import opened Common
  import opened DiskStore
  import opened Folders
  import UuidCodec

  // ---------------------------------------------------------------------------
  // `file_list.sort(key=str)` on the caller's list

  /** Inserting `x` after every element up to its name, when the first one above
      it is at `j`, puts `x` at `j`, keeps what is before and shifts what is after. */
  lemma {:induction false} InsertAt<T>(x: T, xs: seq<T>, key: T -> string, j: nat)
    requires j <= |xs|
    requires forall k :: 0 <= k < j ==> NameLe(key(xs[k]), key(x))
    requires j < |xs| ==> !NameLe(key(xs[j]), key(x))
    ensures Insert(x, xs, key)[j] == x
    ensures forall k :: 0 <= k < j ==> Insert(x, xs, key)[k] == xs[k]
    ensures forall k :: j < k <= |xs| ==> Insert(x, xs, key)[k] == xs[k - 1]
    decreases j
  {
    var r := Insert(x, xs, key);
    if j == 0 {
      if xs != [] {
        assert r == [x] + xs;
      }
    } else {
      var tail := xs[1..];
      InsertAt(x, tail, key, j - 1);
      var rest := Insert(x, tail, key);
      assert r == [xs[0]] + rest;
      forall k | j < k <= |xs|
        ensures r[k] == xs[k - 1]
      {
        assert r[k] == rest[k - 1] == tail[k - 2];
      }
    }
  }

  /** One step of the insertion sort: the upload at `i` is moved left past every
      upload with a greater name. */
  method InsertLast(a: array<Upload>, i: nat)
    requires i < a.Length && SortedBy(a[..i], UploadName)
    modifies a
    ensures a[..i + 1] == Insert(old(a[i]), old(a[..i]), UploadName)
    ensures forall k :: i < k < a.Length ==> a[k] == old(a[k])
  {
    ghost var o := a[..];
    var x := a[i];
    var j := ShiftUp(a, i, x.name);
    ghost var b := a[..];
    a[j] := x;
    assert a[..] == b[j := x];
    ShiftedIsInsert(o, b, i, j);
  }

  /** `b` is `o` with the uploads from `j` up to `i` moved one place up, where `j`
      is the place for the upload at `i`: after every name up to its own and
      before the names above it. */
  predicate ShiftedAt(o: seq<Upload>, b: seq<Upload>, i: nat, j: nat) {
    |b| == |o| && j <= i < |o| &&
    (forall k :: 0 <= k < j ==> b[k] == o[k]) &&
    (forall k :: j < k <= i ==> b[k] == o[k - 1]) &&
    (forall k :: i < k < |o| ==> b[k] == o[k]) &&
    (j > 0 ==> NameLe(o[j - 1].name, o[i].name)) &&
    (forall k :: j <= k < i ==> !NameLe(o[k].name, o[i].name))
  }

  /** Putting the upload back into the free place gives the insertion. */
  lemma ShiftedIsInsert(o: seq<Upload>, b: seq<Upload>, i: nat, j: nat)
    requires ShiftedAt(o, b, i, j) && SortedBy(o[..i], UploadName)
    ensures b[j := o[i]][..i + 1] == Insert(o[i], o[..i], UploadName)
    ensures forall k :: i < k < |o| ==> b[j := o[i]][k] == o[k]
  {
    var s, x := o[..i], o[i];
    forall k | 0 <= k < j
      ensures NameLe(s[k].name, x.name)
    {
      if k < j - 1 {
        NameLeTrans(s[k].name, s[j - 1].name, x.name);
      }
    }
    InsertAt(x, s, UploadName, j);
    var r := Insert(x, s, UploadName);
    var c := b[j := x];
    forall k | 0 <= k <= i
      ensures c[k] == r[k]
    {
    }
    assert c[..i + 1] == r;
  }

  /** The shifting loop: the uploads before `i` with a name above `name` move
      one place up, from the last one down, until one is not above it; `j` is
      the place left free. */
  method ShiftUp(a: array<Upload>, i: nat, name: string) returns (j: nat)
    requires i < a.Length && name == a[i].name
    modifies a
    ensures ShiftedAt(old(a[..]), a[..], i, j)
  {
    j := i;
    while j > 0 && !NameLe(a[j - 1].name, name)
      invariant 0 <= j <= i
      invariant forall k :: 0 <= k < j ==> a[k] == old(a[k])
      invariant forall k :: j < k <= i ==> a[k] == old(a[k - 1])
      invariant forall k :: i < k < a.Length ==> a[k] == old(a[k])
      invariant forall k :: j <= k < i ==> !NameLe(old(a[k]).name, name)
      decreases j
    {
      a[j] := a[j - 1];
      j := j - 1;
    }
  }

  /** `list.sort(key=str)`: the list ends up as the stable sort of its uploads by
      name. */
  method SortUploads(a: array<Upload>)
    modifies a
    ensures a[..] == Sort(old(a[..]), UploadName)
  {
    ghost var o := a[..];
    for i := 0 to a.Length
      invariant a[..i] == Sort(o[..i], UploadName)
      invariant forall k :: i <= k < a.Length ==> a[k] == o[k]
    {
      SortSorted(o[..i], UploadName);
      InsertLast(a, i);
      SortStep(o, i);
    }
    assert a[..] == a[..a.Length] && o[..a.Length] == o;
  }

  /** Sorting one more element of `o` inserts it into the sorted prefix. */
  lemma SortStep(o: seq<Upload>, i: nat)
    requires i < |o|
    ensures Sort(o[..i + 1], UploadName) == Insert(o[i], Sort(o[..i], UploadName), UploadName)
  {
    assert o[..i + 1][..i] == o[..i];
  }

  /** No two uploads share a name. */
  predicate NamesDistinct(xs: seq<Upload>) {
    forall j, k :: 0 <= j < k < |xs| ==> xs[j].name != xs[k].name
  }

  lemma {:induction false} InsertNamesDistinct(x: Upload, ys: seq<Upload>)
    requires NamesDistinct(ys) && forall y :: y in ys ==> y.name != x.name
    ensures NamesDistinct(Insert(x, ys, UploadName))
    decreases |ys|
  {
    if ys == [] {
    } else if NameLe(ys[0].name, x.name) {
      var tail := ys[1..];
      assert NamesDistinct(tail) by {
        forall j, k | 0 <= j < k < |tail|
          ensures tail[j].name != tail[k].name
        {
          assert tail[j] == ys[j + 1] && tail[k] == ys[k + 1];
        }
      }
      InsertNamesDistinct(x, tail);
      var rest := Insert(x, tail, UploadName);
      forall z | z in rest
        ensures z.name != ys[0].name
      {
        assert z in multiset(rest);
        if z != x {
          var q :| 0 <= q < |tail| && tail[q] == z;
          assert ys[q + 1] == z;
        }
      }
      ConsNamesDistinct(ys[0], rest);
    } else {
      ConsNamesDistinct(x, ys);
    }
  }

  lemma ConsNamesDistinct(y: Upload, rest: seq<Upload>)
    requires NamesDistinct(rest) && forall z :: z in rest ==> z.name != y.name
    ensures NamesDistinct([y] + rest)
  {
    var r := [y] + rest;
    forall j, k | 0 <= j < k < |r|
      ensures r[j].name != r[k].name
    {
      assert r[k] == rest[k - 1];
      if j > 0 {
        assert r[j] == rest[j - 1];
      }
    }
  }

  /** Sorting keeps the names distinct. */
  lemma {:induction false} SortNamesDistinct(xs: seq<Upload>)
    requires NamesDistinct(xs)
    ensures NamesDistinct(Sort(xs, UploadName))
    decreases |xs|
  {
    if xs != [] {
      var init := xs[..|xs| - 1];
      var x := xs[|xs| - 1];
      SortNamesDistinct(init);
      forall y | y in Sort(init, UploadName)
        ensures y.name != x.name
      {
        assert y in multiset(Sort(init, UploadName));
        var q :| 0 <= q < |init| && init[q] == y;
        assert xs[q] == y;
      }
      InsertNamesDistinct(x, Sort(init, UploadName));
    }
  }

  // ---------------------------------------------------------------------------
  // Where the view's uploads end up

  /** A name `get_upload_path` joins as one path component. */
  predicate PlainName(n: string) {
    n != "" && '/' !in n
  }

  /** `make_uuid()` gives a plain component: hex digits and hyphens. */
  lemma HyphenatedPlain(made: UuidCodec.Uuid)
    ensures PlainName(UuidCodec.Hyphenated(made))
  {
    UuidCodec.HyphenatedAlphabet(made);
  }

  /** `os.path.join` onto a relative path: the folder, a slash unless it is
      empty or ends in one, then the path. */
  function JoinPrefix(a: string): string {
    if a == "" || a[|a| - 1] == '/' then a else a + "/"
  }

  lemma JoinRelative(a: string, b: string)
    requires b != [] && b[0] != '/'
    ensures PathJoin(a, b) == JoinPrefix(a) + b
  {
    assert !StartsWith(b, "/") by {
      if |b| >= 1 {
        assert b[..1] == [b[0]];
      }
    }
  }

  /** A folder's path is `FileFolders/<uuid>`: it starts with a letter and ends
      in the uuid's last character. */
  lemma FolderPathShape(folderUuid: string)
    requires PlainName(folderUuid)
    ensures FolderPath(folderUuid) == ROOT_FILEFOLDERS + "/" + folderUuid
    ensures FolderPath(folderUuid)[0] == 'F'
    ensures FolderPath(folderUuid)[|FolderPath(folderUuid)| - 1] != '/'
  {
    assert folderUuid[0] in folderUuid;
    assert folderUuid[|folderUuid| - 1] in folderUuid;
    JoinRelative(ROOT_FILEFOLDERS, folderUuid);
  }

  /** An upload's path is its folder's path, a slash and its name. */
  lemma UploadPathShape(folderUuid: string, n: string)
    requires PlainName(folderUuid) && PlainName(n)
    ensures UploadPath(folderUuid, n) == FolderPath(folderUuid) + "/" + n
    ensures UploadPath(folderUuid, n)[0] == 'F'
  {
    FolderPathShape(folderUuid);
    assert n[0] in n;
    JoinRelative(FolderPath(folderUuid), n);
  }

  /** Upload paths in one folder compare as the file names do. */
  lemma UploadPathOrder(folderUuid: string, a: string, b: string)
    requires PlainName(folderUuid) && PlainName(a) && PlainName(b) && NameLe(a, b)
    ensures NameLe(UploadPath(folderUuid, a), UploadPath(folderUuid, b))
  {
    UploadPathShape(folderUuid, a);
    UploadPathShape(folderUuid, b);
    NameLePrefix(FolderPath(folderUuid) + "/", a, b);
  }

  /** Two uploads of one folder with different names are stored under different
      paths. */
  lemma TargetsDiffer(site: Site, folderUuid: string, a: string, b: string)
    requires PlainName(folderUuid) && PlainName(a) && PlainName(b) && a != b
    ensures site.BlobPath(UploadPath(folderUuid, a)) != site.BlobPath(UploadPath(folderUuid, b))
  {
    var pre := FolderPath(folderUuid) + "/";
    UploadPathShape(folderUuid, a);
    UploadPathShape(folderUuid, b);
    var pa, pb := UploadPath(folderUuid, a), UploadPath(folderUuid, b);
    assert pa[|pre|..] == a && pb[|pre|..] == b;
    JoinRelative(site.mediaRoot, pa);
    JoinRelative(site.mediaRoot, pb);
    var j := JoinPrefix(site.mediaRoot);
    assert (j + pa)[|j|..] == pa && (j + pb)[|j|..] == pb;
  }

  /** The folder a stored upload lies in is the stored folder's path. */
  lemma UploadDir(site: Site, folderUuid: string, n: string)
    requires PlainName(folderUuid) && PlainName(n)
    ensures BeforeLast(site.BlobPath(UploadPath(folderUuid, n)), '/') == site.BlobPath(FolderPath(folderUuid))
  {
    var d := FolderPath(folderUuid);
    FolderPathShape(folderUuid);
    UploadPathShape(folderUuid, n);
    JoinRelative(site.mediaRoot, d);
    JoinRelative(site.mediaRoot, UploadPath(folderUuid, n));
    var jd := JoinPrefix(site.mediaRoot) + d;
    assert site.BlobPath(UploadPath(folderUuid, n)) == jd + "/" + n;
    assert jd[|jd| - 1] == d[|d| - 1];
    DirnameOfJoin(jd, n);
    assert n[0] in n;
    JoinRelative(jd, n);
  }

  /** The storage after the uploads `t` are written into the folder `folderUuid`,
      one after the other. */
  function StoredUploads(site: Site, blobs: map<string, string>, folderUuid: string, t: seq<Upload>): map<string, string> {
    if t == [] then blobs
    else
      var x := t[|t| - 1];
      StoredUploads(site, blobs, folderUuid, t[..|t| - 1])[site.BlobPath(UploadPath(folderUuid, x.name)) := x.content]
  }

  /** Every upload's bytes are found under its path. */
  lemma StoredUploadsHold(site: Site, blobs: map<string, string>, folderUuid: string, t: seq<Upload>)
    requires PlainName(folderUuid) && NamesDistinct(t)
    requires forall k :: 0 <= k < |t| ==> PlainName(t[k].name)
    ensures forall k :: 0 <= k < |t| ==>
      var p := site.BlobPath(UploadPath(folderUuid, t[k].name));
      p in StoredUploads(site, blobs, folderUuid, t) && StoredUploads(site, blobs, folderUuid, t)[p] == t[k].content
  {
    forall k | 0 <= k < |t|
      ensures var p := site.BlobPath(UploadPath(folderUuid, t[k].name));
        p in StoredUploads(site, blobs, folderUuid, t) && StoredUploads(site, blobs, folderUuid, t)[p] == t[k].content
    {
      StoredAt(site, blobs, folderUuid, t, k);
    }
  }

  lemma {:induction false} StoredAt(site: Site, blobs: map<string, string>, folderUuid: string, t: seq<Upload>, k: nat)
    requires PlainName(folderUuid) && NamesDistinct(t) && k < |t|
    requires forall j :: 0 <= j < |t| ==> PlainName(t[j].name)
    ensures site.BlobPath(UploadPath(folderUuid, t[k].name)) in StoredUploads(site, blobs, folderUuid, t)
    ensures StoredUploads(site, blobs, folderUuid, t)[site.BlobPath(UploadPath(folderUuid, t[k].name))] == t[k].content
    decreases |t|
  {
    var init := t[..|t| - 1];
    var x := t[|t| - 1];
    if k < |t| - 1 {
      DistinctInit(t);
      assert init[k] == t[k];
      assert forall j :: 0 <= j < |init| ==> init[j] == t[j];
      StoredAt(site, blobs, folderUuid, init, k);
      TargetsDiffer(site, folderUuid, t[k].name, x.name);
    }
  }

  lemma DistinctInit(t: seq<Upload>)
    requires t != [] && NamesDistinct(t)
    ensures NamesDistinct(t[..|t| - 1])
  {
    var init := t[..|t| - 1];
    forall j, k | 0 <= j < k < |init|
      ensures init[j].name != init[k].name
    {
      assert init[j] == t[j] && init[k] == t[k];
    }
  }

  /** Every other file of the storage is untouched. */
  lemma {:induction false} StoredUploadsKeep(site: Site, blobs: map<string, string>, folderUuid: string, t: seq<Upload>, p: string)
    requires p in blobs && forall k :: 0 <= k < |t| ==> p != site.BlobPath(UploadPath(folderUuid, t[k].name))
    ensures p in StoredUploads(site, blobs, folderUuid, t) && StoredUploads(site, blobs, folderUuid, t)[p] == blobs[p]
    decreases |t|
  {
    if t != [] {
      var init := t[..|t| - 1];
      assert forall k :: 0 <= k < |init| ==> init[k] == t[k];
      StoredUploadsKeep(site, blobs, folderUuid, init, p);
    }
  }

  /** A path outside the storage and no upload's path stays outside. */
  lemma {:induction false} StoredUploadsAbsent(site: Site, blobs: map<string, string>, folderUuid: string, t: seq<Upload>, p: string)
    requires p !in blobs
    requires forall k :: 0 <= k < |t| ==> site.BlobPath(UploadPath(folderUuid, t[k].name)) != p
    ensures p !in StoredUploads(site, blobs, folderUuid, t)
    decreases |t|
  {
    if t != [] {
      var init := t[..|t| - 1];
      assert forall k :: 0 <= k < |init| ==> init[k] == t[k];
      StoredUploadsAbsent(site, blobs, folderUuid, init, p);
    }
  }

  // ---------------------------------------------------------------------------
  // The upload rows the view adds

  /** The rows `ms` are the saved uploads `t`, in order: stored under the
      folder's path, hashed and sized. */
  predicate AddedRows(ms: seq<FileRow>, sha1: string -> string, folderUuid: string, t: seq<Upload>) {
    |ms| == |t| &&
    forall k :: 0 <= k < |t| ==>
      ms[k].name == UploadPath(folderUuid, t[k].name) && ms[k].checksum == sha1(t[k].content) &&
      ms[k].filesize == Some(|t[k].content|)
  }

  /** The checksums of the uploads, in order. */
  function UploadDigests(sha1: string -> string, t: seq<Upload>): (r: seq<string>)
    ensures |r| == |t| && forall k :: 0 <= k < |t| ==> r[k] == sha1(t[k].content)
  {
    seq(|t|, k requires 0 <= k < |t| => sha1(t[k].content))
  }

  /** The rows' checksums are the uploads' checksums. */
  lemma AddedChecksums(ms: seq<FileRow>, sha1: string -> string, folderUuid: string, t: seq<Upload>)
    requires AddedRows(ms, sha1, folderUuid, t)
    ensures Checksums(ms) == UploadDigests(sha1, t)
  {
  }

  /** Filtering out an inserted element that the filter drops gives the filter
      of the original. */
  lemma {:induction false} FilterInsertDropped<T(!new)>(r: T, xs: seq<T>, key: T -> string, keep: T -> bool)
    requires !keep(r)
    ensures Filter(Insert(r, xs, key), keep) == Filter(xs, keep)
    decreases |xs|
  {
    var ins := Insert(r, xs, key);
    if xs == [] {
      assert ins[1..] == [];
    } else if NameLe(key(xs[0]), key(r)) {
      FilterInsertDropped(r, xs[1..], key, keep);
      assert ins[0] == xs[0] && ins[1..] == Insert(r, xs[1..], key);
    } else {
      assert ins[0] == r && ins[1..] == xs;
    }
  }

  /** Saving a new row twice under a key no row has adds it once, by name. */
  lemma UpsertFresh(rows: seq<FileRow>, r1: FileRow, r2: FileRow)
    requires r1.id == r2.id && forall x :: x in rows ==> x.id != r2.id
    ensures Upsert(Upsert(rows, r1), r2) == Insert(r2, rows, RowName)
  {
    WithoutAbsent(rows, r1.id);
    FilterInsertDropped(r1, rows, RowName, (x: FileRow) => x.id != r2.id);
  }

  lemma {:induction false} MembersNone(files: seq<FileRow>, fid: nat)
    requires forall k :: 0 <= k < |files| ==> files[k].folder != fid
    ensures Members(files, fid) == []
    decreases |files|
  {
    if files != [] {
      assert forall k :: 0 <= k < |files| - 1 ==> files[1..][k] == files[k + 1];
      MembersNone(files[1..], fid);
    }
  }

  /** The row saved for upload `i` goes after the rows of the uploads before it,
      and leaves the other folders' rows as they were. */
  lemma MembersGrow(files: seq<FileRow>, r: FileRow, fid: nat, sha1: string -> string, folderUuid: string,
                    t: seq<Upload>, i: nat)
    requires SortedBy(files, RowName) && r.folder == fid && PlainName(folderUuid)
    requires i < |t| && SortedBy(t, UploadName) && forall k :: 0 <= k < |t| ==> PlainName(t[k].name)
    requires AddedRows(Members(files, fid), sha1, folderUuid, t[..i])
    requires r.name == UploadPath(folderUuid, t[i].name) && r.checksum == sha1(t[i].content)
    requires r.filesize == Some(|t[i].content|)
    ensures AddedRows(Members(Insert(r, files, RowName), fid), sha1, folderUuid, t[..i + 1])
    ensures Others(Insert(r, files, RowName), Some(fid)) == Others(files, Some(fid))
  {
    var ms := Members(files, fid);
    NamesUpTo(ms, r, sha1, folderUuid, t, i);
    MembersInsertLast(files, r);
    AddedRowsStep(ms, r, sha1, folderUuid, t, i);
    FilterInsertDropped(r, files, RowName, (q: FileRow) => Some(q.folder) != Some(fid));
  }

  /** The rows of the uploads before `i` have names up to the row of upload `i`. */
  lemma NamesUpTo(ms: seq<FileRow>, r: FileRow, sha1: string -> string, folderUuid: string, t: seq<Upload>, i: nat)
    requires PlainName(folderUuid) && i < |t| && SortedBy(t, UploadName)
    requires forall k :: 0 <= k < |t| ==> PlainName(t[k].name)
    requires AddedRows(ms, sha1, folderUuid, t[..i]) && r.name == UploadPath(folderUuid, t[i].name)
    ensures forall m :: m in ms ==> NameLe(m.name, r.name)
  {
    forall m | m in ms
      ensures NameLe(m.name, r.name)
    {
      var k :| 0 <= k < |ms| && ms[k] == m;
      assert t[..i][k] == t[k];
      UploadPathOrder(folderUuid, t[k].name, t[i].name);
    }
  }

  lemma AddedRowsStep(ms: seq<FileRow>, r: FileRow, sha1: string -> string, folderUuid: string, t: seq<Upload>, i: nat)
    requires i < |t| && AddedRows(ms, sha1, folderUuid, t[..i])
    requires r.name == UploadPath(folderUuid, t[i].name) && r.checksum == sha1(t[i].content)
    requires r.filesize == Some(|t[i].content|)
    ensures AddedRows(ms + [r], sha1, folderUuid, t[..i + 1])
  {
    assert forall k :: 0 <= k < i ==> t[..i + 1][k] == t[..i][k];
  }

  /** A folder key no row points at has no members, and every row is another
      folder's. */
  lemma FreshFolder(files: seq<FileRow>, folders: map<nat, FolderRow>, fid: nat)
    requires forall k :: 0 <= k < |files| ==> files[k].folder in folders
    requires fid !in folders
    ensures Members(files, fid) == [] && Others(files, Some(fid)) == files
  {
    MembersNone(files, fid);
    NoMembersLeft(files, fid);
  }

  // ---------------------------------------------------------------------------
  // add_filefolder

  /** What the view needs of the uploads, once sorted: first the names in order
      and distinct, each a plain path component whose storage path in the new
      folder is free at the start. */
  predicate UploadsFit(site: Site, folderUuid: string, t: seq<Upload>, blobs: map<string, string>) {
    SortedBy(t, UploadName) && NamesDistinct(t) && FitEach(site, folderUuid, t, blobs)
  }

  /** Each upload's name is a plain path component whose storage path in the
      folder is free. */
  predicate FitEach(site: Site, folderUuid: string, t: seq<Upload>, blobs: map<string, string>) {
    forall k :: 0 <= k < |t| ==>
      PlainName(t[k].name) && site.BlobPath(UploadPath(folderUuid, t[k].name)) !in blobs
  }

  /** The state after the first `i` uploads of `t` are saved into the folder `fid`,
      against the tables and storage `start` from before the view: the folder's
      key, row, and the tables and storage it sees. */
  ghost predicate AddedState(site: Site, sha1: string -> string, t: seq<Upload>, i: nat, fid: nat, folderUuid: string,
                             start: Start, id: Option<nat>, row: FolderRow, folders: map<nat, FolderRow>,
                             files: seq<FileRow>, blobs: map<string, string>, dirs: set<string>)
  {
    i <= |t| && id == Some(fid) && row.caption == "" && row.uuid == folderUuid && row.path == FolderPath(folderUuid) &&
    fid !in start.folders && !CaptionTaken(start.folders, "", Some(fid)) &&
    folders == start.folders[fid := row] &&
    row.checksum == sha1(Concat(Checksums(Members(files, fid)))) &&
    Others(files, Some(fid)) == start.files &&
    AddedRows(Members(files, fid), sha1, folderUuid, t[..i]) &&
    blobs == StoredUploads(site, start.blobs, folderUuid, t[..i]) &&
    dirs == start.dirs + (if i == 0 then {} else {site.BlobPath(FolderPath(folderUuid))})
  }

  ghost predicate AddedUpTo(folder: FileFolder, site: Site, sha1: string -> string, t: seq<Upload>, i: nat,
                            fid: nat, folderUuid: string, start: Start)
    reads folder, site
  {
    site.Valid() &&
    AddedState(site, sha1, t, i, fid, folderUuid, start, folder.id, folder.Row(), site.folders, site.files,
               site.blobs, site.dirs)
  }

  /** Saving upload `i` takes the state after `i` uploads to the state after
      `i + 1`. */
  lemma AddedStateStep(site: Site, sha1: string -> string, t: seq<Upload>, i: nat, fid: nat, folderUuid: string,
                       start: Start, row0: FolderRow, files0: seq<FileRow>, blobs0: map<string, string>,
                       dirs0: set<string>, r: FileRow, row1: FolderRow, files1: seq<FileRow>,
                       blobs1: map<string, string>, dirs1: set<string>)
    requires i < |t| && PlainName(folderUuid) && UploadsFit(site, folderUuid, t, start.blobs)
    requires AddedState(site, sha1, t, i, fid, folderUuid, start, Some(fid), row0, start.folders[fid := row0],
                        files0, blobs0, dirs0)
    requires SortedBy(files0, RowName)
    requires r.folder == fid && r.name == UploadPath(folderUuid, t[i].name)
    requires r.checksum == sha1(t[i].content) && r.filesize == Some(|t[i].content|)
    requires files1 == Insert(r, files0, RowName)
    requires row1.caption == "" && row1.uuid == folderUuid && row1.path == FolderPath(folderUuid)
    requires row1.checksum == sha1(Concat(Checksums(Members(files1, fid))))
    requires blobs1 == blobs0[site.BlobPath(r.name) := t[i].content]
    requires dirs1 == dirs0 + {BeforeLast(site.BlobPath(r.name), '/')}
    ensures AddedState(site, sha1, t, i + 1, fid, folderUuid, start, Some(fid), row1,
                       start.folders[fid := row0][fid := row1], files1, blobs1, dirs1)
  {
    MembersGrow(files0, r, fid, sha1, folderUuid, t, i);
    OverwriteTwice(start.folders, fid, row0, row1);
    StoredStep(site, start.blobs, folderUuid, t, i);
    UploadDir(site, folderUuid, t[i].name);
  }

  lemma StoredStep(site: Site, blobs: map<string, string>, folderUuid: string, t: seq<Upload>, i: nat)
    requires i < |t|
    ensures StoredUploads(site, blobs, folderUuid, t[..i + 1]) ==
      StoredUploads(site, blobs, folderUuid, t[..i])[site.BlobPath(UploadPath(folderUuid, t[i].name)) := t[i].content]
  {
    assert t[..i + 1][..i] == t[..i];
  }

  /** Upload `i`'s storage path is still free after the uploads before it. */
  lemma TargetFree(site: Site, sha1: string -> string, folderUuid: string, t: seq<Upload>, i: nat, start: Start)
    requires i < |t| && PlainName(folderUuid) && UploadsFit(site, folderUuid, t, start.blobs)
    ensures site.BlobPath(UploadPath(folderUuid, t[i].name)) !in StoredUploads(site, start.blobs, folderUuid, t[..i])
  {
    var p := site.BlobPath(UploadPath(folderUuid, t[i].name));
    forall k | 0 <= k < i
      ensures site.BlobPath(UploadPath(folderUuid, t[..i][k].name)) != p
    {
      assert t[..i][k] == t[k];
      TargetsDiffer(site, folderUuid, t[k].name, t[i].name);
    }
    StoredUploadsAbsent(site, start.blobs, folderUuid, t[..i], p);
  }

  /** One pass of the view's loop: `UploadedFile()` with the folder and the
      upload, then `save()`. */
  method AddOne(x: Upload, folder: FileFolder, site: Site, sha1: string -> string, made: UuidCodec.Uuid,
                ghost t: seq<Upload>, ghost i: nat, ghost fid: nat, ghost folderUuid: string, ghost start: Start)
    requires i < |t| && x == t[i] && PlainName(folderUuid) && UploadsFit(site, folderUuid, t, start.blobs)
    requires AddedUpTo(folder, site, sha1, t, i, fid, folderUuid, start)
    modifies site, folder
    ensures AddedUpTo(folder, site, sha1, t, i + 1, fid, folderUuid, start)
  {
    ghost var files0, row0, blobs0, dirs0 := site.files, folder.Row(), site.blobs, site.dirs;
    var u := new UploadedFile(folder, x);
    TargetFree(site, sha1, folderUuid, t, i, start);
    CaptionTakenIgnoresOwnRow(start.folders, fid, row0, "");
    var e := u.Save(site, sha1, made);
    ghost var r := FileRow(u.id.value, u.name, fid, u.filesize, u.checksum);
    UpsertFresh(files0, FileRow(u.id.value, u.name, fid, None, ""), r);
    AddedStateStep(site, sha1, t, i, fid, folderUuid, start, row0, files0, blobs0, dirs0, r, folder.Row(),
                   site.files, site.blobs, site.dirs);
  }

  /** Sorting keeps what the view needs of each upload, and puts the names in
      order. */
  lemma SortedFits(site: Site, folderUuid: string, o: seq<Upload>, blobs: map<string, string>)
    requires NamesDistinct(o) && FitEach(site, folderUuid, o, blobs)
    ensures UploadsFit(site, folderUuid, Sort(o, UploadName), blobs)
  {
    SortSorted(o, UploadName);
    SortNamesDistinct(o);
    SortedEach(site, folderUuid, o, blobs);
  }

  lemma SortedEach(site: Site, folderUuid: string, o: seq<Upload>, blobs: map<string, string>)
    requires FitEach(site, folderUuid, o, blobs)
    ensures FitEach(site, folderUuid, Sort(o, UploadName), blobs)
  {
    var t := Sort(o, UploadName);
    SortMembers(o);
    forall k | 0 <= k < |t|
      ensures PlainName(t[k].name) && site.BlobPath(UploadPath(folderUuid, t[k].name)) !in blobs
    {
      assert t[k] in t;
      var q :| 0 <= q < |o| && o[q] == t[k];
    }
  }

  /** The sorted list holds the uploads of the list. */
  lemma SortMembers(o: seq<Upload>)
    ensures forall x :: x in Sort(o, UploadName) ==> x in o
  {
    var t := Sort(o, UploadName);
    forall x | x in t
      ensures x in o
    {
      assert x in multiset(t);
    }
  }

  /** The state right after the first `save()` of the new folder: no upload saved
      yet. */
  lemma AddedStart(site: Site, sha1: string -> string, t: seq<Upload>, fid: nat, folderUuid: string, start: Start,
                   row: FolderRow, folders: map<nat, FolderRow>)
    requires forall k :: 0 <= k < |start.files| ==> start.files[k].folder in start.folders
    requires fid !in start.folders && !CaptionTaken(start.folders, "", None)
    requires row.caption == "" && row.uuid == folderUuid && row.path == FolderPath(folderUuid)
    requires row.checksum == sha1(Concat(Checksums(FolderMembers(start.files, None))))
    requires folders == start.folders[fid := row]
    ensures AddedState(site, sha1, t, 0, fid, folderUuid, start, Some(fid), row, folders, start.files,
                       start.blobs, start.dirs)
  {
    FreshFolder(start.files, start.folders, fid);
    assert t[..0] == [];
  }

  /** What `add_filefolder` leaves behind, against the tables and storage from
      before it: the folder's row, under key `fid`, with the empty label, the
      uuid, its path and the checksum over the uploads' checksums in order; one
      row per upload of `t`, in order, under the folder; the other rows as they
      were; each upload's bytes stored under its path; and the folder's
      directory made when there was an upload. */
  predicate FolderFilled(site: Site, sha1: string -> string, t: seq<Upload>, folderUuid: string, fid: nat,
                         folders0: map<nat, FolderRow>, files0: seq<FileRow>, blobs0: map<string, string>,
                         dirs0: set<string>, row: FolderRow, folders: map<nat, FolderRow>, files: seq<FileRow>,
                         blobs: map<string, string>, dirs: set<string>)
  {
    row.caption == "" && row.uuid == folderUuid && row.path == FolderPath(folderUuid) &&
    row.checksum == sha1(Concat(UploadDigests(sha1, t))) &&
    folders == folders0[fid := row] &&
    Others(files, Some(fid)) == files0 &&
    AddedRows(Members(files, fid), sha1, folderUuid, t) &&
    blobs == StoredUploads(site, blobs0, folderUuid, t) &&
    dirs == dirs0 + (if |t| == 0 then {} else {site.BlobPath(FolderPath(folderUuid))})
  }

  /** The state after the last `save()` of the folder, once every upload is
      saved. */
  lemma AddedFinish(site: Site, sha1: string -> string, t: seq<Upload>, fid: nat, folderUuid: string, start: Start,
                    row1: FolderRow, row2: FolderRow, files: seq<FileRow>, blobs: map<string, string>,
                    dirs: set<string>)
    requires AddedState(site, sha1, t, |t|, fid, folderUuid, start, Some(fid), row1, start.folders[fid := row1],
                        files, blobs, dirs)
    requires row2.caption == "" && row2.uuid == folderUuid && row2.path == FolderPath(folderUuid)
    requires row2.checksum == sha1(Concat(Checksums(Members(files, fid))))
    ensures FolderFilled(site, sha1, t, folderUuid, fid, start.folders, start.files, start.blobs, start.dirs,
                         row2, start.folders[fid := row1][fid := row2], files, blobs, dirs)
  {
    OverwriteTwice(start.folders, fid, row1, row2);
    assert t[..|t|] == t;
    AddedChecksums(Members(files, fid), sha1, folderUuid, t);
  }

  /** `add_filefolder(file_list)`: the list is sorted by name in place, a new
      folder is saved (which gives it its row and key), each upload is saved into
      it in sorted order, and the folder is saved once more. The new folder's
      empty label is refused when another folder already has that label. */
  method AddFileFolder(uploads: array<Upload>, site: Site, sha1: string -> string, made: UuidCodec.Uuid)
    returns (folder: FileFolder, err: Option<PyError>)
    requires site.Valid() && NamesDistinct(uploads[..])
    requires FitEach(site, UuidCodec.Hyphenated(made), uploads[..], site.blobs)
    modifies uploads, site
    ensures site.Valid()
    ensures uploads[..] == Sort(old(uploads[..]), UploadName)
    ensures fresh(folder)
    ensures err.Some? <==> CaptionTaken(old(site.folders), "", None)
    ensures err.Some? ==>
      err == Some(IntegrityError) && folder.id.None? && site.folders == old(site.folders) &&
      site.files == old(site.files) && site.blobs == old(site.blobs) && site.dirs == old(site.dirs)
    ensures err.None? ==>
      folder.id == Some(old(site.nextFolderId)) &&
      FolderFilled(site, sha1, uploads[..], UuidCodec.Hyphenated(made), old(site.nextFolderId),
                   old(site.folders), old(site.files), old(site.blobs), old(site.dirs),
                   folder.Row(), site.folders, site.files, site.blobs, site.dirs)
  {
    HyphenatedPlain(made);
    SortedFits(site, UuidCodec.Hyphenated(made), uploads[..], site.blobs);
    SortUploads(uploads);
    folder, err := FillFolder(uploads, site, sha1, made);
  }

  /** The rest of `add_filefolder`, on the sorted list. */
  method FillFolder(uploads: array<Upload>, site: Site, sha1: string -> string, made: UuidCodec.Uuid)
    returns (folder: FileFolder, err: Option<PyError>)
    requires site.Valid() && PlainName(UuidCodec.Hyphenated(made))
    requires UploadsFit(site, UuidCodec.Hyphenated(made), uploads[..], site.blobs)
    modifies site
    ensures site.Valid()
    ensures fresh(folder)
    ensures err.Some? <==> CaptionTaken(old(site.folders), "", None)
    ensures err.Some? ==>
      err == Some(IntegrityError) && folder.id.None? && site.folders == old(site.folders) &&
      site.files == old(site.files) && site.blobs == old(site.blobs) && site.dirs == old(site.dirs)
    ensures err.None? ==>
      folder.id == Some(old(site.nextFolderId)) &&
      FolderFilled(site, sha1, uploads[..], UuidCodec.Hyphenated(made), old(site.nextFolderId),
                   old(site.folders), old(site.files), old(site.blobs), old(site.dirs),
                   folder.Row(), site.folders, site.files, site.blobs, site.dirs)
  {
    ghost var start := Start(site.folders, site.files, site.blobs, site.dirs, site.log, FolderRow("", "", "", ""));
    ghost var folderUuid := UuidCodec.Hyphenated(made);
    ghost var t := uploads[..];
    folder := new FileFolder(made);
    err := folder.Save(site, sha1, made);
    if err.Some? {
      return;
    }
    var fid := folder.id.value;
    assert fid !in start.folders;
    AddedStart(site, sha1, t, fid, folderUuid, start, folder.Row(), site.folders);
    assert UploadsFit(site, folderUuid, t, start.blobs);
    for i := 0 to uploads.Length
      invariant uploads[..] == t
      invariant AddedUpTo(folder, site, sha1, t, i, fid, folderUuid, start)
    {
      assert uploads[i] == t[i];
      AddOne(uploads[i], folder, site, sha1, made, t, i, fid, folderUuid, start);
    }
    ghost var row1 := folder.Row();
    CaptionTakenIgnoresOwnRow(start.folders, fid, row1, "");
    err := folder.Save(site, sha1, made);
    AddedFinish(site, sha1, t, fid, folderUuid, start, row1, folder.Row(), site.files, site.blobs, site.dirs);
    assert t == uploads[..];
  }
}
