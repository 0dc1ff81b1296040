/** `RootDir` of morphdepot/fsmapping.py: the fixed top directory of the MorphDepot
    file system, listing three named entries besides `.` and `..`. */
module RootDirectory {
  import opened Common
  import opened FsPath
  import opened FileMode
  import FuseNode
  import FileStat

  /** The names `RootDir.list()` returns, as bare `Direntry` objects, in order. */
  const ROOT_ENTRIES: seq<string> := [".", "..", "scientists", "experiments", "options"]

  /** The two kinds of value compared in `resolve`: a Python string and a `Path`
      object. `Path` defines no `__eq__`, so a path never equals a string. */
  datatype PyValue = PyStr(s: string) | PyPath(p: Path)

  predicate PyEq(a: PyValue, b: PyValue) {
    match (a, b)
    case (PyStr(x), PyStr(y)) => x == y
    case (PyPath(_), PyPath(_)) => a == b
    case _ => false
  }

  /** What `RootDir.resolve` returns: the root itself, one listed entry, None, or
      the exception raised. */
  datatype RootResolved = Root | Entry(name: string) | NoResult | Raised(error: PyError)

  /** The entries whose name equals `v` under Python's `==`. */
  function Named(entries: seq<string>, v: PyValue): (r: seq<string>)
    ensures forall x :: x in r ==> x in entries && PyEq(PyStr(x), v)
    ensures forall x :: x in entries && PyEq(PyStr(x), v) ==> x in r
    ensures (forall x :: x in entries ==> !PyEq(PyStr(x), v)) ==> r == []
  {
    if entries == [] then []
    else (if PyEq(PyStr(entries[0]), v) then [entries[0]] else []) + Named(entries[1..], v)
  }

  /** `RootDir.resolve(path)` as written: the first segment is taken as `p[0]`, which
      is a `Path`, and compared with the entry names. */
  function Resolve(s: string): (r: RootResolved)
    ensures s == "" ==> r == Raised(IndexError)
    ensures r.Raised? ==> r.error == IndexError
    ensures r.Entry? ==> r.name in ROOT_ENTRIES
  {
    var p := FromString(s);
    if p.Err? then Raised(p.error)
    else if |p.value.segs| == 0 then Root
    else
      var first := Index(p.value, 0);
      if first.Err? then Raised(first.error)
      else
        var found := Named(ROOT_ENTRIES, PyPath(first.value));
        if |found| == 1 then Entry(found[0]) else NoResult
  }

  /** As written, no path below the root matches: the result is the root for a path
      without segments and None for every other non-empty string. */
  lemma ResolveNeverMatches(s: string)
    ensures s == "" ==> Resolve(s) == Raised(IndexError)
    ensures s != "" && FromString(s).value.segs == [] ==> Resolve(s) == Root
    ensures s != "" && FromString(s).value.segs != [] ==> Resolve(s) == NoResult
  {
    if s != "" && FromString(s).value.segs != [] {
      IndexLaw(FromString(s).value, 0);
      var found := Named(ROOT_ENTRIES, PyPath(Index(FromString(s).value, 0).value));
      assert found == [];
    }
  }

  /** The intended `resolve`: the first segment as a string (`list(p)[0]`, as
      `FuseFile.resolve` does). */
  function FixedResolve(s: string): (r: RootResolved)
    ensures r.Raised? <==> s == ""
    ensures r.Raised? ==> r.error == IndexError
    ensures r.Entry? ==> s != "" && |FromString(s).value.segs| >= 1 && r.name == FromString(s).value.segs[0]
    ensures r.Entry? ==> r.name in ROOT_ENTRIES
  {
    var p := FromString(s);
    if p.Err? then Raised(p.error)
    else if |p.value.segs| == 0 then Root
    else
      var found := Named(ROOT_ENTRIES, PyStr(p.value.segs[0]));
      if |found| == 1 then
        assert found[0] in found;
        Entry(found[0])
      else NoResult
  }

  /** The listed names are distinct. */
  lemma EntriesDistinct()
    ensures forall i, j :: 0 <= i < j < |ROOT_ENTRIES| ==> ROOT_ENTRIES[i] != ROOT_ENTRIES[j]
  {
  }

  lemma {:induction false} NamedOfDistinct(entries: seq<string>, k: nat)
    requires forall i, j :: 0 <= i < j < |entries| ==> entries[i] != entries[j]
    requires k < |entries|
    ensures Named(entries, PyStr(entries[k])) == [entries[k]]
    decreases |entries|
  {
    if k == 0 {
      if entries[1..] != [] {
        var rest := Named(entries[1..], PyStr(entries[0]));
        assert rest == [];
      } 
    } else {
      NamedOfDistinct(entries[1..], k - 1);
    }
  }

  /** The fixed `resolve` never descends below the root: it gives the root for a
      path without segments; otherwise the entry named by the first segment when
      there is one, and None when there is none. */
  lemma FixedResolveLaw(s: string)
    requires s != ""
    ensures FromString(s).value.segs == [] ==> FixedResolve(s) == Root
    ensures FromString(s).value.segs != [] && FromString(s).value.segs[0] in ROOT_ENTRIES ==>
      FixedResolve(s) == Entry(FromString(s).value.segs[0])
    ensures FromString(s).value.segs != [] && FromString(s).value.segs[0] !in ROOT_ENTRIES ==>
      FixedResolve(s) == NoResult
  {
    var segs := FromString(s).value.segs;
    if segs != [] {
      var k :| 0 <= k < |ROOT_ENTRIES| && (segs[0] in ROOT_ENTRIES ==> ROOT_ENTRIES[k] == segs[0]);
      if segs[0] in ROOT_ENTRIES {
        EntriesDistinct();
        NamedOfDistinct(ROOT_ENTRIES, k);
      } else {
        var found := Named(ROOT_ENTRIES, PyStr(segs[0]));
        assert found == [];
      }
    }
  }

  /** With the fix, each listed name is reached through its own path. */
  lemma FixedResolvesEntries(name: string)
    requires name in ROOT_ENTRIES[2..]
    ensures FixedResolve("/" + name) == Entry(name)
  {
    assert name == "scientists" || name == "experiments" || name == "options";
    SegmentOf(name);
    FixedResolveLaw("/" + name);
  }

  /** And the root through `/`. */
  lemma FixedResolvesRoot()
    ensures FixedResolve("/") == Root
  {
    assert "/"[1..] == "";
    assert Split("/", '/') == ["", ""];
    FixedResolveLaw("/");
  }

  lemma SegmentOf(name: string)
    requires name != "" && '/' !in name
    ensures FromString("/" + name) == Ok(Path([name]))
  {
    assert WellFormed(Path([name]));
    RoundTrip(Path([name]));
    assert ToString(Path([name])) == "/" + name;
  }

  /** What `RootDir` lists, as the node's listing. */
  const ROOT_LISTING: FuseNode.Listing :=
    FuseNode.Entries([FuseNode.Plain("."), FuseNode.Plain(".."), FuseNode.Plain("scientists"), FuseNode.Plain("experiments"), FuseNode.Plain("options")])

  /** `RootDir()` as written: `FuseNode.FuseFile.__init__("/", "/")` hands "/" to the `mode`
      setter, whose `int("/")` raises ValueError, so no root is ever built. */
  method NewRoot() returns (f: FuseNode.FuseFile?, err: Option<PyError>)
    ensures f == null && err == Some(ValueError)
  {
    FuseNode.IntOfInputLaw(0, "/");
    f, err := FuseNode.FuseFile.Create("/", FuseNode.Text("/"), 0, 0, ROOT_LISTING, FuseNode.NoRead);
  }

  /** The root the constructor evidently means: a directory (0o040755), owned by
      root, at `/`. */
  const FIXED_ROOT: FuseNode.Node := FuseNode.Node(Path([]), 0x41ED, 0, 0, ROOT_LISTING, FuseNode.NoRead)

  /** `RootDir()` with a directory mode in place of "/". */
  method NewFixedRoot() returns (f: FuseNode.FuseFile)
    ensures fresh(f) && f.Snapshot() == FIXED_ROOT
  {
    FuseNode.RootHasNoSegments();
    var made, err := FuseNode.FuseFile.Create("/", FuseNode.Num(0x41ED), 0, 0, ROOT_LISTING, FuseNode.NoRead);
    f := made;
  }

  /** The fixed root is a directory at `/` named "/", of size `FuseNode.DIRSIZE`, listing the
      root entries; and `getattr` reports exactly that mode and size. */
  lemma FixedRootShape(processUid: int, processGid: int, now: FileStat.Time)
    ensures IsDir(FIXED_ROOT.mode) && FuseNode.Name(FIXED_ROOT) == "/" && FuseNode.Len(FIXED_ROOT) == FuseNode.DIRSIZE
    ensures FuseNode.List(FIXED_ROOT) == FuseNode.Listed(ROOT_LISTING.entries)
    ensures forall i :: 0 <= i < |ROOT_ENTRIES| ==> FuseNode.EntryName(FuseNode.List(FIXED_ROOT).entries[i]) == ROOT_ENTRIES[i]
    ensures FuseNode.Getattr(FIXED_ROOT, processUid, processGid, now).mode == 0x41ED
    ensures FuseNode.Getattr(FIXED_ROOT, processUid, processGid, now).size == FuseNode.DIRSIZE
  {
  }
}
