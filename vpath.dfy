/** The `VPath` value and the `VFile` stub of morphdepot/virtfile.py. Unlike `Path`,
    a `VPath` keeps empty segments, strips a trailing slash whatever the length,
    and raises on both "" and "/". */
module VirtualPath {
  import opened Common

  datatype VPath = VPath(segs: seq<string>)

  /** The text left after the optional leading slash and the optional trailing one
      (when the string has at least two characters, or does not start with one). */
  function LeadingSlash(s: string): string {
    if s != "" && s[0] == '/' then "/" else ""
  }

  function TrailingSlash(s: string): string {
    if |s| >= 2 && s[|s| - 1] == '/' then "/" else ""
  }

  /** `VPath(s)`: `p[0]` raises IndexError on "", then, with one leading slash
      removed, `p[-1]` raises on what is left of "/"; a trailing slash is removed
      and the rest is split at every slash, keeping empty pieces. */
  function FromString(s: string): (r: Result<VPath>)
    ensures r.Err? <==> s == "" || s == "/"
    ensures r.Err? ==> r.error == IndexError
    ensures r.Ok? ==> |r.value.segs| >= 1 && SepFree(r.value.segs, '/')
    ensures r.Ok? ==> s == LeadingSlash(s) + Join(r.value.segs, '/') + TrailingSlash(s)
  {
    if s == "" then Err(IndexError)
    else
      var p := if s[0] == '/' then s[1..] else s;
      if p == "" then Err(IndexError)
      else
        var q := if p[|p| - 1] == '/' then p[..|p| - 1] else p;
        SplitPiecesAreSepFree(q, '/');
        JoinSplit(q, '/');
        assert s == LeadingSlash(s) + q + TrailingSlash(s);
        Ok(VPath(Split(q, '/')))
  }

  /** `len(v)`: the number of segments, empty ones included. An integer index
      succeeds only in the range `-len(v) <= i < len(v)`. */
  function Len(v: VPath): (r: nat)
    ensures r == 0 <==> v.segs == []
    ensures forall i :: Index(v, i).Ok? ==> -(r as int) <= i < r
  {
    |v.segs|
  }

  /** A parsed path has one segment more than its text has slashes, not counting
      the leading and the trailing slash `VPath` strips. */
  lemma LenOfParsed(s: string)
    requires FromString(s).Ok?
    ensures Len(FromString(s).value) >= 1
    ensures Len(FromString(s).value) == 1 + multiset(s)['/'] - |LeadingSlash(s)| - |TrailingSlash(s)|
  {
    var j := Join(FromString(s).value.segs, '/');
    assert s == LeadingSlash(s) + j + TrailingSlash(s);
    assert multiset(s) == multiset(LeadingSlash(s)) + multiset(j) + multiset(TrailingSlash(s));
    assert multiset(LeadingSlash(s))['/'] == |LeadingSlash(s)|;
    assert multiset(TrailingSlash(s))['/'] == |TrailingSlash(s)|;
    SplitJoin(FromString(s).value.segs, '/');
    SplitLength(j, '/');
  }

  /** `str(v)`: a slash, then the segments joined by slashes. */
  function ToString(v: VPath): (r: string)
    ensures |r| >= 1 && r[0] == '/'
  {
    "/" + Join(v.segs, '/')
  }

  /** `a//b` keeps its empty middle segment: three segments. */
  lemma EmptySegmentKept()
    ensures FromString("a//b") == Ok(VPath(["a", "", "b"]))
  {
    assert "a//b"[1..] == "//b" && "//b"[1..] == "/b" && "/b"[1..] == "b";
    SplitSepFree("b", '/');
    assert Split("/b", '/') == ["", "b"];
    assert Split("//b", '/') == ["", "", "b"];
    var rest := Split("//b", '/');
    assert rest[0] == "" && rest[1..] == ["", "b"];
    assert ['a'] + rest[0] == "a";
    assert Split("a//b", '/') == ["a", "", "b"];
  }

  lemma {:induction false} JoinLastChar(segs: seq<string>)
    requires |segs| >= 1 && segs[|segs| - 1] != ""
    ensures |Join(segs, '/')| >= 1
    ensures Join(segs, '/')[|Join(segs, '/')| - 1] == segs[|segs| - 1][|segs[|segs| - 1]| - 1]
    decreases |segs|
  {
    if |segs| > 1 {
      JoinLastChar(segs[1..]);
    }
  }

  /** Parsing the rendering gives the path back when its last segment is not empty
      (a hollow last segment would leave a trailing slash, which is stripped). */
  lemma RoundTrip(v: VPath)
    requires |v.segs| >= 1 && SepFree(v.segs, '/')
    requires v.segs[|v.segs| - 1] != ""
    ensures FromString(ToString(v)) == Ok(v)
  {
    var j := Join(v.segs, '/');
    JoinLastChar(v.segs);
    var last := v.segs[|v.segs| - 1];
    assert last[|last| - 1] in last;
    assert j[|j| - 1] != '/';
    var s := ToString(v);
    assert s[1..] == j;
    SplitJoin(v.segs, '/');
  }

  /** The round trip is lost for a path whose last segment is empty. */
  lemma RoundTripLostOnEmptyLast()
    ensures FromString(ToString(VPath(["a", ""]))) == Ok(VPath(["a"]))
  {
    assert Join(["a", ""], '/') == "a/";
    assert ToString(VPath(["a", ""])) == "/a/";
    assert "/a/"[1..] == "a/" && "a/"[..1] == "a";
    SplitSepFree("a", '/');
  }

  /** `v[i]` for an integer: the one selected segment, reparsed; an index out of
      range raises IndexError. */
  function Index(v: VPath, i: int): (r: Result<VPath>)
    ensures PyIndex(i, |v.segs|).None? ==> r == Err(IndexError)
    ensures r.Err? ==> r.error == IndexError
    ensures r.Ok? ==> |r.value.segs| >= 1 && SepFree(r.value.segs, '/')
  {
    var k := PyIndex(i, |v.segs|);
    if k.None? then Err(IndexError) else FromString(Join([v.segs[k.value]], '/'))
  }

  /** `v[lo:hi]`: the selected segments, joined and reparsed. */
  function Slice(v: VPath, lo: Option<int>, hi: Option<int>): (r: Result<VPath>)
    ensures r.Err? ==> r.error == IndexError
    ensures r.Ok? ==> |r.value.segs| >= 1 && SepFree(r.value.segs, '/')
  {
    FromString(Join(PySlice(v.segs, lo, hi), '/'))
  }

  /** An integer index selecting a non-empty segment gives a one-segment path
      holding it. */
  lemma IndexLaw(v: VPath, i: int)
    requires SepFree(v.segs, '/')
    requires PyIndex(i, |v.segs|).Some? && v.segs[PyIndex(i, |v.segs|).value] != ""
    ensures Index(v, i) == Ok(VPath([v.segs[PyIndex(i, |v.segs|).value]]))
  {
    var seg := v.segs[PyIndex(i, |v.segs|).value];
    assert seg in v.segs;
    SplitSepFree(seg, '/');
    assert seg[0] in seg && seg[|seg| - 1] in seg;
  }

  /** A selection that starts and ends with a non-empty segment comes back as the
      sliced path's segments, with the empty ones between kept. */
  lemma SliceLaw(v: VPath, lo: Option<int>, hi: Option<int>)
    requires SepFree(v.segs, '/')
    requires PySlice(v.segs, lo, hi) != []
    requires PySlice(v.segs, lo, hi)[0] != "" && PySlice(v.segs, lo, hi)[|PySlice(v.segs, lo, hi)| - 1] != ""
    ensures Slice(v, lo, hi) == Ok(VPath(PySlice(v.segs, lo, hi)))
  {
    var sel := PySlice(v.segs, lo, hi);
    assert SepFree(sel, '/') by {
      forall k | 0 <= k < |sel| ensures '/' !in sel[k] {
        assert sel[k] in v.segs;
      }
    }
    var j := Join(sel, '/');
    JoinLastChar(sel);
    var last := sel[|sel| - 1];
    assert last[|last| - 1] in last;
    assert j[0] == sel[0][0] by {
      if |sel| > 1 {
        assert j == sel[0] + (['/'] + Join(sel[1..], '/'));
      }
    }
    assert sel[0][0] in sel[0];
    SplitJoin(sel, '/');
  }

  /** An empty selection, or one holding only an empty segment, raises. */
  lemma EmptySelectionFails(v: VPath, lo: Option<int>, hi: Option<int>)
    requires PySlice(v.segs, lo, hi) == [] || PySlice(v.segs, lo, hi) == [""]
    ensures Slice(v, lo, hi) == Err(IndexError)
  {
  }

  /** `VFile.readlink`: no virtual file is a symlink; the call is unsupported. */
  function Readlink(): (r: int)
    ensures r < 0 && -r == EOPNOTSUPP
  {
    -EOPNOTSUPP
  }
}
