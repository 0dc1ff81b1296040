/** The `Path` value of morphdepot/fshelper.py: a slash-separated path kept as its
    list of non-empty segments. Built from a string, it can be indexed, sliced,
    concatenated and rendered back; every operation that builds a new path goes
    through the string constructor, which raises on the empty string. */
module FsPath {
  import opened Common

  datatype Path = Path(segs: seq<string>)

  /** What the constructor guarantees: no segment is empty or contains a slash. */
  predicate WellFormed(p: Path) {
    forall k :: 0 <= k < |p.segs| ==> p.segs[k] != "" && '/' !in p.segs[k]
  }

  /** `Path(s)`: `s[0]` raises IndexError on the empty string; otherwise one leading
      slash and (for more than one character) one trailing slash are stripped and
      the non-empty pieces between slashes are kept. The stripping never changes
      the outcome: the segments are the non-empty pieces of `s` itself. */
  function FromString(s: string): (r: Result<Path>)
    ensures r.Err? <==> s == ""
    ensures r.Err? ==> r.error == IndexError
    ensures r.Ok? ==> r.value.segs == NonEmpty(Split(s, '/'))
    ensures r.Ok? ==> WellFormed(r.value)
  {
    if s == "" then Err(IndexError)
    else
      var p := if s[0] == '/' then s[1..] else s;
      var q := if |p| > 1 && p[|p| - 1] == '/' then p[..|p| - 1] else p;
      StripIsHarmless(s, p, q);
      Ok(Path(NonEmpty(Split(q, '/'))))
  }

  lemma StripIsHarmless(s: string, p: string, q: string)
    requires s != ""
    requires p == if s[0] == '/' then s[1..] else s
    requires q == if |p| > 1 && p[|p| - 1] == '/' then p[..|p| - 1] else p
    ensures NonEmpty(Split(q, '/')) == NonEmpty(Split(s, '/'))
    ensures WellFormed(Path(NonEmpty(Split(q, '/'))))
  {
    if s[0] == '/' {
      LeadingSlashHarmless(p);
      assert s == "/" + p;
    }
    if |p| > 1 && p[|p| - 1] == '/' {
      TrailingSlashHarmless(q);
      assert p == q + "/";
    }
    SplitPiecesAreSepFree(q, '/');
    NonEmptySepFree(Split(q, '/'));
  }

  /** A leading `/` only adds an empty piece. */
  lemma LeadingSlashHarmless(p: string)
    ensures NonEmpty(Split("/" + p, '/')) == NonEmpty(Split(p, '/'))
  {
    assert "/" + p == [] + ['/'] + p;
    SplitAround([], p, '/');
    NonEmptyAppend([""], Split(p, '/'));
  }

  /** A trailing `/` only adds an empty piece. */
  lemma TrailingSlashHarmless(q: string)
    ensures NonEmpty(Split(q + "/", '/')) == NonEmpty(Split(q, '/'))
  {
    assert q + "/" == q + ['/'] + [];
    SplitAround(q, [], '/');
    NonEmptyAppend(Split(q, '/'), [""]);
  }

  lemma {:induction false} NonEmptySepFree(pieces: seq<string>)
    requires SepFree(pieces, '/')
    ensures SepFree(NonEmpty(pieces), '/')
    decreases |pieces|
  {
    if pieces != [] {
      NonEmptySepFree(pieces[1..]);
    }
  }

  /** `len(p)`: the number of segments. */
  function Len(p: Path): (n: nat)
    ensures WellFormed(p) ==> (n == 0 <==> ToString(p) == "/")
  {
    |p.segs|
  }

  /** `str(p)`: a slash, then the segments joined by slashes. */
  function ToString(p: Path): (r: string)
    ensures |r| >= 1 && r[0] == '/'
    ensures r == "/" <==> (p.segs == [] || p.segs == [""])
  {
    "/" + Join(p.segs, '/')
  }

  lemma JoinEmpty(pieces: seq<string>)
    ensures Join(pieces, '/') == "" <==> (pieces == [] || pieces == [""])
  {
    if |pieces| >= 2 {
      assert |Join(pieces, '/')| >= 1;
    }
  }

  /** Rendering a constructor-built path and parsing it again gives the same
      segments. */
  lemma RoundTrip(p: Path)
    requires WellFormed(p)
    ensures FromString(ToString(p)) == Ok(p)
  {
    var j := Join(p.segs, '/');
    assert ToString(p) == [] + ['/'] + j;
    SplitAround([], j, '/');
    NonEmptyAppend([""], Split(j, '/'));
    if p.segs == [] {
      assert Split(j, '/') == [""];
    } else {
      SplitJoin(p.segs, '/');
      NonEmptyOfNonEmpty(p.segs);
    }
  }

  /** `p[i]` for an integer: a one-segment path built from the string of the
      selected segment; an index out of range raises IndexError. */
  function Index(p: Path, i: int): (r: Result<Path>)
    ensures PyIndex(i, |p.segs|).None? ==> r == Err(IndexError)
    ensures r.Err? ==> r.error == IndexError
    ensures r.Ok? ==> WellFormed(r.value)
  {
    var k := PyIndex(i, |p.segs|);
    if k.None? then Err(IndexError) else FromString(Join([p.segs[k.value]], '/'))
  }

  /** `p[lo:hi]`: a path built from the string of the selected segments. */
  function Slice(p: Path, lo: Option<int>, hi: Option<int>): (r: Result<Path>)
    ensures PySlice(p.segs, lo, hi) == [] ==> r == Err(IndexError)
    ensures r.Err? ==> r.error == IndexError
    ensures r.Ok? ==> WellFormed(r.value)
  {
    FromString(Join(PySlice(p.segs, lo, hi), '/'))
  }

  /** `p + other`: the segments of both, by way of the joined string. `other` is
      whatever `str(other)` gives, so a `Path` operand enters as `ToString(b)`. */
  function Add(p: Path, other: string): (r: Result<Path>)
    ensures other == "" ==> r == Err(IndexError)
    ensures r.Err? ==> r.error == IndexError
    ensures r.Ok? ==> WellFormed(r.value)
  {
    var o := FromString(other);
    if o.Err? then Err(o.error) else FromString(Join(p.segs + o.value.segs, '/'))
  }

  /** `p[i] = v`: replace one segment in place (used by the file name setter). */
  function SetItem(p: Path, i: int, v: string): (r: Result<Path>)
    ensures r.Ok? <==> PyIndex(i, |p.segs|).Some?
    ensures r.Err? ==> r.error == IndexError
    ensures r.Ok? ==> |r.value.segs| == |p.segs| && r.value.segs[PyIndex(i, |p.segs|).value] == v
    ensures r.Ok? ==> forall j :: 0 <= j < |p.segs| && j != PyIndex(i, |p.segs|).value ==> r.value.segs[j] == p.segs[j]
  {
    var k := PyIndex(i, |p.segs|);
    if k.None? then Err(IndexError) else Ok(Path(p.segs[k.value := v]))
  }

  /** A join of separator-free strings, parsed again, keeps exactly the non-empty
      ones, and fails exactly when the join is empty. */
  lemma ParseJoin(sel: seq<string>)
    requires SepFree(sel, '/')
    ensures FromString(Join(sel, '/')).Err? <==> (sel == [] || sel == [""])
    ensures FromString(Join(sel, '/')).Ok? ==> FromString(Join(sel, '/')).value.segs == NonEmpty(sel)
  {
    JoinEmpty(sel);
    if sel != [] {
      SplitJoin(sel, '/');
    }
  }

  /** Indexing a constructor-built path: in range it gives that one segment, out
      of range it raises. */
  lemma IndexLaw(p: Path, i: int)
    requires WellFormed(p)
    ensures Index(p, i).Ok? <==> -(|p.segs| as int) <= i < |p.segs|
    ensures Index(p, i).Ok? ==> Index(p, i).value.segs == [p.segs[PyIndex(i, |p.segs|).value]]
  {
    var k := PyIndex(i, |p.segs|);
    if k.Some? {
      var sel := [p.segs[k.value]];
      ParseJoin(sel);
      NonEmptyOfNonEmpty(sel);
    }
  }

  /** Slicing a constructor-built path: it succeeds exactly when the selection is
      non-empty, and then holds exactly the selected segments. */
  lemma SliceLaw(p: Path, lo: Option<int>, hi: Option<int>)
    requires WellFormed(p)
    ensures Slice(p, lo, hi).Ok? <==> PySlice(p.segs, lo, hi) != []
    ensures Slice(p, lo, hi).Ok? ==> Slice(p, lo, hi).value.segs == PySlice(p.segs, lo, hi)
  {
    var sel := PySlice(p.segs, lo, hi);
    assert forall k :: 0 <= k < |sel| ==> sel[k] in p.segs;
    ParseJoin(sel);
    NonEmptyOfNonEmpty(sel);
  }

  /** `p[1:]` of a one-segment path selects nothing and so raises: the reason
      `resolve` replaces that tail by `Path('/')`. */
  lemma TailOfSingleFails(p: Path)
    requires WellFormed(p) && Len(p) == 1
    ensures Slice(p, Some(1), None).Err?
  {
    SliceLaw(p, Some(1), None);
  }

  /** `a + b` for constructor-built paths: the segments of `a` then those of `b`,
      so the lengths add; it raises only when both are the root. */
  lemma AddLaw(a: Path, b: Path)
    requires WellFormed(a) && WellFormed(b)
    ensures Add(a, ToString(b)).Ok? <==> Len(a) + Len(b) > 0
    ensures Add(a, ToString(b)).Ok? ==>
      Add(a, ToString(b)).value.segs == a.segs + b.segs &&
      Len(Add(a, ToString(b)).value) == Len(a) + Len(b)
  {
    RoundTrip(b);
    var sel := a.segs + b.segs;
    assert forall k :: 0 <= k < |sel| ==> sel[k] != "" && '/' !in sel[k] by {
      forall k | 0 <= k < |sel| ensures sel[k] != "" && '/' !in sel[k] {
        if k < |a.segs| { assert sel[k] == a.segs[k]; } else { assert sel[k] == b.segs[k - |a.segs|]; }
      }
    }
    ParseJoin(sel);
    NonEmptyOfNonEmpty(sel);
  }
}
