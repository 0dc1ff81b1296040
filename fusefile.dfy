/** `FuseFile` of morphdepot/fshelper.py: a node of the virtual file system with a
    path, a mode and an owner, whose children are whatever its `list()` returns.
    A subclass overrides `list()` and `read()`; a node here carries what those
    return, so the tree a `resolve` walks is a value (`Node`), and the object whose
    properties are assigned is the class `FuseFile`. */
module FuseNode {
  import opened Common
  import opened FsPath
  import opened FileMode
  import opened FileStat

  /** What `list()` returns: the base behaviour, or the entries of an overriding
      subclass. */
  datatype Listing = DefaultListing | Entries(entries: seq<Entry>)

  /** One listed entry: a bare `fuse.Direntry` (a name, no methods of its own) or
      another node. */
  datatype Entry = Plain(name: string) | Sub(node: Node)

  /** What `read()` returns: the base `-EOPNOTSUPP`, or an overriding subclass's data. */
  datatype Content = NoRead | Bytes(data: string)

  datatype Node = Node(path: Path, mode: Bits, uid: int, gid: int, listing: Listing, content: Content)

  /** The result of `list()`: entries, or the integer `-EOPNOTSUPP`. */
  datatype Listed = Listed(entries: seq<Entry>) | Unsupported

  /** The result of `resolve`: a node, None, or the exception raised on the way. */
  datatype Resolved = Found(node: Node) | NotFound | Raised(error: PyError)

  /** A directory's size, `FuseFile.DIRSIZE`. */
  const DIRSIZE: int := 4096

  /** The `name` property: "/" for the root, the last segment otherwise. */
  function Name(n: Node): (r: string)
    ensures |n.path.segs| == 0 ==> r == "/"
    ensures |n.path.segs| > 0 ==> r == n.path.segs[|n.path.segs| - 1]
  {
    if |n.path.segs| < 1 then "/" else n.path.segs[|n.path.segs| - 1]
  }

  /** On a constructor-built path the name is "/" exactly for the root. */
  lemma NameIsSlashOnlyAtRoot(n: Node)
    requires WellFormed(n.path)
    ensures Name(n) == "/" <==> |n.path.segs| == 0
  {
    if |n.path.segs| > 0 {
      var last := n.path.segs[|n.path.segs| - 1];
      assert last[0] in last;
    }
  }

  /** The `name` a listed entry is matched by. */
  function EntryName(e: Entry): string {
    match e
    case Plain(name) => name
    case Sub(node) => Name(node)
  }

  /** `list()`: the base class lists `.` and `..` for a directory and returns
      `-EOPNOTSUPP` for anything else. */
  function List(n: Node): (r: Listed)
    ensures r.Listed? <==> (n.listing.Entries? || IsDir(n.mode))
    ensures n.listing.Entries? ==> r == Listed(n.listing.entries)
    ensures n.listing.DefaultListing? && IsDir(n.mode) ==> r == Listed([Plain("."), Plain("..")])
    ensures r.Listed? && n.listing.DefaultListing? ==> forall e :: e in r.entries ==> e.Plain?
  {
    match n.listing
    case Entries(entries) => Listed(entries)
    case DefaultListing => if IsDir(n.mode) then Listed([Plain("."), Plain("..")]) else Unsupported
  }

  /** `[f for f in entries if f.name == name]`. */
  function Matching(entries: seq<Entry>, name: string): (r: seq<Entry>)
    ensures forall e :: e in r ==> e in entries && EntryName(e) == name
    ensures forall e :: e in entries && EntryName(e) == name ==> e in r
  {
    if entries == [] then []
    else (if EntryName(entries[0]) == name then [entries[0]] else []) + Matching(entries[1..], name)
  }

  /** `resolve(path)`: parse `str(path)`; no segment left means this node; otherwise
      the one listed entry named like the first segment resolves the rest (`Path('/')`
      when nothing is left, since `p[1:]` of one segment would raise). No match or
      several give None. Iterating an unsupported listing raises TypeError, and a
      bare `Direntry` has no `resolve`. */
  function Resolve(n: Node, s: string): (r: Resolved)
    ensures s == "" ==> r == Raised(IndexError)
    ensures s != "" && FromString(s).value.segs == [] ==> r == Found(n)
    ensures r.Raised? ==> r.error == IndexError || r.error == TypeError || r.error == AttributeError
    decreases n
  {
    var p := FromString(s);
    if p.Err? then Raised(p.error)
    else if |p.value.segs| == 0 then Found(n)
    else
      var listed := List(n);
      if listed.Unsupported? then Raised(TypeError)
      else
        var found := Matching(listed.entries, p.value.segs[0]);
        if |found| != 1 then NotFound
        else
          var rest := if |p.value.segs| == 1 then FromString("/") else Slice(p.value, Some(1), None);
          if rest.Err? then Raised(rest.error)
          else
            match found[0]
            case Plain(_) => Raised(AttributeError)
            case Sub(child) =>
              assert found[0] in found;
                  assert n.listing.Entries? && found[0] in n.listing.entries;
              Resolve(child, ToString(rest.value))
  }

  /** The walk `resolve` performs, written on the segment list: descend through the
      unique entry named by each segment in turn. */
  function Walk(n: Node, segs: seq<string>): Resolved
    decreases n
  {
    if segs == [] then Found(n)
    else
      var listed := List(n);
      if listed.Unsupported? then Raised(TypeError)
      else
        var found := Matching(listed.entries, segs[0]);
        if |found| != 1 then NotFound
        else
          match found[0]
          case Plain(_) => Raised(AttributeError)
          case Sub(child) =>
            assert n.listing.Entries? && found[0] in n.listing.entries;
            Walk(child, segs[1..])
  }

  lemma RootHasNoSegments()
    ensures FromString("/") == Ok(Path([]))
  {
    assert Split("/", '/') == ["", ""] by {
      assert "/"[1..] == "";
    }
  }

  /** `resolve(s)` walks the segments of `Path(s)`; only the empty string raises
      before the walk. */
  lemma {:induction false} ResolveIsWalk(n: Node, s: string)
    requires s != ""
    ensures Resolve(n, s) == Walk(n, FromString(s).value.segs)
    decreases n
  {
    var p := FromString(s).value;
    if |p.segs| > 0 {
      var listed := List(n);
      if listed.Listed? {
        var found := Matching(listed.entries, p.segs[0]);
        if |found| == 1 {
          var rest: Path;
          if |p.segs| == 1 {
            RootHasNoSegments();
            rest := Path([]);
          } else {
            SliceLaw(p, Some(1), None);
            rest := Slice(p, Some(1), None).value;
          }
          assert rest.segs == p.segs[1..];
          if found[0].Sub? {
            assert found[0] in found;
            assert found[0] in listed.entries;
            assert n.listing.Entries? && found[0] in n.listing.entries;
            var child := found[0].node;
            ResolveIsWalk(child, ToString(rest));
            RoundTrip(rest);
            assert Walk(n, p.segs) == Walk(child, p.segs[1..]);
            assert Resolve(n, s) == Resolve(child, ToString(rest));
          } else {
            assert Walk(n, p.segs) == Raised(AttributeError);
            assert Resolve(n, s) == Raised(AttributeError);
          }
        } else {
          assert Walk(n, p.segs) == NotFound;
          assert Resolve(n, s) == NotFound;
        }
      } else {
        assert Walk(n, p.segs) == Raised(TypeError);
        assert Resolve(n, s) == Raised(TypeError);
      }
    }
  }

  /** A path with no segments resolves to the node itself. */
  lemma ResolveEmpty(n: Node, s: string)
    requires s != "" && FromString(s).value.segs == []
    ensures Resolve(n, s) == Found(n)
  {
  }

  /** One step: when exactly one listed entry is named like the first segment and
      it is a node, resolving the path is resolving the rest of it from there. */
  lemma ResolveStep(n: Node, segs: seq<string>, child: Node)
    requires WellFormed(Path(segs)) && |segs| >= 1
    requires List(n).Listed? && Matching(List(n).entries, segs[0]) == [Sub(child)]
    ensures Resolve(n, ToString(Path(segs))) == Resolve(child, ToString(Path(segs[1..])))
  {
    RoundTrip(Path(segs));
    assert WellFormed(Path(segs[1..]));
    RoundTrip(Path(segs[1..]));
    ResolveIsWalk(n, ToString(Path(segs)));
    ResolveIsWalk(child, ToString(Path(segs[1..])));
  }

  /** No match, or several, gives None. */
  lemma ResolveNotUnique(n: Node, segs: seq<string>)
    requires WellFormed(Path(segs)) && |segs| >= 1
    requires List(n).Listed? && |Matching(List(n).entries, segs[0])| != 1
    ensures Resolve(n, ToString(Path(segs))) == NotFound
  {
    RoundTrip(Path(segs));
  }

  /** The node reached by a walk is named like the last segment walked. */
  lemma {:induction false} WalkFoundName(n: Node, segs: seq<string>)
    requires |segs| >= 1 && Walk(n, segs).Found?
    ensures Name(Walk(n, segs).node) == segs[|segs| - 1]
    decreases n
  {
    var found := Matching(List(n).entries, segs[0]);
    assert found[0] in found;
    var child := found[0].node;
    assert n.listing.Entries? && found[0] in n.listing.entries;
    if |segs| > 1 {
      WalkFoundName(child, segs[1..]);
    }
  }

  /** So a node found by `resolve` is named like the last segment of the path. */
  lemma ResolvedName(n: Node, s: string)
    requires s != "" && |FromString(s).value.segs| >= 1 && Resolve(n, s).Found?
    ensures Name(Resolve(n, s).node) == FromString(s).value.segs[|FromString(s).value.segs| - 1]
  {
    ResolveIsWalk(n, s);
    WalkFoundName(n, FromString(s).value.segs);
  }

  /** `len(f)`: 4096 for a directory, else the length of what `read()` returns, or
      0 when it is `-EOPNOTSUPP`. */
  function Len(n: Node): (r: int)
    ensures r >= 0
    ensures IsDir(n.mode) ==> r == DIRSIZE
    ensures !IsDir(n.mode) && n.content.NoRead? ==> r == 0
    ensures !IsDir(n.mode) && n.content.Bytes? ==> r == |n.content.data|
  {
    if IsDir(n.mode) then DIRSIZE
    else match n.content
      case NoRead => 0
      case Bytes(data) => |data|
  }

  /** `getattr()`: `Stat(st_mode=int(mode), st_size=len(self), st_gid=gid,
      st_uid=uid)`, the rest defaulted. */
  function Getattr(n: Node, processUid: int, processGid: int, now: Time): (r: Stat)
    ensures r.mode == n.mode && r.size == Len(n)
    ensures r.uid == n.uid && r.gid == n.gid && r.nlink == 1
    ensures r.atime == now && r.mtime == now && r.ctime == now
  {
    MakeStat(n.mode, Len(n), None, Some(n.uid), Some(n.gid), None, None, None, processUid, processGid, now)
  }

  /** `access(flags)`: every access is allowed. */
  function Access(n: Node, flags: int): (r: int)
    ensures r == 0
  {
    0
  }

  /** What the `mode` setter is given: a number (as its low 32 bits, which hold
      every mask the node tests), a `Mode` object, or a string. */
  datatype ModeInput = Num(n: Bits) | Held(m: ModeArg) | Text(s: string)

  /** The constructor's default `mode=0755`. */
  const DEFAULT_NODE_MODE: ModeInput := Num(0x1ED)

  /** The low 32 bits of a Python integer, two's complement for a negative one. */
  function LowBits(n: int): Bits {
    (n % 0x1_0000_0000) as Bits
  }

  /** `int(mode)`, as the bits kept: a number is itself, a `Mode` object answers
      its `__int__` (a held string is not an integer, so TypeError), a string is
      parsed as a decimal integer. */
  function IntOfInput(x: ModeInput): (r: Result<Bits>)
    ensures x.Held? ==> (r.Ok? <==> x.m.Number?) && (r.Ok? ==> r.value == x.m.n)
    ensures x.Text? ==> (r.Ok? <==> ParseInt(x.s).Ok?)
    ensures r.Err? ==> (x.Held? && r.error == TypeError) || (x.Text? && r.error == ValueError)
  {
    match x
    case Num(n) => Ok(n)
    case Held(m) => IntOf(m)
    case Text(s) => (match ParseInt(s) case Ok(v) => Ok(LowBits(v)) case Err(e) => Err(e))
  }

  /** A number, and a `Mode` holding one, keep their value; a string that is not a
      decimal integer, such as "/" or a mode string like "drwxr-xr-x", raises
      ValueError. */
  lemma IntOfInputLaw(b: Bits, s: string)
    ensures IntOfInput(Num(b)) == Ok(b) && IntOfInput(Held(Number(b))) == Ok(b)
    ensures (forall k :: 0 <= k < |s| ==> !IsDigit(s[k])) ==> IntOfInput(Text(s)) == Err(ValueError)
    ensures IntOfInput(Text("/")) == Err(ValueError) && IntOfInput(Text("drwxr-xr-x")) == Err(ValueError)
  {
    if forall k :: 0 <= k < |s| ==> !IsDigit(s[k]) {
      ParseIntNeedsDigit(s);
    }
    ParseIntNeedsDigit("/");
    ParseIntNeedsDigit("drwxr-xr-x");
  }

  /** A decimal string sets the low bits of the number it spells, and a sign or
      surrounding whitespace does not stop it. */
  lemma IntOfDecimalText(w1: string, d: string, w2: string)
    requires AllSpaces(w1) && AllSpaces(w2)
    requires |d| >= 1 && forall k :: 0 <= k < |d| ==> IsDigit(d[k])
    ensures IntOfInput(Text(d)) == Ok(LowBits(DigitsValue(d)))
    ensures IntOfInput(Text(w1 + (d + w2))) == Ok(LowBits(DigitsValue(d)))
  {
    ParseIntDigits(d);
    ParseIntUnsigned(w1, d, w2);
  }

  /** The node object, whose properties are assigned in place. */
  class FuseFile {
    var path: Path
    var mode: Bits
    var uid: int
    var gid: int
    var listing: Listing
    var content: Content

    /** The node as `resolve`, `len` and `getattr` see it now. */
    function Snapshot(): Node
      reads this
    {
      Node(path, mode, uid, gid, listing, content)
    }

    /** The fields as `__init__` leaves them once both setters have succeeded: the
        parsed path and `int(mode)`. */
    constructor (path: Path, mode: Bits, uid: int, gid: int, listing: Listing, content: Content)
      ensures Snapshot() == Node(path, mode, uid, gid, listing, content)
    {
      this.path := path;
      this.mode := mode;
      this.uid := uid;
      this.gid := gid;
      this.listing := listing;
      this.content := content;
    }

    /** `FuseFile(path, mode, uid, gid)`: the `path` setter runs first, so "" raises
        IndexError before the mode is looked at; then `int(mode)` may raise. No
        object is returned when either raises. */
    static method Create(path: string, mode: ModeInput, uid: int, gid: int, listing: Listing, content: Content)
      returns (f: FuseFile?, err: Option<PyError>)
      ensures f == null <==> err.Some?
      ensures path == "" ==> err == Some(IndexError)
      ensures path != "" && IntOfInput(mode).Err? ==> err == Some(IntOfInput(mode).error)
      ensures path != "" && IntOfInput(mode).Ok? ==> err.None?
      ensures f != null ==>
        fresh(f) && WellFormed(f.path) && f.Snapshot() == Node(FromString(path).value, IntOfInput(mode).value, uid, gid, listing, content)
    {
      var p := FromString(path);
      if p.Err? {
        return null, Some(p.error);
      }
      var m := IntOfInput(mode);
      if m.Err? {
        return null, Some(m.error);
      }
      f := new FuseFile(p.value, m.value, uid, gid, listing, content);
      err := None;
    }

    /** The `path` setter: `Path(s)`, which raises IndexError on "" and then leaves
        the node as it was. */
    method SetPath(s: string) returns (err: Option<PyError>)
      modifies this
      ensures s == "" ==> err == Some(IndexError) && Snapshot() == old(Snapshot())
      ensures s != "" ==> err.None? && path == FromString(s).value && WellFormed(path)
      ensures mode == old(mode) && uid == old(uid) && gid == old(gid)
      ensures listing == old(listing) && content == old(content)
    {
      var p := FromString(s);
      if p.Err? {
        return Some(p.error);
      }
      path := p.value;
      return None;
    }

    /** The `name` setter: below the root, a name without a slash replaces the last
        segment in place; anything else is ignored. */
    method SetName(name: string)
      modifies this
      ensures |old(path.segs)| > 0 && '/' !in name ==>
        path.segs == old(path.segs)[..|old(path.segs)| - 1] + [name] && Name(Snapshot()) == name
      ensures !(|old(path.segs)| > 0 && '/' !in name) ==> path == old(path)
      ensures old(WellFormed(path)) && name != "" ==> WellFormed(path)
      ensures mode == old(mode) && uid == old(uid) && gid == old(gid)
      ensures listing == old(listing) && content == old(content)
    {
      if |path.segs| > 0 && '/' !in name {
        path := SetItem(path, -1, name).value;
        assert path.segs == old(path.segs)[..|old(path.segs)| - 1] + [name];
      }
    }

    /** The `mode` setter, `Mode(int(mode))`: when `int(mode)` raises, nothing is
        assigned; otherwise the mode becomes that number. */
    method SetMode(x: ModeInput) returns (err: Option<PyError>)
      modifies this
      ensures IntOfInput(x).Err? ==> err == Some(IntOfInput(x).error) && Snapshot() == old(Snapshot())
      ensures IntOfInput(x).Ok? ==> err.None? && Snapshot() == old(Snapshot()).(mode := IntOfInput(x).value)
    {
      var m := IntOfInput(x);
      if m.Err? {
        return Some(m.error);
      }
      mode := m.value;
      return None;
    }

    /** The `uid` and `gid` setters: plain assignments. */
    method SetOwner(newUid: int, newGid: int)
      modifies this
      ensures Snapshot() == old(Snapshot()).(uid := newUid, gid := newGid)
    {
      uid := newUid;
      gid := newGid;
    }
  }
}
