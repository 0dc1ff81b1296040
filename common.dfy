/** Values and string operations shared by every component: the optional and
    error-carrying wrappers, the exceptions Python raises in the modelled code, the
    Linux errno numbers the filesystem calls negate, and Python's string splitting,
    joining, slicing and integer parsing as the modelled code uses them. */
module Common {

  datatype Option<T> = None | Some(value: T)

  /** The Python exceptions the modelled code can raise. */
  datatype PyError =
    | IndexError          // a sequence index or an empty string index out of range
    | TypeError           // a rejected argument (an invalid mode string, a None hashed)
    | ValueError          // int() or uuid.UUID() given a malformed string
    | UnboundLocalError   // a local variable read before any branch assigned it
    | AttributeError      // a method called on an object that does not have it
    | OSError             // a disk operation that failed
    | IOError             // a file that could not be opened or copied
    | ShutilError         // `shutil.Error`: a copy whose source and target are the same file
    | KeyError            // a lookup of a key the store does not hold
    | IntegrityError      // a database constraint (unique, not null, foreign key) refused a row
    | AssertionError      // Django's `assert` that a row to delete has a primary key
    | RuntimeError        // Python 2's "maximum recursion depth exceeded"

  /** The result of a Python call: a value, or the exception it raised. */
  datatype Result<T> = Ok(value: T) | Err(error: PyError)

  /** Linux errno numbers; the filesystem calls return their negation. */
  const EPERM: int := 1
  const ENOENT: int := 2
  const EACCES: int := 13
  const EFAULT: int := 14
  const EINVAL: int := 22
  const ENOTEMPTY: int := 39
  const EOPNOTSUPP: int := 95

  /** Python's `s.split(sep)` for a one-character separator: the pieces between
      separators, empty ones included; there is always at least one piece. */
  function Split(s: string, sep: char): (r: seq<string>)
    ensures |r| >= 1
    decreases |s|
  {
    if s == [] then [""]
    else if s[0] == sep then [""] + Split(s[1..], sep)
    else
      var rest := Split(s[1..], sep);
      [[s[0]] + rest[0]] + rest[1..]
  }

  /** Python's `sep.join(pieces)`. */
  function Join(pieces: seq<string>, sep: char): string
    decreases |pieces|
  {
    if |pieces| == 0 then ""
    else if |pieces| == 1 then pieces[0]
    else pieces[0] + [sep] + Join(pieces[1..], sep)
  }

  /** No piece contains the separator. */
  predicate SepFree(pieces: seq<string>, sep: char) {
    forall k :: 0 <= k < |pieces| ==> sep !in pieces[k]
  }

  lemma {:induction false} SplitPiecesAreSepFree(s: string, sep: char)
    ensures SepFree(Split(s, sep), sep)
    decreases |s|
  {
    if s != [] {
      SplitPiecesAreSepFree(s[1..], sep);
    }
  }

  /** A split has one piece more than the string has separators. */
  lemma {:induction false} SplitLength(s: string, sep: char)
    ensures |Split(s, sep)| == 1 + multiset(s)[sep]
    decreases |s|
  {
    if s != [] {
      SplitLength(s[1..], sep);
      assert s == [s[0]] + s[1..];
      assert multiset(s) == multiset([s[0]]) + multiset(s[1..]);
    }
  }

  /** Joining the pieces of a split gives the string back. */
  lemma {:induction false} JoinSplit(s: string, sep: char)
    ensures Join(Split(s, sep), sep) == s
    decreases |s|
  {
    if s != [] {
      JoinSplit(s[1..], sep);
      var rest := Split(s[1..], sep);
      if s[0] == sep {
        assert Split(s, sep) == [""] + rest;
      } else {
        var r := Split(s, sep);
        assert r == [[s[0]] + rest[0]] + rest[1..];
        if |rest| == 1 {
          assert Join(r, sep) == [s[0]] + rest[0];
        } else {
          assert r[1..] == rest[1..];
          assert Join(r, sep) == [s[0]] + rest[0] + [sep] + Join(rest[1..], sep);
          assert Join(rest, sep) == rest[0] + [sep] + Join(rest[1..], sep);
        }
      }
    }
  }

  /** A separator in the middle splits into the pieces on either side. */
  lemma {:induction false} SplitAround(a: string, b: string, sep: char)
    ensures Split(a + [sep] + b, sep) == Split(a, sep) + Split(b, sep)
    decreases |a|
  {
    if a == [] {
      assert a + [sep] + b == [sep] + b;
      assert ([sep] + b)[1..] == b;
    } else {
      var s := a + [sep] + b;
      assert s[0] == a[0];
      assert s[1..] == a[1..] + [sep] + b;
      SplitAround(a[1..], b, sep);
    }
  }

  lemma {:induction false} SplitSepFree(a: string, sep: char)
    requires sep !in a
    ensures Split(a, sep) == [a]
    decreases |a|
  {
    if a != [] {
      SplitSepFree(a[1..], sep);
      assert [a[0]] + a[1..] == a;
    }
  }

  /** Splitting a join of separator-free pieces gives the pieces back. */
  lemma {:induction false} SplitJoin(pieces: seq<string>, sep: char)
    requires |pieces| >= 1 && SepFree(pieces, sep)
    ensures Split(Join(pieces, sep), sep) == pieces
    decreases |pieces|
  {
    if |pieces| == 1 {
      SplitSepFree(pieces[0], sep);
    } else {
      SplitJoin(pieces[1..], sep);
      SplitAround(pieces[0], Join(pieces[1..], sep), sep);
      SplitSepFree(pieces[0], sep);
      assert [pieces[0]] + pieces[1..] == pieces;
    }
  }

  lemma {:induction false} JoinAppend(a: seq<string>, b: seq<string>, sep: char)
    requires |a| >= 1 && |b| >= 1
    ensures Join(a + b, sep) == Join(a, sep) + [sep] + Join(b, sep)
    decreases |a|
  {
    if |a| == 1 {
      assert (a + b)[1..] == b;
    } else {
      assert (a + b)[1..] == a[1..] + b;
      JoinAppend(a[1..], b, sep);
    }
  }

  /** The non-empty pieces, in order (Python's `[i for i in pieces if i != ""]`). */
  function NonEmpty(pieces: seq<string>): (r: seq<string>)
    ensures forall k :: 0 <= k < |r| ==> r[k] != ""
    ensures |r| <= |pieces|
  {
    if pieces == [] then []
    else if pieces[0] == "" then NonEmpty(pieces[1..])
    else [pieces[0]] + NonEmpty(pieces[1..])
  }

  lemma {:induction false} NonEmptyAppend(a: seq<string>, b: seq<string>)
    ensures NonEmpty(a + b) == NonEmpty(a) + NonEmpty(b)
    decreases |a|
  {
    if a == [] {
      assert a + b == b;
    } else {
      assert (a + b)[1..] == a[1..] + b;
      NonEmptyAppend(a[1..], b);
    }
  }

  lemma {:induction false} NonEmptyOfNonEmpty(pieces: seq<string>)
    requires forall k :: 0 <= k < |pieces| ==> pieces[k] != ""
    ensures NonEmpty(pieces) == pieces
    decreases |pieces|
  {
    if pieces != [] {
      NonEmptyOfNonEmpty(pieces[1..]);
      assert [pieces[0]] + pieces[1..] == pieces;
    }
  }

  predicate StartsWith(s: string, prefix: string) {
    |prefix| <= |s| && s[..|prefix|] == prefix
  }

  /** Python's index `s[i]` for an integer that may be negative: the position it
      selects, or None when Python raises IndexError. */
  function PyIndex(i: int, len: nat): (r: Option<nat>)
    ensures r.Some? <==> -(len as int) <= i < len
    ensures r.Some? ==> r.value < len && (r.value == i || r.value == len + i)
  {
    if 0 <= i < len then Some(i)
    else if -(len as int) <= i < 0 then Some(len + i)
    else None
  }

  /** Where Python places one bound of a slice `s[lo:hi]` (step 1): negative bounds
      count from the end, and both are clamped into the sequence. */
  function PySliceBound(b: int, len: nat): (r: nat)
    ensures r <= len
    ensures 0 <= b <= len ==> r == b
  {
    if b < 0 then (if len + b < 0 then 0 else len + b)
    else if b > len then len
    else b
  }

  /** Python's `s[lo:hi]`; a missing bound is None. */
  function PySlice<T>(s: seq<T>, lo: Option<int>, hi: Option<int>): (r: seq<T>)
    ensures |r| <= |s|
    ensures lo.Some? && hi.Some? && 0 <= lo.value <= hi.value <= |s| ==> r == s[lo.value..hi.value]
  {
    var l := if lo.None? then 0 else PySliceBound(lo.value, |s|);
    var h := if hi.None? then |s| else PySliceBound(hi.value, |s|);
    if l < h then s[l..h] else []
  }

  predicate IsDigit(c: char) { '0' <= c <= '9' }

  function DigitsValue(s: string): nat
    requires forall k :: 0 <= k < |s| ==> IsDigit(s[k])
  {
    if s == [] then 0
    else
      assert IsDigit(s[|s| - 1]);
      DigitsValue(s[..|s| - 1]) * 10 + (s[|s| - 1] as int - '0' as int)
  }

  /** C's `isspace` in the "C" locale: space, tab, line feed, vertical tab, form
      feed and carriage return. */
  predicate IsSpace(c: char) {
    c == ' ' || c == '\t' || c == '\n' || c == '\r' || c as int == 11 || c as int == 12
  }

  /** Nothing but whitespace. */
  predicate AllSpaces(s: string) {
    s == [] || (IsSpace(s[0]) && AllSpaces(s[1..]))
  }

  /** What is left of `s` after its leading whitespace. */
  function SkipSpaces(s: string): (r: string)
    ensures |r| <= |s|
  {
    if s != [] && IsSpace(s[0]) then SkipSpaces(s[1..]) else s
  }

  /** What is left is a suffix of `s` that does not start with whitespace, and
      everything before it is whitespace. */
  lemma {:induction false} SkipSpacesSuffix(s: string)
    ensures |SkipSpaces(s)| <= |s| && SkipSpaces(s) == s[|s| - |SkipSpaces(s)|..]
    ensures AllSpaces(s[..|s| - |SkipSpaces(s)|])
    ensures SkipSpaces(s) == [] || !IsSpace(SkipSpaces(s)[0])
    decreases |s|
  {
    if s != [] && IsSpace(s[0]) {
      SkipSpacesSuffix(s[1..]);
      var r := SkipSpaces(s[1..]);
      assert s[..|s| - |r|] == [s[0]] + s[1..][..|s| - 1 - |r|];
    }
  }

  /** Whitespace in front of a string that does not start with any is skipped
      whole. */
  lemma {:induction false} SkipSpacesOf(w: string, x: string)
    requires AllSpaces(w) && (x == [] || !IsSpace(x[0]))
    ensures SkipSpaces(w + x) == x
    decreases |w|
  {
    if w == [] {
      assert w + x == x;
    } else {
      assert (w + x)[1..] == w[1..] + x;
      SkipSpacesOf(w[1..], x);
    }
  }

  /** The length of the run of decimal digits that `s` starts with. */
  function DigitRun(s: string): (n: nat)
    ensures n <= |s|
    ensures forall k :: 0 <= k < n ==> IsDigit(s[k])
    ensures n < |s| ==> !IsDigit(s[n])
  {
    if s != [] && IsDigit(s[0]) then
      var n := 1 + DigitRun(s[1..]);
      assert forall k :: 1 <= k < n ==> s[k] == s[1..][k - 1];
      n
    else 0
  }

  /** What follows an optional sign, with the whitespace after the sign
      skipped. */
  function AfterSign(a: string): (b: string)
    ensures |b| <= |a|
  {
    if a != [] && (a[0] == '+' || a[0] == '-') then SkipSpaces(a[1..]) else a
  }

  /** One or more decimal digits followed by nothing but whitespace. */
  function Decimal(b: string): (r: Result<nat>)
    ensures r.Ok? ==> |b| >= 1
    ensures r.Err? ==> r.error == ValueError
  {
    var n := DigitRun(b);
    if n >= 1 && AllSpaces(b[n..]) then Ok(DigitsValue(b[..n])) else Err(ValueError)
  }

  /** Python 2's `int(s)` on a byte string: leading whitespace, an optional sign,
      whitespace again, one or more decimal digits, then trailing whitespace;
      anything else raises ValueError. */
  function ParseInt(s: string): (r: Result<int>)
    ensures r.Err? ==> r.error == ValueError
  {
    var a := SkipSpaces(s);
    match Decimal(AfterSign(a))
    case Err(e) => Err(e)
    case Ok(v) => Ok(if a[0] == '-' then -(v as int) else v)
  }

  /** Digits followed by whitespace are read as the digits. */
  lemma DecimalOf(d: string, w: string)
    requires |d| >= 1 && forall k :: 0 <= k < |d| ==> IsDigit(d[k])
    requires AllSpaces(w)
    ensures Decimal(d + w) == Ok(DigitsValue(d))
  {
    assert (d + w)[..|d|] == d;
    assert (d + w)[|d|..] == w;
  }

  /** The unsigned forms `int` accepts: digits with any whitespace around them. */
  lemma ParseIntUnsigned(w1: string, d: string, w2: string)
    requires AllSpaces(w1) && AllSpaces(w2)
    requires |d| >= 1 && forall k :: 0 <= k < |d| ==> IsDigit(d[k])
    ensures ParseInt(w1 + (d + w2)) == Ok(DigitsValue(d))
  {
    DecimalOf(d, w2);
    SkipSpacesOf(w1, d + w2);
    AfterNoSign(d + w2);
    ParseIntVia(w1 + (d + w2), d + w2, DigitsValue(d));
  }

  /** The signed forms: a sign in front of an unsigned form, with whitespace
      before and after it, keeps or negates what the unsigned form reads as, and
      is refused exactly when the unsigned form is. */
  lemma ParseIntSign(w1: string, sign: char, w2: string, x: string)
    requires AllSpaces(w1) && AllSpaces(w2) && (sign == '+' || sign == '-')
    requires x != [] && !IsSpace(x[0]) && x[0] != '+' && x[0] != '-'
    ensures ParseInt(w1 + ([sign] + (w2 + x))).Ok? <==> ParseInt(x).Ok?
    ensures ParseInt(x).Ok? ==>
      ParseInt(w1 + ([sign] + (w2 + x))).value == if sign == '-' then -ParseInt(x).value else ParseInt(x).value
  {
    var a := [sign] + (w2 + x);
    AfterSignSkips(sign, w2, x);
    SkipSpacesOf(w1, a);
    SkipSpacesOf("", x);
    assert "" + x == x;
    AfterNoSign(x);
    var r := Decimal(x);
    if r.Ok? {
      ParseIntVia(x, x, r.value);
      ParseIntVia(w1 + a, a, r.value);
    }
  }

  /** Without a sign nothing is skipped. */
  lemma AfterNoSign(x: string)
    requires x == [] || (x[0] != '+' && x[0] != '-')
    ensures AfterSign(x) == x
  {
  }

  /** After a sign, the whitespace in front of the rest is skipped. */
  lemma AfterSignSkips(sign: char, w: string, x: string)
    requires (sign == '+' || sign == '-') && AllSpaces(w)
    requires x == [] || !IsSpace(x[0])
    ensures AfterSign([sign] + (w + x)) == x
  {
    assert ([sign] + (w + x))[1..] == w + x;
    SkipSpacesOf(w, x);
  }

  /** `int` once the leading whitespace and the sign are found. */
  lemma ParseIntVia(s: string, a: string, v: nat)
    ensures SkipSpaces(s) == a && a != [] && Decimal(AfterSign(a)) == Ok(v) ==>
      ParseInt(s) == Ok(if a[0] == '-' then -(v as int) else v)
  {
  }

  /** A string of digits alone is read as those digits. */
  lemma ParseIntDigits(s: string)
    requires |s| >= 1 && forall k :: 0 <= k < |s| ==> IsDigit(s[k])
    ensures ParseInt(s) == Ok(DigitsValue(s))
  {
    ParseIntUnsigned("", s, "");
    assert "" + (s + "") == s;
  }

  /** Without whitespace, `int` accepts exactly one or more digits after an
      optional sign. */
  lemma ParseIntNoSpace(s: string)
    requires forall k :: 0 <= k < |s| ==> !IsSpace(s[k])
    ensures ParseInt(s).Ok? <==>
      (|s| >= 1 && (forall k :: 0 <= k < |s| ==> IsDigit(s[k])))
      || (|s| >= 2 && (s[0] == '-' || s[0] == '+') && (forall k :: 1 <= k < |s| ==> IsDigit(s[k])))
  {
    assert SkipSpaces(s) == s;
    if |s| >= 1 && (s[0] == '-' || s[0] == '+') {
      assert SkipSpaces(s[1..]) == s[1..];
    }
  }

  /** A string with no digit in it is refused. */
  lemma ParseIntNeedsDigit(s: string)
    requires forall k :: 0 <= k < |s| ==> !IsDigit(s[k])
    ensures ParseInt(s) == Err(ValueError)
  {
    var a := SkipSpaces(s);
    SkipSpacesSuffix(s);
    if a != [] && (a[0] == '+' || a[0] == '-') {
      SkipSpacesSuffix(a[1..]);
    }
    var b := AfterSign(a);
    if b != [] {
      assert b[0] in s;
    }
  }

  /** Python's `s.rsplit(c, 1)[0]`: everything before the last `c`, or all of `s`. */
  function BeforeLast(s: string, c: char): (r: string)
    ensures |r| <= |s| && r == s[..|r|]
    ensures c in s ==> |r| < |s| && s[|r|] == c && c !in s[|r| + 1..]
    ensures c !in s ==> r == s
    decreases |s|
  {
    if s == [] then []
    else if s[|s| - 1] == c then s[..|s| - 1]
    else
      var r := BeforeLast(s[..|s| - 1], c);
      assert s[..|s| - 1][..|r|] == s[..|r|];
      if c in s[..|s| - 1] then
        assert s[|r| + 1..] == s[..|s| - 1][|r| + 1..] + [s[|s| - 1]];
        r
      else
        assert c !in s by { assert s == s[..|s| - 1] + [s[|s| - 1]]; }
        s
  }

  /** Python's `s.split(c)[-1]`: everything after the last `c`, or all of `s`. */
  function AfterLast(s: string, c: char): (r: string)
    ensures c !in r
    ensures c !in s ==> r == s
    ensures c in s ==> s == BeforeLast(s, c) + [c] + r
  {
    if c in s then s[|BeforeLast(s, c)| + 1..] else s
  }

  /** The concatenation of a sequence of strings (successive `update` calls). */
  function Concat(parts: seq<string>): string {
    if parts == [] then "" else Concat(parts[..|parts| - 1]) + parts[|parts| - 1]
  }

  lemma {:induction false} ConcatAppendOne(parts: seq<string>, x: string)
    ensures Concat(parts + [x]) == Concat(parts) + x
  {
    assert (parts + [x])[..|parts|] == parts;
  }
}
