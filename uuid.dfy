/** The platform-independent UUID column type, present twice with the same
    codec (morphdepot/sa/uuid_type.py and morphdepot/models/utils/beanbags.py).
    A UUID is a 128-bit number. PostgreSQL stores it natively and binds `str(u)`,
    the hyphenated form of section 3 of RFC 4122; every other dialect stores it
    in a CHAR(32) column as 32 lower-case hexadecimal digits. A value read back
    is parsed by Python's `uuid.UUID(hex)`. */
module UuidCodec {
  import opened Common

  const UUID_LIMIT: nat := 0x1_0000_0000_0000_0000_0000_0000_0000_0000

  /** A UUID as its 128-bit integer. */
  type Uuid = u: nat | u < UUID_LIMIT

  function Pow16(n: nat): (r: nat)
    ensures r >= 1
  {
    if n == 0 then 1 else 16 * Pow16(n - 1)
  }

  predicate IsHexDigit(c: char) {
    ('0' <= c <= '9') || ('a' <= c <= 'f') || ('A' <= c <= 'F')
  }

  predicate IsLowerHexDigit(c: char) {
    ('0' <= c <= '9') || ('a' <= c <= 'f')
  }

  predicate AllHex(s: string) {
    forall k :: 0 <= k < |s| ==> IsHexDigit(s[k])
  }

  function HexChar(d: nat): (c: char)
    requires d < 16
    ensures IsLowerHexDigit(c)
  {
    "0123456789abcdef"[d]
  }

  /** The value of one hexadecimal digit, either case, as `int(h, 16)` reads it. */
  function DigitValue(c: char): (r: nat)
    requires IsHexDigit(c)
    ensures r < 16
  {
    if '0' <= c <= '9' then (c - '0') as nat
    else if 'a' <= c <= 'f' then (c - 'a') as nat + 10
    else (c - 'A') as nat + 10
  }

  lemma DigitOfChar(d: nat)
    requires d < 16
    ensures DigitValue(HexChar(d)) == d
  {
  }

  /** `"%.<n>x" % u` for `u < 16^n`: exactly `n` digits, most significant first,
      padded with zeros. */
  function Hex(u: nat, n: nat): (r: string)
    ensures |r| == n
    ensures forall k :: 0 <= k < |r| ==> IsLowerHexDigit(r[k])
  {
    if n == 0 then "" else Hex(u / 16, n - 1) + [HexChar(u % 16)]
  }

  /** `int(h, 16)` for a string of hexadecimal digits. */
  function HexValue(s: string): (r: nat)
    requires AllHex(s)
    ensures r < Pow16(|s|)
  {
    if s == [] then 0 else 16 * HexValue(s[..|s| - 1]) + DigitValue(s[|s| - 1])
  }

  lemma {:induction false} HexValueOfHex(u: nat, n: nat)
    requires u < Pow16(n)
    ensures AllHex(Hex(u, n))
    ensures HexValue(Hex(u, n)) == u
    decreases n
  {
    if n > 0 {
      HexValueOfHex(u / 16, n - 1);
      var h := Hex(u, n);
      assert h[..|h| - 1] == Hex(u / 16, n - 1);
      DigitOfChar(u % 16);
    }
  }

  lemma {:induction false} PowAdd(a: nat, b: nat)
    ensures Pow16(a + b) == Pow16(a) * Pow16(b)
    decreases a
  {
    if a > 0 {
      PowAdd(a - 1, b);
      assert Pow16(a + b) == 16 * Pow16(a - 1 + b);
    }
  }

  /** 32 hexadecimal digits are exactly 128 bits. */
  lemma PowLimit()
    ensures Pow16(32) == UUID_LIMIT
  {
    assert Pow16(8) == 0x1_0000_0000;
    PowAdd(8, 8);
    PowAdd(16, 16);
  }

  /** `"%.32x" % u`: the non-PostgreSQL binding. */
  function Hex32(u: Uuid): (r: string)
    ensures |r| == 32
    ensures forall k :: 0 <= k < |r| ==> IsLowerHexDigit(r[k])
  {
    Hex(u, 32)
  }

  /** `str(u)`: the digits of `Hex32` in groups of 8, 4, 4, 4 and 12, separated by
      hyphens. */
  function Hyphenated(u: Uuid): (r: string)
    ensures |r| == 36
    ensures r[8] == '-' && r[13] == '-' && r[18] == '-' && r[23] == '-'
  {
    var h := Hex32(u);
    h[..8] + "-" + h[8..12] + "-" + h[12..16] + "-" + h[16..20] + "-" + h[20..]
  }

  // ---------------------------------------------------------------------------
  // `uuid.UUID(hex)`: remove every "urn:" and "uuid:", strip braces from both
  // ends, drop every hyphen, then demand exactly 32 hexadecimal digits.

  /** `s.replace(pat, '')`: occurrences removed left to right, without overlap. */
  function RemoveAll(s: string, pat: string): (r: string)
    requires pat != ""
    ensures |r| <= |s|
    decreases |s|
  {
    if |s| < |pat| then s
    else if s[..|pat|] == pat then RemoveAll(s[|pat|..], pat)
    else [s[0]] + RemoveAll(s[1..], pat)
  }

  lemma {:induction false} RemoveAllAbsent(s: string, pat: string)
    requires pat != "" && pat[|pat| - 1] !in s
    ensures RemoveAll(s, pat) == s
    decreases |s|
  {
    if |s| >= |pat| {
      assert s[..|pat|][|pat| - 1] in s;
      assert s[..|pat|] != pat;
      RemoveAllAbsent(s[1..], pat);
      assert [s[0]] + s[1..] == s;
    }
  }

  predicate IsBrace(c: char) { c == '{' || c == '}' }

  /** `s.strip('{}')`. */
  function StripBraces(s: string): (r: string)
    ensures |r| <= |s|
    decreases |s|
  {
    if s != [] && IsBrace(s[0]) then StripBraces(s[1..])
    else if s != [] && IsBrace(s[|s| - 1]) then StripBraces(s[..|s| - 1])
    else s
  }

  /** `s.replace('-', '')`. */
  function DropHyphens(s: string): (r: string)
    ensures '-' !in r
    ensures |r| <= |s|
  {
    if s == [] then [] else (if s[0] == '-' then "" else [s[0]]) + DropHyphens(s[1..])
  }

  lemma {:induction false} DropHyphensAppend(a: string, b: string)
    ensures DropHyphens(a + b) == DropHyphens(a) + DropHyphens(b)
    decreases |a|
  {
    if a != [] {
      var head := if a[0] == '-' then "" else [a[0]];
      assert (a + b)[0] == a[0];
      assert (a + b)[1..] == a[1..] + b;
      assert DropHyphens(a + b) == head + DropHyphens(a[1..] + b);
      assert DropHyphens(a) == head + DropHyphens(a[1..]);
      DropHyphensAppend(a[1..], b);
    } else {
      assert a + b == b;
    }
  }

  lemma {:induction false} DropHyphensAbsent(s: string)
    requires '-' !in s
    ensures DropHyphens(s) == s
    decreases |s|
  {
    if s != [] {
      DropHyphensAbsent(s[1..]);
    }
  }

  /** What `uuid.UUID(hex)` leaves to convert. */
  function Cleaned(s: string): (r: string)
    ensures '-' !in r && |r| <= |s|
  {
    DropHyphens(StripBraces(RemoveAll(RemoveAll(s, "urn:"), "uuid:")))
  }

  // ---------------------------------------------------------------------------
  // `long(h, 16)`, which `uuid.UUID` applies to the 32 characters that remain:
  // leading whitespace, an optional sign, whitespace again, an optional `0x` or
  // `0X`, one or more hexadecimal digits of either case, an optional `L` or `l`,
  // then trailing whitespace.

  /** The length of the run of hexadecimal digits that `s` starts with. */
  function HexRun(s: string): (n: nat)
    ensures n <= |s|
  {
    if s != [] && IsHexDigit(s[0]) then 1 + HexRun(s[1..]) else 0
  }

  /** The run holds only digits and stops at the first character that is not
      one. */
  lemma {:induction false} HexRunDigits(s: string)
    ensures AllHex(s[..HexRun(s)])
    ensures HexRun(s) < |s| ==> !IsHexDigit(s[HexRun(s)])
    decreases |s|
  {
    if s != [] && IsHexDigit(s[0]) {
      HexRunDigits(s[1..]);
      var n := HexRun(s);
      assert forall k :: 1 <= k < n ==> s[k] == s[1..][k - 1];
    }
  }

  /** What follows an optional `0x` or `0X`. */
  function AfterHexPrefix(b: string): (c: string)
    ensures |c| <= |b|
  {
    if |b| >= 2 && b[0] == '0' && (b[1] == 'x' || b[1] == 'X') then b[2..] else b
  }

  /** One or more hexadecimal digits, an optional `L` or `l`, then nothing but
      whitespace. */
  function HexDigits(c: string): (r: Result<nat>)
    ensures r.Ok? ==> |c| >= 1
    ensures r.Err? ==> r.error == ValueError
  {
    var n := HexRun(c);
    var rest := if n < |c| && (c[n] == 'L' || c[n] == 'l') then c[n + 1..] else c[n..];
    if n >= 1 && AllSpaces(rest) then
      HexRunDigits(c);
      Ok(HexValue(c[..n]))
    else Err(ValueError)
  }

  /** Python 2's `long(h, 16)`. */
  function LongHex(h: string): (r: Result<int>)
    ensures r.Err? ==> r.error == ValueError
  {
    var a := SkipSpaces(h);
    match HexDigits(AfterHexPrefix(AfterSign(a)))
    case Err(e) => Err(e)
    case Ok(v) => Ok(if a[0] == '-' then -(v as int) else v)
  }

  /** `uuid.UUID(hex)`: ValueError unless 32 characters remain after the
      clean-up, unless `long` reads them as a number, and unless that number is
      below 2^128. */
  function Parse(s: string): (r: Result<Uuid>)
    ensures r.Err? ==> r.error == ValueError
    ensures r.Ok? ==> |Cleaned(s)| == 32 && LongHex(Cleaned(s)) == Ok(r.value)
  {
    var h := Cleaned(s);
    if |h| != 32 then Err(ValueError)
    else
      match LongHex(h)
      case Err(e) => Err(e)
      case Ok(v) => if 0 <= v < UUID_LIMIT then Ok(v) else Err(ValueError)
  }

  /** The run ends where the digits do. */
  lemma {:induction false} HexRunOf(d: string, y: string)
    requires AllHex(d) && (y == [] || !IsHexDigit(y[0]))
    ensures HexRun(d + y) == |d|
    decreases |d|
  {
    if d == [] {
      assert d + y == y;
    } else {
      assert (d + y)[1..] == d[1..] + y;
      HexRunOf(d[1..], y);
    }
  }

  /** A run of hexadecimal digits, an optional `L` and whitespace: the digits
      are read. */
  lemma HexDigitsOf(d: string, l: string, w: string)
    requires |d| >= 1 && AllHex(d) && AllSpaces(w)
    requires l == [] || (|l| == 1 && (l[0] == 'L' || l[0] == 'l'))
    ensures HexDigits(d + (l + w)) == Ok(HexValue(d))
  {
    var c := d + (l + w);
    HexRunDigits(c);
    HexRunOf(d, l + w);
    assert c[..|d|] == d;
    if l == [] {
      assert c[|d|..] == w;
    } else {
      assert c[|d|] == 'L' || c[|d|] == 'l';
      assert c[|d| + 1..] == w;
    }
  }

  /** No `0x` is skipped in front of digits that do not start with one. */
  lemma NoHexPrefix(d: string, l: string, w: string)
    requires |d| >= 1 && AllHex(d) && AllSpaces(w)
    requires l == [] || (|l| == 1 && (l[0] == 'L' || l[0] == 'l'))
    ensures AfterHexPrefix(d + (l + w)) == d + (l + w)
  {
    var c := d + (l + w);
    if |c| >= 2 {
      if |d| >= 2 {
        assert c[1] == d[1];
      } else if l != [] {
        assert c[1] == l[0];
      } else {
        assert c[1] == w[0];
      }
    }
  }

  /** A `0x` or `0X` in front of the digits is skipped. */
  lemma HexPrefixSkipped(p: string, x: string)
    requires |p| == 2 && p[0] == '0' && (p[1] == 'x' || p[1] == 'X')
    ensures AfterHexPrefix(p + x) == x
  {
    assert (p + x)[..2] == p;
    assert (p + x)[2..] == x;
  }

  /** `long` once the leading whitespace and the sign are found. */
  lemma LongHexVia(h: string, a: string, v: nat)
    ensures SkipSpaces(h) == a && a != [] && HexDigits(AfterHexPrefix(AfterSign(a))) == Ok(v) ==>
      LongHex(h) == Ok(if a[0] == '-' then -(v as int) else v)
  {
  }

  /** The digits behind an optional `0x`: `p` is empty or the prefix. */
  predicate HexPrefix(p: string) {
    p == [] || (|p| == 2 && p[0] == '0' && (p[1] == 'x' || p[1] == 'X'))
  }

  /** The optional `L` or `l` after the digits. */
  predicate LongSuffix(l: string) {
    l == [] || (|l| == 1 && (l[0] == 'L' || l[0] == 'l'))
  }

  /** `0x`, digits, `L`: whatever of them is there, the rest reads as the
      digits. */
  lemma HexBody(p: string, d: string, l: string, w: string)
    requires HexPrefix(p) && LongSuffix(l) && |d| >= 1 && AllHex(d) && AllSpaces(w)
    ensures HexDigits(AfterHexPrefix(p + (d + (l + w)))) == Ok(HexValue(d))
    ensures (p + (d + (l + w)))[0] == (if p == [] then d[0] else '0')
  {
    HexDigitsOf(d, l, w);
    if p == [] {
      assert p + (d + (l + w)) == d + (l + w);
      NoHexPrefix(d, l, w);
    } else {
      HexPrefixSkipped(p, d + (l + w));
    }
  }

  /** The unsigned forms `long(h, 16)` accepts: whitespace, an optional `0x`, the
      digits, an optional `L`, whitespace. */
  lemma LongHexUnsigned(w1: string, p: string, d: string, l: string, w2: string)
    requires AllSpaces(w1) && AllSpaces(w2) && HexPrefix(p) && LongSuffix(l)
    requires |d| >= 1 && AllHex(d)
    ensures LongHex(w1 + (p + (d + (l + w2)))) == Ok(HexValue(d))
  {
    var x := p + (d + (l + w2));
    HexBody(p, d, l, w2);
    SkipSpacesOf(w1, x);
    AfterNoSign(x);
    LongHexVia(w1 + x, x, HexValue(d));
  }

  /** The signed forms: a sign in front of an unsigned form, with whitespace
      before and after it, keeps or negates what the unsigned form reads as, and
      is refused exactly when the unsigned form is. */
  lemma LongHexSign(w1: string, sign: char, w2: string, x: string)
    requires AllSpaces(w1) && AllSpaces(w2) && (sign == '+' || sign == '-')
    requires x != [] && !IsSpace(x[0]) && x[0] != '+' && x[0] != '-'
    ensures LongHex(w1 + ([sign] + (w2 + x))).Ok? <==> LongHex(x).Ok?
    ensures LongHex(x).Ok? ==>
      LongHex(w1 + ([sign] + (w2 + x))).value == if sign == '-' then -LongHex(x).value else LongHex(x).value
  {
    var a := [sign] + (w2 + x);
    AfterSignSkips(sign, w2, x);
    SkipSpacesOf(w1, a);
    SkipSpacesOf("", x);
    assert "" + x == x;
    AfterNoSign(x);
    var r := HexDigits(AfterHexPrefix(x));
    if r.Ok? {
      LongHexVia(x, x, r.value);
      LongHexVia(w1 + a, a, r.value);
    }
  }

  /** Hexadecimal digits alone read as their value. */
  lemma LongHexDigits(h: string)
    requires |h| >= 1 && AllHex(h)
    ensures LongHex(h) == Ok(HexValue(h))
  {
    assert SkipSpaces(h) == h;
    AfterNoSign(h);
    assert AfterHexPrefix(h) == h by {
      if |h| >= 2 {
        assert IsHexDigit(h[1]);
      }
    }
    HexDigitsAll(h);
    LongHexVia(h, h, HexValue(h));
  }

  /** Nothing but hexadecimal digits: all of them are read. */
  lemma HexDigitsAll(d: string)
    requires |d| >= 1 && AllHex(d)
    ensures HexDigits(d) == Ok(HexValue(d))
  {
    HexRunOf(d, "");
    assert d + "" == d;
    assert d[..|d|] == d;
  }

  /** 32 hexadecimal digits left by the clean-up are the UUID they spell. */
  lemma ParseDigits(s: string)
    requires |Cleaned(s)| == 32 && AllHex(Cleaned(s))
    ensures Parse(s) == Ok(HexValue(Cleaned(s)))
  {
    LongHexDigits(Cleaned(s));
    HexBound(Cleaned(s));
  }

  lemma {:induction false} PowMono(a: nat, b: nat)
    requires a <= b
    ensures Pow16(a) <= Pow16(b)
    decreases b
  {
    if a < b {
      PowMono(a, b - 1);
    }
  }

  /** Without a minus sign in it, what `long` reads from `h` lies below
      16^|h|. */
  lemma LongHexBound(h: string)
    requires '-' !in h && LongHex(h).Ok?
    ensures 0 <= LongHex(h).value < Pow16(|h|)
  {
    var a := SkipSpaces(h);
    SkipSpacesSuffix(h);
    assert a[0] in h;
    var c := AfterHexPrefix(AfterSign(a));
    var n := HexRun(c);
    HexRunDigits(c);
    assert LongHex(h).value == HexValue(c[..n]);
    PowMono(n, |h|);
  }

  /** So the range check of `uuid.UUID` never fires on a string: it is accepted
      exactly when its 32 remaining characters read as a number, and that
      number is the UUID. */
  lemma ParseIsLong(s: string)
    ensures Parse(s).Ok? <==> |Cleaned(s)| == 32 && LongHex(Cleaned(s)).Ok?
    ensures Parse(s).Ok? ==> Parse(s).value == LongHex(Cleaned(s)).value
  {
    var h := Cleaned(s);
    if |h| == 32 && LongHex(h).Ok? {
      LongHexBound(h);
      PowLimit();
    }
  }

  /** A string with no colon, no hyphen and no brace at either end is left as
      it is by the clean-up. */
  lemma CleanedUnchanged(h: string)
    requires ':' !in h && '-' !in h && h != [] && !IsBrace(h[0]) && !IsBrace(h[|h| - 1])
    ensures Cleaned(h) == h
  {
    CleanedPlain(h);
    DropHyphensAbsent(h);
  }

  /** Hexadecimal digits behind a short prefix of `0`, `x` or `+` hold no colon
      and no hyphen. */
  lemma PrefixedPlain(q: string, d: string)
    requires forall k :: 0 <= k < |q| ==> q[k] == '0' || q[k] == 'x' || q[k] == '+'
    requires AllHex(d)
    ensures ':' !in q + d && '-' !in q + d
  {
    var h := q + d;
    forall k | 0 <= k < |h| ensures h[k] != ':' && h[k] != '-' {
      if k >= |q| {
        assert h[k] == d[k - |q|];
      }
    }
  }

  /** For instance a `0x` in front of 30 digits is accepted. */
  lemma PrefixedAccepted(d: string)
    requires |d| == 30 && AllHex(d)
    ensures Parse("0x" + d) == Ok(HexValue(d))
  {
    PrefixedPlain("0x", d);
    CleanedUnchanged("0x" + d);
    PrefixedLong(d);
    ParseIsLong("0x" + d);
  }

  lemma PrefixedLong(d: string)
    requires |d| >= 1 && AllHex(d)
    ensures LongHex("0x" + d) == Ok(HexValue(d))
  {
    var h := "0x" + d;
    assert h[0] == '0';
    assert SkipSpaces(h) == h;
    AfterNoSign(h);
    HexPrefixSkipped("0x", d);
    HexDigitsAll(d);
    LongHexVia(h, h, HexValue(d));
  }

  /** And so is a plus sign in front of 31 digits. */
  lemma SignedAccepted(d: string)
    requires |d| == 31 && AllHex(d)
    ensures Parse("+" + d) == Ok(HexValue(d))
  {
    PrefixedPlain("+", d);
    CleanedUnchanged("+" + d);
    SignedLong(d);
    ParseIsLong("+" + d);
  }

  lemma SignedLong(d: string)
    requires |d| >= 1 && AllHex(d)
    ensures LongHex("+" + d) == Ok(HexValue(d))
  {
    var h := "+" + d;
    assert h[0] == '+' && h[1..] == d;
    assert SkipSpaces(h) == h;
    assert AfterSign(h) == d by {
      assert IsHexDigit(d[0]);
    }
    assert AfterHexPrefix(d) == d by {
      if |d| >= 2 {
        assert IsHexDigit(d[1]);
      }
    }
    HexDigitsAll(d);
    LongHexVia(h, h, HexValue(d));
  }

  lemma HexBound(h: string)
    requires |h| == 32 && AllHex(h)
    ensures HexValue(h) < UUID_LIMIT
  {
    PowLimit();
  }

  /** A string of only hexadecimal digits passes through the clean-up unchanged. */
  lemma CleanedOfDigits(h: string)
    requires forall k :: 0 <= k < |h| ==> IsLowerHexDigit(h[k])
    ensures Cleaned(h) == h
  {
    assert ':' !in h by {
      forall k | 0 <= k < |h| ensures h[k] != ':' { assert IsLowerHexDigit(h[k]); }
    }
    RemoveAllAbsent(h, "urn:");
    RemoveAllAbsent(h, "uuid:");
    assert h == [] || !IsBrace(h[0]);
    assert h == [] || !IsBrace(h[|h| - 1]);
    assert '-' !in h by {
      forall k | 0 <= k < |h| ensures h[k] != '-' { assert IsLowerHexDigit(h[k]); }
    }
    DropHyphensAbsent(h);
  }

  /** The 32 digits parse back to the UUID they were printed from. */
  lemma Hex32RoundTrip(u: Uuid)
    ensures Parse(Hex32(u)) == Ok(u)
  {
    PowLimit();
    HexValueOfHex(u, 32);
    CleanedOfDigits(Hex32(u));
    ParseDigits(Hex32(u));
  }

  lemma DropOneHyphen(x: string, y: string)
    ensures DropHyphens(x + "-" + y) == DropHyphens(x) + DropHyphens(y)
  {
    var dx := DropHyphens(x);
    DropHyphensAppend(x + "-", y);
    DropHyphensAppend(x, "-");
    assert "-"[1..] == [];
    assert DropHyphens("-") == "";
    assert DropHyphens(x + "-") == dx + "" == dx;
  }

  /** Only lower-case digits and hyphens occur in `str(u)`. */
  lemma HyphenatedAlphabet(u: Uuid)
    ensures forall c :: c in Hyphenated(u) ==> c == '-' || IsLowerHexDigit(c)
  {
    var h := Hex32(u);
    assert forall c :: c in h ==> IsLowerHexDigit(c);
    forall c | c in Hyphenated(u) ensures c == '-' || IsLowerHexDigit(c) {
      assert c in h[..8] || c in h[8..12] || c in h[12..16] || c in h[16..20] || c in h[20..] || c == '-';
    }
  }

  /** So of the clean-up only the dropping of hyphens acts on it. */
  lemma HyphenatedCleaned(u: Uuid)
    ensures Cleaned(Hyphenated(u)) == DropHyphens(Hyphenated(u))
  {
    var h := Hex32(u);
    var s := Hyphenated(u);
    HyphenatedAlphabet(u);
    assert s[0] == h[0] && s[35] == h[31];
    CleanedPlain(s);
  }

  /** A string without colons and not starting or ending in a brace only
      loses its hyphens to the clean-up. */
  lemma CleanedPlain(s: string)
    requires ':' !in s && s != [] && !IsBrace(s[0]) && !IsBrace(s[|s| - 1])
    ensures Cleaned(s) == DropHyphens(s)
  {
    RemoveAllAbsent(s, "urn:");
    RemoveAllAbsent(s, "uuid:");
  }

  /** One more hyphen and group of digits: the digits read so far grow by the
      group. */
  lemma DropHyphensGroup(h: string, s: string, a: nat, b: nat)
    requires a <= b <= |h| && '-' !in h && DropHyphens(s) == h[..a]
    ensures DropHyphens(s + "-" + h[a..b]) == h[..b]
  {
    assert '-' !in h[a..b] by {
      forall k | 0 <= k < b - a ensures h[a..b][k] != '-' {
        assert h[a..b][k] == h[a + k];
      }
    }
    DropHyphensAbsent(h[a..b]);
    DropOneHyphen(s, h[a..b]);
    assert h[..a] + h[a..b] == h[..b];
  }

  /** Dropping the four hyphens of `str(u)` gives the 32 digits. */
  lemma HyphenatedDigits(u: Uuid)
    ensures DropHyphens(Hyphenated(u)) == Hex32(u)
  {
    var h := Hex32(u);
    assert '-' !in h;
    assert '-' !in h[..8];
    DropHyphensAbsent(h[..8]);
    var s1 := h[..8] + "-" + h[8..12];
    DropHyphensGroup(h, h[..8], 8, 12);
    var s2 := s1 + "-" + h[12..16];
    DropHyphensGroup(h, s1, 12, 16);
    var s3 := s2 + "-" + h[16..20];
    DropHyphensGroup(h, s2, 16, 20);
    DropHyphensGroup(h, s3, 20, 32);
    assert h[..32] == h && h[20..32] == h[20..];
  }

  /** So does the hyphenated form `str(u)`: the hyphens are dropped. */
  lemma HyphenatedRoundTrip(u: Uuid)
    ensures Parse(Hyphenated(u)) == Ok(u)
  {
    HyphenatedCleaned(u);
    HyphenatedDigits(u);
    Hex32RoundTrip(u);
    CleanedOfDigits(Hex32(u));
  }

  /** Fewer or more than 32 digits are rejected. */
  lemma WrongLengthRejected(s: string)
    requires forall k :: 0 <= k < |s| ==> IsLowerHexDigit(s[k])
    requires |s| != 32
    ensures Parse(s) == Err(ValueError)
  {
    CleanedOfDigits(s);
  }

  // ---------------------------------------------------------------------------
  // The column type.

  /** The SQL dialect the engine talks to, by its `name`. */
  datatype Dialect = Dialect(name: string)

  predicate IsPostgres(d: Dialect) { d.name == "postgresql" }

  /** What the application hands the column: `None`, a `uuid.UUID`, a string, or
      any other object (carrying what `str()` of it gives). */
  datatype BindValue =
    | NoValue
    | UuidValue(u: Uuid)
    | StrValue(s: string)
    | OtherValue(text: string)

  /** `str(value)`. */
  function Str(v: BindValue): string {
    match v
    case NoValue => "None"
    case UuidValue(u) => Hyphenated(u)
    case StrValue(s) => s
    case OtherValue(t) => t
  }

  /** `process_bind_param`: `None` stays `None`; PostgreSQL gets `str(value)`;
      elsewhere a UUID is printed as 32 hex digits and anything else is first
      given to `uuid.UUID`, which raises ValueError on a malformed string and
      AttributeError on a non-string (it calls `hex.replace`). */
  function Bind(v: BindValue, d: Dialect): (r: Result<Option<string>>)
    ensures v.NoValue? ==> r == Ok(None)
    ensures !v.NoValue? && IsPostgres(d) ==> r == Ok(Some(Str(v)))
    ensures !v.NoValue? && !IsPostgres(d) && r.Ok? ==>
      r.value.Some? && |r.value.value| == 32 &&
      forall k :: 0 <= k < 32 ==> IsLowerHexDigit(r.value.value[k])
    ensures v.UuidValue? && !IsPostgres(d) ==> r == Ok(Some(Hex32(v.u)))
    ensures v.StrValue? && !IsPostgres(d) ==> (r.Ok? <==> Parse(v.s).Ok?)
    ensures v.OtherValue? && !IsPostgres(d) ==> r == Err(AttributeError)
  {
    if v.NoValue? then Ok(None)
    else if IsPostgres(d) then Ok(Some(Str(v)))
    else if v.UuidValue? then Ok(Some(Hex32(v.u)))
    else if v.StrValue? then
      var p := Parse(v.s);
      if p.Err? then Err(p.error) else Ok(Some(Hex32(p.value)))
    else Err(AttributeError)
  }

  /** `process_result_value`: `None` stays `None`, a stored string is parsed. */
  function ReadBack(stored: Option<string>): (r: Result<Option<Uuid>>)
    ensures stored.None? ==> r == Ok(None)
    ensures stored.Some? ==> (r.Ok? <==> Parse(stored.value).Ok?)
    ensures stored.Some? && r.Ok? ==> r.value == Some(Parse(stored.value).value)
  {
    if stored.None? then Ok(None)
    else
      var p := Parse(stored.value);
      if p.Err? then Err(p.error) else Ok(Some(p.value))
  }

  /** Outside PostgreSQL, reading back a bound UUID gives the same UUID, and a
      bound string the UUID it denotes. */
  lemma BindReadRoundTrip(v: BindValue, d: Dialect)
    requires !IsPostgres(d)
    ensures v.NoValue? ==> ReadBack(Bind(v, d).value) == Ok(None)
    ensures v.UuidValue? ==> ReadBack(Bind(v, d).value) == Ok(Some(v.u))
    ensures v.StrValue? && Parse(v.s).Ok? ==> ReadBack(Bind(v, d).value) == Ok(Some(Parse(v.s).value))
  {
    match v
    case NoValue =>
    case UuidValue(u) => Hex32RoundTrip(u);
    case StrValue(s) =>
      if Parse(s).Ok? {
        Hex32RoundTrip(Parse(s).value);
      }
    case OtherValue(_) =>
  }

  /** Under PostgreSQL the bound string is the hyphenated form, and reading it
      back gives the UUID as well. */
  lemma PostgresRoundTrip(u: Uuid, d: Dialect)
    requires IsPostgres(d)
    ensures Bind(UuidValue(u), d) == Ok(Some(Hyphenated(u)))
    ensures ReadBack(Some(Hyphenated(u))) == Ok(Some(u))
  {
    HyphenatedRoundTrip(u);
  }

  /** The stored column type chosen by `load_dialect_impl`. */
  datatype ColumnType = Char(width: nat) | PgUuid | ThisDecorator

  /** morphdepot/models/utils/beanbags.py: PostgreSQL's own UUID type, or CHAR(32). */
  function LoadDialectImpl(d: Dialect): (r: ColumnType)
    ensures !IsPostgres(d) ==> r == Char(32)
    ensures IsPostgres(d) ==> r == PgUuid
  {
    if IsPostgres(d) then PgUuid else Char(32)
  }

  /** morphdepot/sa/uuid_type.py: the class name `UUID` shadows the imported
      PostgreSQL type, so that branch asks for the decorator itself. */
  function LoadDialectImplShadowed(d: Dialect): (r: ColumnType)
    ensures !IsPostgres(d) ==> r == Char(32)
    ensures IsPostgres(d) ==> r == ThisDecorator
  {
    if IsPostgres(d) then ThisDecorator else Char(32)
  }

  /** The bound string always fits the CHAR column it is stored in. */
  lemma BoundFitsColumn(v: BindValue, d: Dialect)
    requires !IsPostgres(d) && Bind(v, d).Ok? && Bind(v, d).value.Some?
    ensures |Bind(v, d).value.value| == LoadDialectImpl(d).width
  {
  }

  /** `DimensionMixin`: a row keyed by `name` with optional text columns. */
  datatype Dimension = Dimension(name: string, description: Option<string>, comment: Option<string>)

  /** `DimensionMixin.__init__`: forwards its three arguments as keywords;
      `description` and `comment` default to `None`. */
  function NewDimension(name: string, description: Option<string> := None,
                        comment: Option<string> := None): (r: Dimension)
    ensures r.name == name && r.description == description && r.comment == comment
  {
    Dimension(name, description, comment)
  }

  lemma DimensionDefaults(name: string)
    ensures NewDimension(name) == Dimension(name, None, None)
    ensures NewDimension(name, Some("d")).comment.None?
  {
  }
}
