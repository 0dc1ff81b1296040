/** The `Mode` codec of morphdepot/fshelper.py, repeated verbatim in
    morphdepot/virtfs.py: ten-character mode strings such as `drwxr-xr-x` and the
    integer bit fields of `<sys/stat.h>`. Modes are 32-bit words, the width of a
    FUSE `st_mode`. The specification predicates spell the bit masks as hex
    literals, each with the name of its `stat` constant beside it. */
module FileMode {
  import opened Common

  type Bits = bv32

  const S_IFMT: Bits := 0xF000   // 0o170000, the file-type field
  const S_IFREG: Bits := 0x8000  // 0o100000
  const S_IFDIR: Bits := 0x4000  // 0o040000
  const S_IFLNK: Bits := 0xA000  // 0o120000: shares the bit 0o100000 with S_IFREG

  const S_IRUSR: Bits := 0x100   // 0o400
  const S_IWUSR: Bits := 0x80    // 0o200
  const S_IXUSR: Bits := 0x40    // 0o100
  const S_IRGRP: Bits := 0x20    // 0o040
  const S_IWGRP: Bits := 0x10    // 0o020
  const S_IXGRP: Bits := 0x8     // 0o010
  const S_IROTH: Bits := 0x4     // 0o004
  const S_IWOTH: Bits := 0x2     // 0o002
  const S_IXOTH: Bits := 0x1     // 0o001

  /** One permission position of the pattern: its letter or a dash. */
  predicate LetterOrDash(c: char, letter: char) { c == letter || c == '-' }

  /** The nine permission positions of a ten-character string: `[r\-][w\-][x\-]`
      three times. */
  predicate PermsPattern(s: string) {
    |s| == 10 &&
    LetterOrDash(s[1], 'r') && LetterOrDash(s[2], 'w') && LetterOrDash(s[3], 'x') &&
    LetterOrDash(s[4], 'r') && LetterOrDash(s[5], 'w') && LetterOrDash(s[6], 'x') &&
    LetterOrDash(s[7], 'r') && LetterOrDash(s[8], 'w') && LetterOrDash(s[9], 'x')
  }

  /** The part of a string that `CPATTERN` has to match in full: its `$` also
      matches just before a final newline, so an eleven-character string whose
      last character is `\n` is matched on its first ten. */
  function Line(s: string): (r: string)
    ensures |s| == 10 ==> r == s
    ensures |r| == 10 ==> |s| >= 10 && forall j :: 0 <= j < 10 ==> r[j] == s[j]
  {
    if |s| == 11 && s[10] == '\n' then s[..10] else s
  }

  /** `CPATTERN`, `^[df\-]` followed by the nine permission positions and `$`. */
  predicate MatchesPattern(s: string)
    ensures MatchesPattern(s) ==> |s| == 10 || (|s| == 11 && s[10] == '\n')
    ensures MatchesPattern(s) ==> s[0] != 'l' && s[1] != 'x' && s[9] != 'r'
  {
    PermsPattern(Line(s)) && (s[0] == 'd' || s[0] == 'f' || s[0] == '-')
  }

  /** The type field the first character selects: `-` a regular file (S_IFREG),
      `d` a directory (S_IFDIR), `l` a link (S_IFLNK, a branch the pattern never
      lets through); any other character, `f` included, sets none. */
  function TypeBits(c: char): Bits {
    if c == '-' then 0x8000 else if c == 'd' then 0x4000 else if c == 'l' then 0xA000 else 0
  }

  /** `m` is the mode a ten-character string stands for: its type field is the one
      the first character selects, each permission bit is set exactly when its
      letter stands at its position, and no other bit is set. */
  predicate Describes(m: Bits, s: string)
    requires |s| == 10
  {
    m & 0xF000 == TypeBits(s[0]) &&              // S_IFMT
    (m & 0x100 != 0 <==> s[1] == 'r') &&         // S_IRUSR
    (m & 0x80 != 0 <==> s[2] == 'w') &&          // S_IWUSR
    (m & 0x40 != 0 <==> s[3] == 'x') &&          // S_IXUSR
    (m & 0x20 != 0 <==> s[4] == 'r') &&          // S_IRGRP
    (m & 0x10 != 0 <==> s[5] == 'w') &&          // S_IWGRP
    (m & 0x8 != 0 <==> s[6] == 'x') &&           // S_IXGRP
    (m & 0x4 != 0 <==> s[7] == 'r') &&           // S_IROTH
    (m & 0x2 != 0 <==> s[8] == 'w') &&           // S_IWOTH
    (m & 0x1 != 0 <==> s[9] == 'x') &&           // S_IXOTH
    m & 0xFFFF_0E00 == 0                         // every other bit
  }

  /** A string stands for one mode at most. */
  lemma DescribesUnique(a: Bits, b: Bits, s: string)
    requires |s| == 10 && Describes(a, s) && Describes(b, s)
    ensures a == b
  {
  }

  /** A final newline is let through and ignored: the string with it stands for
      the same mode as the string without it. */
  lemma NewlineIgnored(s: string)
    requires |s| == 10
    ensures MatchesPattern(s + "\n") <==> MatchesPattern(s)
    ensures Line(s + "\n") == s
  {
    assert (s + "\n")[..10] == s;
  }

  /** Any other eleventh character, and any longer or shorter string, is
      refused. */
  lemma LengthRejected(s: string)
    requires |s| != 10 && !(|s| == 11 && s[10] == '\n')
    ensures !MatchesPattern(s)
  {
  }

  /** `Mode.mode_from_str`: TypeError unless the string matches the pattern;
      otherwise the mode built by one `|=` per character: the file type, then
      the user, group and others rights. */
  method ModeFromStr(s: string) returns (r: Result<Bits>)
    ensures r.Err? <==> !MatchesPattern(s)
    ensures r.Err? ==> r.error == TypeError
    ensures r.Ok? ==> Describes(r.value, Line(s))
  {
    if !MatchesPattern(s) {
      return Err(TypeError);
    }
    var mode: Bits := 0;
    if s[0] == '-' {
      mode := mode | S_IFREG;
    } else if s[0] == 'd' {
      mode := mode | S_IFDIR;
    } else if s[0] == 'l' {
      mode := mode | S_IFLNK;
    }
    if s[1] == 'r' { mode := mode | S_IRUSR; }
    if s[2] == 'w' { mode := mode | S_IWUSR; }
    if s[3] == 'x' { mode := mode | S_IXUSR; }
    if s[4] == 'r' { mode := mode | S_IRGRP; }
    if s[5] == 'w' { mode := mode | S_IWGRP; }
    if s[6] == 'x' { mode := mode | S_IXGRP; }
    if s[7] == 'r' { mode := mode | S_IROTH; }
    if s[8] == 'w' { mode := mode | S_IWOTH; }
    if s[9] == 'x' { mode := mode | S_IXOTH; }
    return Ok(mode);
  }

  /** A permission position as printed: its letter when the bit is set. */
  function Flag(on: bool, letter: char): char { if on then letter else '-' }

  /** The first character `mode_to_string` prints: `l` whenever a bit of S_IFLNK
      is set, else `d` for the S_IFDIR bit, else `-`. */
  function TypeChar(m: Bits): char {
    if m & 0xA000 != 0 then 'l' else if m & 0x4000 != 0 then 'd' else '-'
  }

  /** The string `mode_to_string` returns for a mode: the type character, then
      each permission letter whose bit is set, a dash for each other. */
  function StringOf(m: Bits): (r: string)
    ensures |r| == 10
  {
    [TypeChar(m),
     Flag(m & 0x100 != 0, 'r'), Flag(m & 0x80 != 0, 'w'), Flag(m & 0x40 != 0, 'x'),
     Flag(m & 0x20 != 0, 'r'), Flag(m & 0x10 != 0, 'w'), Flag(m & 0x8 != 0, 'x'),
     Flag(m & 0x4 != 0, 'r'), Flag(m & 0x2 != 0, 'w'), Flag(m & 0x1 != 0, 'x')]
  }

  /** Two ten-character strings that agree at every position are equal. */
  lemma TenEqual(a: string, b: string)
    requires |a| == 10 && |b| == 10
    requires forall j :: 0 <= j < 10 ==> a[j] == b[j]
    ensures a == b
  {
  }

  /** The file-type section of `mode_to_string`: `l` when a bit of S_IFLNK is
      set, else `d` when S_IFDIR is. */
  method MarkType(listmode: string, m: Bits) returns (l: string)
    requires |listmode| == 10 && listmode[0] == '-'
    ensures |l| == 10
    ensures l[0] == TypeChar(m)
    ensures forall j :: 1 <= j < 10 ==> l[j] == listmode[j]
  {
    l := listmode;
    if m & S_IFLNK != 0 {
      l := l[0 := 'l'];
    } else if m & S_IFDIR != 0 {
      l := l[0 := 'd'];
    }
  }

  /** The user-rights section: positions 1 to 3. */
  method MarkUser(listmode: string, m: Bits) returns (l: string)
    requires |listmode| == 10 && listmode[1] == '-' && listmode[2] == '-' && listmode[3] == '-'
    ensures |l| == 10
    ensures l[1] == Flag(m & 0x100 != 0, 'r')
    ensures l[2] == Flag(m & 0x80 != 0, 'w')
    ensures l[3] == Flag(m & 0x40 != 0, 'x')
    ensures forall j :: 0 <= j < 10 && (j < 1 || 4 <= j) ==> l[j] == listmode[j]
  {
    l := listmode;
    if m & S_IRUSR != 0 { l := l[1 := 'r']; }
    if m & S_IWUSR != 0 { l := l[2 := 'w']; }
    if m & S_IXUSR != 0 { l := l[3 := 'x']; }
  }

  /** The group-rights section: positions 4 to 6. */
  method MarkGroup(listmode: string, m: Bits) returns (l: string)
    requires |listmode| == 10 && listmode[4] == '-' && listmode[5] == '-' && listmode[6] == '-'
    ensures |l| == 10
    ensures l[4] == Flag(m & 0x20 != 0, 'r')
    ensures l[5] == Flag(m & 0x10 != 0, 'w')
    ensures l[6] == Flag(m & 0x8 != 0, 'x')
    ensures forall j :: 0 <= j < 10 && (j < 4 || 7 <= j) ==> l[j] == listmode[j]
  {
    l := listmode;
    if m & S_IRGRP != 0 { l := l[4 := 'r']; }
    if m & S_IWGRP != 0 { l := l[5 := 'w']; }
    if m & S_IXGRP != 0 { l := l[6 := 'x']; }
  }

  /** The others-rights section: positions 7 to 9. */
  method MarkOthers(listmode: string, m: Bits) returns (l: string)
    requires |listmode| == 10 && listmode[7] == '-' && listmode[8] == '-' && listmode[9] == '-'
    ensures |l| == 10
    ensures l[7] == Flag(m & 0x4 != 0, 'r')
    ensures l[8] == Flag(m & 0x2 != 0, 'w')
    ensures l[9] == Flag(m & 0x1 != 0, 'x')
    ensures forall j :: 0 <= j < 7 ==> l[j] == listmode[j]
  {
    l := listmode;
    if m & S_IROTH != 0 { l := l[7 := 'r']; }
    if m & S_IWOTH != 0 { l := l[8 := 'w']; }
    if m & S_IXOTH != 0 { l := l[9 := 'x']; }
  }

  /** `Mode.mode_to_string`: ten dashes in a list, each overwritten by its letter
      when the bit it stands for is set (the file type, then the user, group and
      others rights, one step per section of the source), then joined. */
  method ModeToString(m: Bits) returns (r: string)
    ensures r == StringOf(m)
  {
    var listmode := "----------";
    listmode := MarkType(listmode, m);
    listmode := MarkUser(listmode, m);
    listmode := MarkGroup(listmode, m);
    listmode := MarkOthers(listmode, m);
    TenEqual(listmode, StringOf(m));
    r := listmode;
  }

  /** `is_file`, `is_dir`, `is_link`: the mode and-ed with S_IFREG, S_IFDIR or
      S_IFLNK is positive. A regular file tests as a file and not as a
      directory, a directory the other way round, and a link tests as a file
      too. */
  predicate IsFile(m: Bits)
    ensures m & 0xF000 == 0x8000 || m & 0xF000 == 0xA000 ==> IsFile(m)
    ensures m & 0xF000 == 0x4000 ==> !IsFile(m)
  {
    m & 0x8000 != 0
  }

  predicate IsDir(m: Bits)
    ensures m & 0xF000 == 0x4000 ==> IsDir(m)
    ensures m & 0xF000 == 0x8000 || m & 0xF000 == 0xA000 ==> !IsDir(m)
  {
    m & 0x4000 != 0
  }

  /** Since S_IFLNK shares a bit with S_IFREG, every regular file tests as a link,
      and a directory never does. */
  predicate IsLink(m: Bits)
    ensures m & 0xF000 == 0x8000 || m & 0xF000 == 0xA000 ==> IsLink(m)
    ensures m & 0xF000 == 0x4000 ==> !IsLink(m)
  {
    m & 0xA000 != 0
  }

  /** Each permission position is printed back as the string had it. */
  lemma PermPositions(m: Bits, s: string)
    requires PermsPattern(s) && Describes(m, s)
    ensures StringOf(m)[1] == s[1] && StringOf(m)[2] == s[2] && StringOf(m)[3] == s[3]
    ensures StringOf(m)[4] == s[4] && StringOf(m)[5] == s[5] && StringOf(m)[6] == s[6]
    ensures StringOf(m)[7] == s[7] && StringOf(m)[8] == s[8] && StringOf(m)[9] == s[9]
  {
  }

  /** Positions 1 to 9 survive a parse and a print: each letter is printed back
      exactly where the string had it. */
  lemma PermissionsRoundTrip(m: Bits, s: string)
    requires MatchesPattern(s) && Describes(m, Line(s))
    ensures StringOf(m)[1..] == Line(s)[1..]
  {
    PermPositions(m, Line(s));
    assert forall j :: 1 <= j < 10 ==> StringOf(m)[j] == Line(s)[j];
  }

  /** A parse followed by a print gives back the string from position 1 on, with
      first character `c`. */
  lemma PrintedAs(m: Bits, s: string, c: char)
    requires MatchesPattern(s) && Describes(m, Line(s)) && TypeChar(m) == c
    ensures StringOf(m) == [c] + Line(s)[1..]
  {
    PermissionsRoundTrip(m, s);
    TenEqual(StringOf(m), [c] + Line(s)[1..]);
  }

  /** A directory mode string comes back unchanged, without the final newline
      it may have had. */
  lemma DirectoryRoundTrip(m: Bits, s: string)
    requires MatchesPattern(s) && Describes(m, Line(s)) && s[0] == 'd'
    ensures StringOf(m) == Line(s)
  {
    PrintedAs(m, s, 'd');
  }

  /** As written, a regular-file string `-…` prints back with an `l`: the
      S_IFREG bit is one of the two bits of S_IFLNK. */
  lemma RegularPrintsAsLink(m: Bits, s: string)
    requires MatchesPattern(s) && Describes(m, Line(s)) && s[0] == '-'
    ensures StringOf(m) == ['l'] + Line(s)[1..]
  {
    PrintedAs(m, s, 'l');
  }

  /** The accepted `f` sets no type bit and prints back as `-`. */
  lemma FPrintsAsDash(m: Bits, s: string)
    requires MatchesPattern(s) && Describes(m, Line(s)) && s[0] == 'f'
    ensures StringOf(m) == ['-'] + Line(s)[1..]
  {
    PrintedAs(m, s, '-');
  }

  /** What `mode_to_string` prints for any mode with a bit of S_IFLNK, regular
      files included, starts with `l`, which `mode_from_str` rejects; and so
      its `l` branch is never reached. */
  lemma LinkStringRejected(m: Bits)
    requires IsLink(m)
    ensures !MatchesPattern(StringOf(m))
  {
  }

  /** A mode with the directory type and otherwise only permission bits prints
      as a string that parses back to it. */
  lemma DirectoryPrintParses(m: Bits)
    requires m & 0xF000 == 0x4000 && m & 0xFFFF_0E00 == 0
    ensures MatchesPattern(StringOf(m)) && Describes(m, StringOf(m))
  {
  }

  /** As written, every regular file is also a link. */
  lemma FileIsLink(m: Bits)
    requires IsFile(m)
    ensures IsLink(m)
  {
  }

  /** What a `Mode` object is given. `Mode(x)` parses a Python 2 `str` and keeps
      anything else as it is. */
  datatype ModeArg =
    | ByteString(s: string)     // a `str`
    | UnicodeString(s: string)  // a `unicode`, such as a literal under `unicode_literals`
    | Number(n: Bits)

  /** `Mode(x)`: a `str` is parsed, anything else is stored unchanged. */
  method MakeMode(x: ModeArg) returns (r: Result<ModeArg>)
    ensures x.ByteString? ==> (r.Err? <==> !MatchesPattern(x.s))
    ensures x.ByteString? && r.Ok? ==> r.value.Number? && Describes(r.value.n, Line(x.s))
    ensures !x.ByteString? ==> r == Ok(x)
  {
    if x.ByteString? {
      var m := ModeFromStr(x.s);
      if m.Err? {
        return Err(m.error);
      }
      return Ok(Number(m.value));
    }
    return Ok(x);
  }

  /** `int(mode)`: the stored number; a stored string makes `__int__` return a
      non-integer, which Python rejects with TypeError. */
  function IntOf(held: ModeArg): (r: Result<Bits>)
    ensures r.Ok? <==> held.Number?
    ensures r.Ok? ==> r.value == held.n
    ensures r.Err? ==> r.error == TypeError
  {
    if held.Number? then Ok(held.n) else Err(TypeError)
  }

  /** The default mode string of both copies. */
  const DEFAULT_MODE: string := "-rwxr-xr-x"

  /** In morphdepot/fshelper.py the default is a byte string and stands for a
      regular file with permissions 0o755 (0o100755); in morphdepot/virtfs.py
      the same literal is unicode, so it is stored as text and `int()` of it
      fails. */
  lemma DefaultModes()
    ensures MatchesPattern(DEFAULT_MODE) && Describes(0x81ED, DEFAULT_MODE)
    ensures IntOf(UnicodeString(DEFAULT_MODE)).Err?
  {
  }

  /** `int(Mode(n)) == n` for a number. */
  method NumberKept(n: Bits) returns (r: Result<Bits>)
    ensures r == Ok(n)
  {
    var held := MakeMode(Number(n));
    r := IntOf(held.value);
  }

  // ---------------------------------------------------------------------------
  // The codec as its docstrings describe it: the pattern admits `l` in place of
  // `f`, and the printer and the type tests read the whole S_IFMT field.

  predicate MatchesFixedPattern(s: string) {
    PermsPattern(Line(s)) && (s[0] == 'd' || s[0] == 'l' || s[0] == '-')
  }

  /** The type character read from the S_IFMT field. */
  function FixedTypeChar(m: Bits): char {
    if m & 0xF000 == 0xA000 then 'l' else if m & 0xF000 == 0x4000 then 'd' else '-'
  }

  function FixedStringOf(m: Bits): (r: string)
    ensures |r| == 10
  {
    [FixedTypeChar(m)] + StringOf(m)[1..]
  }

  /** A mode the codec can describe: one of the three types and otherwise only
      permission bits. */
  predicate Describable(m: Bits) {
    m & 0xFFFF_0E00 == 0 &&
    (m & 0xF000 == 0x8000 || m & 0xF000 == 0x4000 || m & 0xF000 == 0xA000)
  }

  /** With `l` accepted and the type read from the S_IFMT field, every accepted
      string comes back exactly, links and regular files included. */
  lemma FixedRoundTrip(m: Bits, s: string)
    requires MatchesFixedPattern(s) && Describes(m, Line(s))
    ensures FixedStringOf(m) == Line(s)
  {
    PermPositions(m, Line(s));
    TenEqual(FixedStringOf(m), Line(s));
  }

  /** And the other way round: every describable mode prints as an accepted
      string that stands for it. */
  lemma FixedPrintParses(m: Bits)
    requires Describable(m)
    ensures MatchesFixedPattern(FixedStringOf(m)) && Describes(m, FixedStringOf(m))
  {
  }

  /** The field-based type tests. */
  predicate FixedIsFile(m: Bits) { m & 0xF000 == 0x8000 }
  predicate FixedIsDir(m: Bits) { m & 0xF000 == 0x4000 }
  predicate FixedIsLink(m: Bits) { m & 0xF000 == 0xA000 }

  /** They separate the three types: no mode has two of them. */
  lemma FixedTypesDisjoint(m: Bits)
    ensures !(FixedIsFile(m) && FixedIsLink(m))
    ensures !(FixedIsFile(m) && FixedIsDir(m))
    ensures !(FixedIsDir(m) && FixedIsLink(m))
  {
  }
}
