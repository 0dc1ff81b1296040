# MorphDepot core, modelled in Dafny

MorphDepot stores neuron morphologies and the files that go with them. It
has a small FUSE toolkit, a FUSE filesystem backed by database paths
(`FuSQL`), SQLAlchemy models that keep file checksums, a Django app for
uploaded file folders, UUID column types, and a module that analyses the
tree of an SWC morphology. This project models the sequential core of
each of these parts and proves properties of the models.

Modules, following the source files:

- `Common` (common.dfy): Python list indexing and slicing, `str.split`
  and `"/".join`, Python 2's `int()` on a byte string (surrounding whitespace and a sign included), and the error kinds the
  source raises (`PyError`).
- `FsPath` (path.dfy), `VirtualPath` (vpath.dfy): the `Path` of
  morphdepot/fshelper.py and the `VPath` of morphdepot/virtfile.py.
- `FileMode` (mode.dfy): the `Mode` codec between ten-character mode
  strings and 32-bit `st_mode` fields. morphdepot/virtfs.py holds a second
  copy of the same class, with the same code at lines 74-155, so these
  members model both copies.
- `FileStat` (stat.dfy): the `Stat` record and its defaults, from both
  files.
- `FuseNode` (fusefile.dfy): `FuseFile` as a value tree of nodes, with
  `resolve`, `name`, `list`, `getattr`, `access` and the size rule.
- `RootDirectory` (rootdir.dfy): `RootDir` of morphdepot/fsmapping.py.
- `Dispatch` (dispatch.dfy): the default reply of every FUSE call in
  `DefaultFS`, and `MorphFS`, which answers `getattr` by resolving the path.
- `FuSql` (fusql.dfy): the `FuSQL` state machine over its list of path
  strings, with the database as a map from (table, column, row) to text.
- `InfoSerializer` (serializer.dfy): the column filters and the
  `serialize`/`deserialize` loops, with YAML as a map from names to values.
- `DiskStore` (disk.dfy) and `RawData` (rawdata.dfy): the disk as maps of
  directories and file contents, and the `NeuroRepresentation` and `File`
  models with their checksums.
- `Folders` (folders.dfy), `FolderViews` (views.dfy), `DeleteHook`
  (hooks.dfy): the Django `FileFolder` and `UploadedFile` models over a `Site`
  (the tables, the file storage and a log of the steps), the
  `add_filefolder` view and the `add_delete_on_delete` decorator.
- `UuidCodec` (uuid.dfy): the UUID column codecs of
  morphdepot/sa/uuid_type.py and morphdepot/models/utils/beanbags.py, with
  values as 128-bit naturals and the hex forms of RFC 4122 section 3, plus
  `DimensionMixin.__init__`.
- `NeuroMorph` (neuromorph.dfy): the `Morph` class and its topology
  queries over the integer columns `seg_ids` and `seg_prec_ids`.

The clock, the process uid and gid, `uuid4`, SHA-1 and the YAML codec
are parameters of the operations that use them. SHA-1 is an arbitrary
function from strings to strings: successive `update` calls are modelled
as hashing the concatenation of what was fed. Python 2's `str` is bytes;
here it is `string`.

## Model

| member | source | states |
|---|---|---|
| Common.JoinSplit | morphdepot/fshelper.py:244 | joining the pieces of `s.split("/")` with `/` gives `s` back |
| Common.SplitJoin | morphdepot/fshelper.py:260 | splitting a `/`-join of pieces that hold no `/` gives those pieces back |
| Common.SplitAround | morphdepot/fshelper.py:244 | a separator splits a string into the pieces of the text on either side of it |
| Common.SplitLength | morphdepot/virtfile.py:73 | `s.split(c)` has one piece more than `s` has occurrences of `c` |
| Common.PyIndex | morphdepot/fshelper.py:257 | an index is in range exactly when `-len <= i < len`; it then names position `i` or `len + i` |
| Common.PySlice | morphdepot/fshelper.py:259 | a slice is never longer than the list, and with bounds in range it is that sub-list |
| Common.ParseInt | morphdepot/fs/mount_morphdepot.py:208 | every failure of `int(s)` is a ValueError |
| Common.ParseIntUnsigned | morphdepot/fs/mount_morphdepot.py:208 | digits with whitespace before and after them read as the number the digits spell |
| Common.ParseIntSign | morphdepot/fs/mount_morphdepot.py:208 | a sign with whitespace around it keeps or negates what the rest reads as, and is refused exactly when the rest is |
| Common.ParseIntNoSpace | morphdepot/fs/mount_morphdepot.py:208 | without whitespace, `int(s)` succeeds exactly on one or more digits after an optional sign |
| Common.ParseIntNeedsDigit | morphdepot/fs/mount_morphdepot.py:208 | a string with no digit in it is a ValueError |
| Common.ParseIntDigits | morphdepot/fs/mount_morphdepot.py:208 | a plain digit string reads as the number it spells |
| Common.BeforeLast | morphdepot/fs/mount_morphdepot.py:209 | `rsplit(c, 1)[0]` is the prefix before the last `c`, or the whole string when there is no `c` |
| Common.AfterLast | morphdepot/fs/mount_morphdepot.py:203 | `split(c)[-1]` holds no `c`, and the string is the prefix, a `c` and this suffix |
| FsPath.FromString | morphdepot/fshelper.py:232-244 | `Path("")` raises IndexError; otherwise the segments are the non-empty `/`-pieces of the string, none empty and none holding `/` |
| FsPath.StripIsHarmless | morphdepot/fshelper.py:239-244 | stripping one leading `/` and (for more than one character) one trailing `/` does not change the segments |
| FsPath.LeadingSlashHarmless | morphdepot/fshelper.py:240-241 | a leading `/` adds no segment |
| FsPath.TrailingSlashHarmless | morphdepot/fshelper.py:242-243 | a trailing `/` adds no segment |
| FsPath.NonEmptySepFree | morphdepot/fshelper.py:244 | the kept segments hold no `/` |
| FsPath.ToString | morphdepot/fshelper.py:273-274 | `str(p)` starts with `/`, and is exactly `/` when there are no segments |
| FsPath.RoundTrip | morphdepot/fshelper.py:232-274 | `Path(str(p))` equals `p` for every constructor-built path |
| FsPath.ParseJoin | morphdepot/fshelper.py:256-260 | rebuilding a path from a joined selection raises exactly when the selection joins to the empty string, and otherwise keeps its non-empty segments |
| FsPath.IndexLaw | morphdepot/fshelper.py:246-260 | `p[i]` succeeds exactly for `-len <= i < len` and gives the one-segment path of that segment |
| FsPath.SliceLaw | morphdepot/fshelper.py:256-260 | `p[lo:hi]` succeeds exactly when the selection is not empty and gives those segments |
| FsPath.TailOfSingleFails | morphdepot/fshelper.py:256-260 | `p[1:]` of a one-segment path raises, which is why `resolve` special-cases it |
| FsPath.AddLaw | morphdepot/fshelper.py:265-268 | `a + str(b)` has the segments of `a` then those of `b`, and raises only when both are empty |
| FsPath.Index | morphdepot/fshelper.py:246-260 | an out-of-range index is an IndexError, every error is one, and a result is a well-formed path |
| FsPath.Slice | morphdepot/fshelper.py:246-260 | an empty selection is an IndexError, every error is one, and a result is a well-formed path |
| FsPath.Add | morphdepot/fshelper.py:265-268 | adding "" is an IndexError, every error is one, and a result is a well-formed path |
| FsPath.SetItem | morphdepot/fshelper.py:262-263 | succeeds exactly for an in-range index (else IndexError), keeps the length, puts the value at that index and leaves the other segments |
| FsPath.Len | morphdepot/fshelper.py:270-271 | a well-formed path has length 0 exactly when it prints as `/` |
| VirtualPath.FromString | morphdepot/virtfile.py:61-73 | `VPath("")` and `VPath("/")` raise IndexError; otherwise the string is the optional slashes around the `/`-join of at least one slash-free segment |
| VirtualPath.ToString | morphdepot/virtfile.py:94-95 | `str(v)` starts with `/` |
| VirtualPath.Len | morphdepot/virtfile.py:91-92 | `len(v)` is zero exactly for no segments, and every integer index that `v[i]` accepts lies in `-len(v) <= i < len(v)` |
| VirtualPath.LenOfParsed | morphdepot/virtfile.py:61-73 | `len(VPath(s))` is at least 1 and is one more than the slashes of `s` not counting the stripped leading and trailing one |
| VirtualPath.EmptySegmentKept | morphdepot/virtfile.py:73 | `a//b` has three segments, the middle one empty |
| VirtualPath.JoinLastChar | morphdepot/virtfile.py:71-95 | a join ending in a non-empty segment ends in that segment's last character, so no trailing `/` is stripped from it |
| VirtualPath.RoundTrip | morphdepot/virtfile.py:68-95 | `VPath(str(v))` equals `v` when the last segment is not empty |
| VirtualPath.RoundTripLostOnEmptyLast | morphdepot/virtfile.py:71-95 | with an empty last segment the round trip loses that segment |
| VirtualPath.IndexLaw | morphdepot/virtfile.py:85-89 | an in-range integer index selecting a non-empty segment gives the one-segment path of it |
| VirtualPath.EmptySelectionFails | morphdepot/virtfile.py:85-89 | a selection that joins to the empty string raises IndexError |
| VirtualPath.Index | morphdepot/virtfile.py:80-89 | an out-of-range index is an IndexError, every error is one, and a result has at least one segment and no `/` inside a segment |
| VirtualPath.Slice | morphdepot/virtfile.py:80-89 | every error is an IndexError, and a result has at least one segment and no `/` inside a segment |
| VirtualPath.SliceLaw | morphdepot/virtfile.py:80-89 | a selection starting and ending with a non-empty segment comes back as exactly the selected segments |
| VirtualPath.Readlink | morphdepot/virtfile.py:40-46 | `readlink` is always `-EOPNOTSUPP` |
| FileMode.ModeFromStr | morphdepot/fshelper.py:408-450 | TypeError exactly when the string does not match `CPATTERN` (whose `$` lets one final newline through); otherwise the mode the first ten characters stand for (type from position 0, one bit per permission letter) |
| FileMode.Line | morphdepot/fshelper.py:354 | a ten-character string is matched whole; a ten-character result is the first ten characters of the input |
| FileMode.MatchesPattern | morphdepot/fshelper.py:354 | a match has ten characters, or eleven ending in a newline; it never starts with `l`, and positions 1 and 9 never hold `x` and `r` |
| FileMode.NewlineIgnored | morphdepot/fshelper.py:419 | one final newline changes neither whether the string matches nor the ten characters read |
| FileMode.LengthRejected | morphdepot/fshelper.py:354 | any other length, or an eleventh character that is not a newline, does not match |
| FileMode.IsFile | morphdepot/fshelper.py:368-374 | a regular file or a link tests as a file, a directory does not |
| FileMode.IsDir | morphdepot/fshelper.py:376-382 | a directory tests as a directory, a regular file or a link does not |
| FileMode.IsLink | morphdepot/fshelper.py:384-390 | a link and also every regular file test as a link, since S_IFLNK shares a bit with S_IFREG; a directory does not |
| FileMode.DescribesUnique | morphdepot/fshelper.py:417-450 | a string stands for at most one mode |
| FileMode.MarkType | morphdepot/fshelper.py:462-467 | the type section sets position 0 to `l`, `d` or `-` and leaves the rest |
| FileMode.MarkUser | morphdepot/fshelper.py:469-474 | positions 1-3 are the letters of the set user bits and nothing else changes |
| FileMode.MarkGroup | morphdepot/fshelper.py:476-481 | positions 4-6 are the letters of the set group bits and nothing else changes |
| FileMode.MarkOthers | morphdepot/fshelper.py:483-488 | positions 7-9 are the letters of the set others bits and nothing else changes |
| FileMode.ModeToString | morphdepot/fshelper.py:452-489 | the printed ten characters are the type character followed by the nine permission flags |
| FileMode.StringOf | morphdepot/fshelper.py:462-489 | the printed mode has ten characters |
| FileMode.PermPositions | morphdepot/fshelper.py:429-488 | each permission position of an accepted string is printed back unchanged |
| FileMode.PermissionsRoundTrip | morphdepot/fshelper.py:429-488 | for a matching string without a final newline, `mode_to_string(mode_from_str(s))` agrees with `s` from position 1 on |
| FileMode.PrintedAs | morphdepot/fshelper.py:408-489 | the round trip gives the printed type character followed by `s[1:]` |
| FileMode.DirectoryRoundTrip | morphdepot/fshelper.py:424-467 | a matching `d...` string without a final newline comes back unchanged |
| FileMode.RegularPrintsAsLink | morphdepot/fshelper.py:422-465 | a `-...` string comes back with `l` in front, since S_IFREG shares a bit with S_IFLNK |
| FileMode.FPrintsAsDash | morphdepot/fshelper.py:422-467 | the accepted `f` sets no type bit and comes back as `-` |
| FileMode.LinkStringRejected | morphdepot/fshelper.py:464-465 | what any mode with an S_IFLNK bit prints is rejected by `CPATTERN` |
| FileMode.DirectoryPrintParses | morphdepot/fshelper.py:466-489 | a directory mode with only permission bits prints as a string that parses back to it |
| FileMode.FileIsLink | morphdepot/fshelper.py:368-390 | `is_link` holds for every mode for which `is_file` holds |
| FileMode.MakeMode | morphdepot/fshelper.py:356-366 | `Mode(x)` parses a byte string (TypeError when it does not match, a final newline allowed) and stores anything else unchanged |
| FileMode.IntOf | morphdepot/fshelper.py:395-396 | `int(mode)` gives the stored number; a stored string is a TypeError |
| FileMode.NumberKept | morphdepot/virtfs.py:78-85 | `int(Mode(n)) == n` for a number |
| FileMode.DefaultModes | morphdepot/virtfs.py:78-85 | the byte-string default `-rwxr-xr-x` is mode 0o100755; the unicode default of the second copy is stored unparsed, so `int` of it fails |
| FileMode.FixedStringOf | morphdepot/fshelper.py:452-489 | the corrected printer gives ten characters |
| FileMode.FixedRoundTrip | morphdepot/fshelper.py:354-489 | with `l` accepted and the type read from the S_IFMT field, every accepted string without a final newline round-trips exactly |
| FileMode.FixedPrintParses | morphdepot/fshelper.py:354-489 | every describable mode prints as an accepted string that parses back to it |
| FileMode.FixedTypesDisjoint | morphdepot/fshelper.py:368-390 | the field-based type tests never hold two at once |
| FileStat.MakeStat | morphdepot/fshelper.py:288-310 | mode and size as given, `nlink` defaulting to 1, owner ids replaced by the process ids only when None, unset times set to now |
| FileStat.OrNow | morphdepot/fshelper.py:307-310 | a timestamp passed is kept; a missing one is now |
| FileStat.ZeroOwnerKept | morphdepot/fshelper.py:305-306 | an owner id of 0 is kept |
| FileStat.AllDefaults | morphdepot/fshelper.py:288-310 | with no optional argument: one link, the process ids and `now` for each time |
| FileStat.Ino | morphdepot/virtfs.py:41-43 | `st_ino` is always 0 |
| FileStat.Dev | morphdepot/virtfs.py:45-47 | `st_dev` is always 0 |
| FuseNode.Name | morphdepot/fshelper.py:49-55 | `name` is `/` for a path of no segments and the last segment otherwise |
| FuseNode.NameIsSlashOnlyAtRoot | morphdepot/fshelper.py:49-55 | for a constructor-built path, `name` is `/` exactly at the root |
| FuseNode.List | morphdepot/fshelper.py:167-176 | a node's `list()` is its own entries when it overrides `list`, otherwise `.` and `..` for a directory and `-EOPNOTSUPP` for anything else |
| FuseNode.Matching | morphdepot/fshelper.py:99 | the comprehension keeps exactly the listed entries whose `name` equals the segment |
| FuseNode.RootHasNoSegments | morphdepot/fshelper.py:101-102 | `Path('/')` has no segments, so the recursive call stops there |
| FuseNode.ResolveIsWalk | morphdepot/fshelper.py:92-107 | `resolve(s)` walks the segments of `Path(s)` from this node, one unique match per segment |
| FuseNode.Resolve | morphdepot/fshelper.py:92-107 | "" raises IndexError, a path of no segments is the node itself, and every error is an IndexError, TypeError or AttributeError |
| FuseNode.ResolveEmpty | morphdepot/fshelper.py:93-95 | a path of no segments resolves to the node itself |
| FuseNode.ResolveStep | morphdepot/fshelper.py:98-105 | with exactly one entry named as the first segment, `resolve` recurses into it with the rest of the path |
| FuseNode.ResolveNotUnique | morphdepot/fshelper.py:99-107 | when zero or several entries match the first segment, `resolve` returns None |
| FuseNode.WalkFoundName | morphdepot/fshelper.py:92-107 | a node found by a walk is named as the last segment walked |
| FuseNode.ResolvedName | morphdepot/fshelper.py:92-107 | a node `resolve` finds for a non-empty path is named as that path's last segment |
| FuseNode.Len | morphdepot/fshelper.py:205-217 | the size is 4096 for a directory, `len(read())` for content, and 0 when `read` is `-EOPNOTSUPP` |
| FuseNode.Getattr | morphdepot/fshelper.py:109-116 | `getattr` reports the node's mode, its size, its owner ids and one link |
| FuseNode.Access | morphdepot/fshelper.py:118-136 | `access` is always 0 |
| FuseNode.FuseFile.constructor | morphdepot/fshelper.py:28-35 | the fields as `__init__` leaves them once both setters succeed |
| FuseNode.FuseFile.Create | morphdepot/fshelper.py:28-35 | `FuseFile(...)` fails exactly when a setter raises: IndexError for an empty path (checked first), else the error of `int(mode)`; a built node holds the given fields |
| FuseNode.FuseFile.SetPath | morphdepot/fshelper.py:45-47 | the path setter parses the string (IndexError on `""`, nothing changed) and changes nothing else |
| FuseNode.FuseFile.SetName | morphdepot/fshelper.py:57-60 | a name without `/` replaces the last segment of a non-root path; otherwise nothing changes |
| FuseNode.FuseFile.SetMode | morphdepot/fshelper.py:67-69 | `Mode(int(mode))`: a number is kept, a held number is read, a string is read by `int` (ValueError otherwise), a held mode string is a TypeError; on error nothing changes |
| FuseNode.IntOfInput | morphdepot/fshelper.py:67-69 | `int(mode)` of a held mode succeeds exactly when it holds a number, of a string exactly when `int` reads it; errors are TypeError and ValueError respectively |
| FuseNode.IntOfInputLaw | morphdepot/fshelper.py:67-69 | numbers and held numbers keep their value; a string with no digit, such as "/" or "drwxr-xr-x", is a ValueError |
| FuseNode.IntOfDecimalText | morphdepot/fshelper.py:67-69 | a decimal string, with or without whitespace around it, sets the low 32 bits of the number it spells |
| FuseNode.FuseFile.SetOwner | morphdepot/fshelper.py:76-87 | the `uid` and `gid` setters replace the owner ids only |
| RootDirectory.Named | morphdepot/fsmapping.py:25 | the comprehension keeps exactly the entries whose name compares equal with `p[0]` |
| RootDirectory.ResolveNeverMatches | morphdepot/fsmapping.py:17-28 | as written, `resolve` raises on `""`, gives the root for no segments, and None for every other path, because a `Path` never equals a name string |
| RootDirectory.EntriesDistinct | morphdepot/fsmapping.py:13-15 | `list` gives `.`, `..`, `scientists`, `experiments`, `options`, all distinct |
| RootDirectory.NamedOfDistinct | morphdepot/fsmapping.py:25-27 | in a list of distinct names, a name matches exactly one entry |
| RootDirectory.FixedResolveLaw | morphdepot/fsmapping.py:17-28 | comparing the first segment as a string, `resolve` gives the root, the one matching entry, or None; it never descends |
| RootDirectory.FixedResolvesEntries | morphdepot/fsmapping.py:13-27 | the corrected `resolve` finds each of `scientists`, `experiments` and `options` |
| RootDirectory.FixedResolvesRoot | morphdepot/fsmapping.py:19-22 | `/` resolves to the root |
| RootDirectory.SegmentOf | morphdepot/fsmapping.py:19 | `/name` is the one-segment path `name` |
| RootDirectory.Resolve | morphdepot/fsmapping.py:17-28 | "" raises IndexError, every error is an IndexError, and a found entry is one of the root names |
| RootDirectory.FixedResolve | morphdepot/fsmapping.py:17-28 | raises exactly for "", and only IndexError; a found entry is the first segment of the path and one of the root names |
| RootDirectory.NewRoot | morphdepot/fsmapping.py:9-10 | `RootDir()` as written raises ValueError and builds no node |
| RootDirectory.NewFixedRoot | morphdepot/fsmapping.py:9-10 | with a directory mode the root node is the fixed root FIXED_ROOT |
| RootDirectory.FixedRootShape | morphdepot/fsmapping.py:9-15 | the fixed root is a directory named "/" of directory size listing the root names in order, and `getattr` reports mode 0o040755 |
| Dispatch.DefaultFS | morphdepot/defaultfs.py:69-431 | `getattr` is `-ENOENT`, `access` `-EACCES`, `opendir` 0 exactly for `/`, `readdir` `.` and `..` only for `/`, `statfs` an empty `StatVfs`, and every unsupported call `-EOPNOTSUPP` |
| Dispatch.FgetattrDelegates | morphdepot/defaultfs.py:103-119 | `fgetattr` answers as `getattr`, and `utime` as `utimes` |
| Dispatch.MorphFS.constructor | morphdepot/morphfs.py:17-20 | the root is built once, and it is the fixed directory root FIXED_ROOT |
| Dispatch.MorphFS.GetattrLaw | morphdepot/morphfs.py:26-32 | `getattr` of the root path is the root's `getattr()`, and of any other path `-ENOENT`, because the root's `resolve` never matches below it |
| Dispatch.MorphFS.InheritsDefaults | morphdepot/morphfs.py:12-32 | `getattr` and `fgetattr` go through the root; every other call answers as `DefaultFS` |
| Dispatch.Default | morphdepot/defaultfs.py:69-431 | `fgetattr` answers as `getattr`; every other default call returns without raising |
| Dispatch.MorphFS.Getattr | morphdepot/morphfs.py:26-32 | raises exactly for "", with IndexError; otherwise the node's attributes or `-ENOENT` |
| Dispatch.MorphFS.Handle | morphdepot/morphfs.py:12-32 | `getattr` and `fgetattr` go to the root's `getattr`; every other call is the default one |
| FuSql.MakeMetadata | morphdepot/fs/mount_morphdepot.py:22-40 | a directory gets S_IFDIR and two links, a file S_IFREG and one link, over the given permissions; size 0, the clock and the process ids |
| FuSql.SharedModes | morphdepot/fs/mount_morphdepot.py:49-54 | the shared directory mode is 0o40755 and the file mode 0o100644 |
| FuSql.ColumnBlock | morphdepot/fs/mount_morphdepot.py:72-78 | each row gets `uuid.txt` and `label.txt` |
| FuSql.RowBlock | morphdepot/fs/mount_morphdepot.py:68-78 | each table gets nine paths, all below it |
| FuSql.InitialPathsLaw | morphdepot/fs/mount_morphdepot.py:57-78 | the initial list has `1 + 10 * captions` paths, all absolute, with `/caption` for each table |
| FuSql.InitialPaths | morphdepot/fs/mount_morphdepot.py:57-78 | the list starts with `/` |
| FuSql.AppendColumns | morphdepot/fs/mount_morphdepot.py:72-78 | the column loop appends the column paths of one row |
| FuSql.AppendRows | morphdepot/fs/mount_morphdepot.py:68-78 | the row loop appends the row and column paths of one table |
| FuSql.BuildPaths | morphdepot/fs/mount_morphdepot.py:57-78 | the constructor's loops build exactly the initial path list |
| FuSql.FuSQL.constructor | morphdepot/fs/mount_morphdepot.py:44-78 | the paths are the initial list, the shared metadata is built, and no database call has been made |
| FuSql.FuSQL.Mkdir | morphdepot/fs/mount_morphdepot.py:80-129 | two components register the scientist, append its path and give 0; three give 0 and change nothing; anything else gives `-EFAULT` |
| FuSql.PathOfTwoPieces | morphdepot/fs/mount_morphdepot.py:89-93 | the appended `"/" + spath[1]` is the path itself, so a new table directory is listed |
| FuSql.FuSQL.Getattr | morphdepot/fs/mount_morphdepot.py:131-155 | `-ENOENT` exactly for unknown paths; a four-component path gets the shared file metadata with size 7; any other known path the directory metadata |
| FuSql.Read | morphdepot/fs/mount_morphdepot.py:180-192 | IndexError for fewer than four components; otherwise `data[offset:offset+size]`, never longer than `size` |
| FuSql.SliceLengthAtMost | morphdepot/fs/mount_morphdepot.py:190 | a slice `s[lo:lo+size]` is at most `size` long |
| FuSql.Key | morphdepot/fs/mount_morphdepot.py:249-253 | the table, column and row a path names; ValueError when the row is not an `int()` literal, IndexError when components are missing |
| FuSql.TruncatedLaw | morphdepot/fs/mount_morphdepot.py:255-261 | the truncated value has exactly `size` characters: the old ones, then `'0'` padding |
| FuSql.Truncated | morphdepot/fs/mount_morphdepot.py:255-261 | shrinking keeps a prefix of the old value; growing keeps the old value as the prefix of a value of exactly `size` characters |
| FuSql.FuSQL.Truncate | morphdepot/fs/mount_morphdepot.py:247-265 | the stored value becomes the truncated old value and the result is 0; a bad path or missing value raises and changes nothing |
| FuSql.SplicedInPlace | morphdepot/fs/mount_morphdepot.py:241 | within the old value, the write keeps the prefix, places `buf` at `offset` and keeps the rest |
| FuSql.Spliced | morphdepot/fs/mount_morphdepot.py:241 | the result is at least as long as the write, and a write at an offset inside the old value puts the written bytes at that offset |
| FuSql.SplicedGapLost | morphdepot/fs/mount_morphdepot.py:238-241 | as written, a write starting beyond the end stores the old value followed directly by `buf` |
| FuSql.SplicedGapExample | morphdepot/fs/mount_morphdepot.py:238-243 | writing `x` at 4 into `ab` stores `abx` |
| FuSql.FuSQL.Write | morphdepot/fs/mount_morphdepot.py:225-245 | the stored value becomes `prev[:offset] + buf + prev[offset+len(buf):]` of the value read first, and the result is `len(buf)` |
| FuSql.FixedSplicedLaw | morphdepot/fs/mount_morphdepot.py:238-243 | with the padded value spliced, `buf` sits at `offset` and everything before it is the old value or `'0'` padding |
| FuSql.FixedAgreesInside | morphdepot/fs/mount_morphdepot.py:238-241 | within the old value the corrected write and the original agree |
| FuSql.FuSQL.FixedWrite | morphdepot/fs/mount_morphdepot.py:225-245 | the corrected write stores the padded splice and returns `len(buf)` |
| FuSql.NewColumnFilesLaw | morphdepot/fs/mount_morphdepot.py:214-221 | the new paths all lie below `/table/`, one for every path already below it |
| FuSql.NewColumnFiles | morphdepot/fs/mount_morphdepot.py:214-221 | never more paths than before, and none when no path lies below `/table/` |
| FuSql.FuSQL.Mknod | morphdepot/fs/mount_morphdepot.py:194-223 | `-EPERM` unless four components and a known extension; a bad row id raises; otherwise the column is created and `paths` only grows by the new column files |
| FuSql.RenameDecision | morphdepot/fs/mount_morphdepot.py:271-296 | `-EINVAL` on a depth mismatch or a cross-table row rename; a row rename sets the row id, any other rename renames the table |
| FuSql.IndexOf | morphdepot/fs/mount_morphdepot.py:359 | a found position is where the separator occurs |
| FuSql.ChildNameIsNextSegment | morphdepot/fs/mount_morphdepot.py:357-360 | the name listed for a path below the directory is its next segment |
| FuSql.DirBase | morphdepot/fs/mount_morphdepot.py:354-355 | the prefix matched is never empty |
| FuSql.AddNamesLaw | morphdepot/fs/mount_morphdepot.py:357-363 | the loop keeps what it has, adds no duplicate, adds only names of paths below, and adds every such name |
| FuSql.ListingLaw | morphdepot/fs/mount_morphdepot.py:350-366 | `readdir` yields `.` and `..` first, then each next segment below the path once |
| FuSql.Listing | morphdepot/fs/mount_morphdepot.py:351-366 | the listing starts with `.` and `..` |
| FuSql.FuSQL.Readdir | morphdepot/fs/mount_morphdepot.py:350-366 | the entries yielded are exactly that listing |
| FuSql.RemoveFirst | morphdepot/fs/mount_morphdepot.py:333 | `list.remove(x)` drops one occurrence of `x` |
| FuSql.RemoveWalkLaw | morphdepot/fs/mount_morphdepot.py:330-333 | `remove_paths` only removes paths with the prefix, and keeps every other path as often as it was there |
| FuSql.RemoveWalk | morphdepot/fs/mount_morphdepot.py:330-333 | the kept paths are among the old ones and never more of them |
| FuSql.RemoveWalkSkips | morphdepot/fs/mount_morphdepot.py:330-333 | as written, of two consecutive matching paths the second survives |
| FuSql.FuSQL.RemovePaths | morphdepot/fs/mount_morphdepot.py:330-333 | removing while iterating leaves the list of the index-based walk |
| FuSql.WithoutStep | morphdepot/fs/mount_morphdepot.py:330-333 | filtering a suffix drops its first path exactly when that path has the prefix |
| FuSql.KeepOutside | morphdepot/fs/mount_morphdepot.py:330-333 | the corrected loop keeps exactly the paths without the prefix |
| FuSql.WithoutExcludes | morphdepot/fs/mount_morphdepot.py:330-333 | no path with the prefix is left |
| FuSql.WithoutCounts | morphdepot/fs/mount_morphdepot.py:330-333 | every path without the prefix is kept as often as it was there |
| FuSql.Without | morphdepot/fs/mount_morphdepot.py:330-333 | the kept paths are among the old ones and never more of them |
| FuSql.FuSQL.FixedRemovePaths | morphdepot/fs/mount_morphdepot.py:330-333 | the corrected removal leaves exactly the paths without the prefix |
| FuSql.FuSQL.Rmdir | morphdepot/fs/mount_morphdepot.py:318-348 | a non-empty table gives `-ENOTEMPTY` and leaves `paths`; an empty table or a row is deleted and its paths removed; short, deep or non-numeric paths raise |
| FuSql.Accepted | morphdepot/fs/mount_morphdepot.py:267-269 | `unlink` (and `open`, `chmod`, `chown`, `utime`, `release`) is always 0 |
| InfoSerializer.FilterLaw | morphdepot/serializer.py:59-77 | `id`, `mtime`, `ctime` and `dto_type` are never deserializable; a column that is not serializable (a foreign key not typed `String`) is not deserializable either; deserializable means serializable and not reserved |
| InfoSerializer.IsSerializable | morphdepot/serializer.py:59-66 | string columns and columns without foreign keys are serialized |
| InfoSerializer.IsDeserializable | morphdepot/serializer.py:68-77 | a deserialized column is serializable and not a reserved name |
| InfoSerializer.Serialized | morphdepot/serializer.py:44-55 | every key of the dictionary is an attribute, with that attribute's value |
| InfoSerializer.Deserialized | morphdepot/serializer.py:24-33 | every default key is present and no other key but a parsed one; each value is the default or the parsed one |
| InfoSerializer.SerializedLaw | morphdepot/serializer.py:44-55 | as written, the mapping holds exactly the columns that are NOT serializable, each with the object's attribute value |
| InfoSerializer.FixedSerializedLaw | morphdepot/serializer.py:44-55 | with the skip condition the comment describes, the mapping holds exactly the serializable columns, with their values |
| InfoSerializer.DeserializedLaw | morphdepot/serializer.py:24-33 | a deserializable column named in the parsed mapping takes the parsed value; every other attribute keeps the `model()` default |
| InfoSerializer.SerializeRoundTripAsWritten | morphdepot/serializer.py:24-57 | as written, deserializing what `serialize` emits restores nothing: the object equals a fresh `model()` |
| InfoSerializer.SerializeRoundTripFixed | morphdepot/serializer.py:24-57 | with the corrected skip, deserializing the serialized mapping restores every deserializable attribute |
| InfoSerializer.Instance.constructor | morphdepot/serializer.py:25 | `model()` holds the class defaults |
| InfoSerializer.Serialize | morphdepot/serializer.py:35-57 | the loop over the columns builds exactly the as-written mapping |
| InfoSerializer.FixedSerialize | morphdepot/serializer.py:35-57 | the loop with the corrected skip builds exactly the corrected mapping |
| InfoSerializer.Deserialize | morphdepot/serializer.py:14-33 | a fresh instance whose attributes are the defaults overridden by the accepted parsed values |
| RawData.Fed | morphdepot/models/core.py:179-182 | successive `update` calls hash a value exactly when every argument is present (a None raises) |
| RawData.FedAppend | morphdepot/models/core.py:180-181 | one more `update(x)` extends what is hashed by `x` |
| RawData.FedOfPresent | morphdepot/models/core.py:179-182 | with all checksums present, the hash input is their concatenation in list order |
| RawData.Checksums | morphdepot/models/core.py:180-181 | one checksum per file, in list order |
| RawData.ChecksumsAppend | morphdepot/models/core.py:200 | appending a file appends its checksum |
| RawData.ChecksumAt | morphdepot/models/core.py:180-181 | entry `k` is file `k`'s checksum |
| RawData.IdText | morphdepot/models/core.py:186 | `str(self.id)` holds no `/`, so it names a single folder |
| RawData.IdFolderLaw | morphdepot/models/core.py:185-186 | the container folder is `root_dir/str(id)`: its base name is the hyphenated id and its parent the root directory |
| RawData.FilePathLaw | morphdepot/models/core.py:241-242 | a file's path is its container's folder joined with `file_name` |
| RawData.File.constructor | morphdepot/models/core.py:191-198 | the row carries the name, the stat times, block size and size, no checksum and no container |
| RawData.File.UpdateChecksum | morphdepot/models/core.py:244-250 | the file checksum becomes SHA-1 of the bytes at the file's path, then the container checksum is recomputed; a missing file raises IOError and changes nothing |
| RawData.File.DeleteFile | morphdepot/models/core.py:253-257 | the blob at the file's path is removed (OSError when there is none) and no folder changes |
| RawData.NeuroRepresentation.Init | morphdepot/models/core.py:153-157 | the label is set, the checksum is SHA-1 of empty input, the drawn uuid is the id, then the folder `root_dir/id` is created with its missing ancestors (OSError when it exists or lies under a file) |
| RawData.NeuroRepresentation.UpdateChecksum | morphdepot/models/core.py:177-182 | the checksum becomes SHA-1 of the files' checksums concatenated in list order; a file without one raises TypeError and keeps the old checksum |
| RawData.NeuroRepresentation.Attach | morphdepot/models/core.py:191-200 | exactly one new `File` is appended, linked to this container and carrying the given name, times and size |
| RawData.NeuroRepresentation.AddFile | morphdepot/models/core.py:188-203 | a missing source raises OSError; otherwise one `File` named by the basename and carrying the source size (`dirSize` for a folder) is appended; a folder source then raises IOError, a file already in the folder under its own name raises `shutil.Error` with the container checksum unchanged, any other file is copied under that name, the file checksum is SHA-1 of the copy and the container checksum includes it; when a sub-folder already has that name, `copy2` writes into it (or fails and changes nothing) and the hash then raises IOError with both checksums unchanged |
| RawData.NeuroRepresentation.CopyIn | morphdepot/models/core.py:201-202 | copying the source onto itself raises `shutil.Error` and changes neither the disk nor a checksum; otherwise the copy writes the source bytes at the file's path and both checksums are recomputed, or, when that path is a folder, at the source's name inside it if that can be written (nothing changes if not); in every other case IOError with both checksums unchanged |
| RawData.NeuroRepresentation.AutoDeleteDirectory | morphdepot/models/core.py:205-208 | the folder is removed exactly when it exists and is empty; otherwise OSError and nothing changes |
| DiskStore.PathJoin | morphdepot/models/core.py:186 | `os.path.join(a, b)` is `b` for an absolute `b` and otherwise ends in `b` |
| DiskStore.Basename | morphdepot/models/core.py:189 | `os.path.basename` holds no `/` |
| DiskStore.BasenameOfJoin | morphdepot/models/core.py:189-201 | the base name of `join(a, b)` is `b` for a plain name `b` |
| DiskStore.DirnameOfJoin | morphdepot/models/core.py:241-242 | the folder of `join(a, b)` is `a` |
| DiskStore.Up | morphdepot/models/core.py:157 | the parent `os.makedirs` looks at is shorter than the path |
| DiskStore.MissingLaw | morphdepot/models/core.py:157 | the folders `os.makedirs` creates are all missing, the ancestor it stops at exists, and the parent is one or the other |
| DiskStore.Disk.constructor | morphdepot/models/core.py:157 | the disk holds the given disjoint folders and files and is consistent from the start |
| DiskStore.Disk.Read | morphdepot/models/core.py:245-247 | reading gives the stored bytes, or IOError when there is no such file |
| DiskStore.Disk.MakeDirs | morphdepot/models/core.py:157 | `os.makedirs` creates the missing ancestors and the folder; OSError when the path exists or its nearest existing ancestor is a file |
| DiskStore.Disk.RemoveDir | morphdepot/models/core.py:208 | `os.rmdir` removes an existing empty folder, otherwise OSError and nothing changes |
| DiskStore.Disk.Remove | morphdepot/models/core.py:255 | `os.remove` removes an existing file, otherwise OSError and nothing changes |
| DiskStore.Disk.Copy | morphdepot/models/core.py:201 | `shutil.copy2` raises `shutil.Error` when its target is the source file itself; otherwise it writes the source bytes at the target (the source's base name inside a folder `dst`) when the source is a file, the target is no folder and its folder exists, and raises IOError else; the folders never change |
| RawData.File.AbsPath | morphdepot/models/core.py:241-242 | the path is defined exactly when the file is attached to a container |
| RawData.NeuroRepresentation.Blank | morphdepot/models/core.py:153-157 | the label and root directory are set; no checksum, no id and no files yet |
| UuidCodec.HexChar | morphdepot/sa/uuid_type.py:35 | a digit below 16 is printed as one lower-case hex digit |
| UuidCodec.DigitOfChar | morphdepot/sa/uuid_type.py:35-44 | reading back a printed digit gives the digit |
| UuidCodec.Hex | morphdepot/sa/uuid_type.py:35 | `%.Nx` of a value below 16^N gives exactly N lower-case hex digits |
| UuidCodec.HexValueOfHex | morphdepot/sa/uuid_type.py:35-44 | the hex value of the printed digits is the number printed |
| UuidCodec.Hex32 | morphdepot/sa/uuid_type.py:33-38 | the non-postgres bound form is exactly 32 lower-case, zero-padded hex digits |
| UuidCodec.Hyphenated | morphdepot/sa/uuid_type.py:31-32 | `str(uuid)` has 36 characters, with hyphens at 8, 13, 18 and 23 |
| UuidCodec.HyphenatedAlphabet | morphdepot/sa/uuid_type.py:31-32 | `str(uuid)` holds only hyphens and lower-case hex digits |
| UuidCodec.HyphenatedDigits | morphdepot/sa/uuid_type.py:31-38 | `str(uuid)` without its hyphens is the 32-digit bound form |
| UuidCodec.DropHyphensGroup | morphdepot/sa/uuid_type.py:31-32 | dropping the hyphens of one more group extends the digits by that group |
| UuidCodec.DropOneHyphen | morphdepot/sa/uuid_type.py:31-32 | dropping hyphens around one hyphen keeps the text on both sides |
| UuidCodec.DropHyphens | morphdepot/sa/uuid_type.py:44 | `uuid.UUID` drops every hyphen of its input |
| UuidCodec.DropHyphensAppend | morphdepot/sa/uuid_type.py:44 | dropping hyphens distributes over concatenation |
| UuidCodec.DropHyphensAbsent | morphdepot/sa/uuid_type.py:44 | a string without hyphens is left as it is |
| UuidCodec.RemoveAllAbsent | morphdepot/sa/uuid_type.py:44 | removing a pattern whose last character is absent leaves the string |
| UuidCodec.CleanedPlain | morphdepot/sa/uuid_type.py:44 | for text without `urn:uuid:` or braces, the cleaning `uuid.UUID` does only drops hyphens |
| UuidCodec.CleanedOfDigits | morphdepot/sa/uuid_type.py:44 | 32 hex digits pass the cleaning unchanged |
| UuidCodec.HyphenatedCleaned | morphdepot/sa/uuid_type.py:44 | the cleaning of `str(uuid)` only drops its hyphens |
| UuidCodec.Parse | morphdepot/sa/uuid_type.py:40-44 | every failure is a ValueError; a UUID comes from a cleaned text of 32 characters that `long(h, 16)` reads as exactly that value |
| UuidCodec.Cleaned | morphdepot/sa/uuid_type.py:44 | the cleaned text holds no `-` and is no longer than the input |
| UuidCodec.LongHex | morphdepot/sa/uuid_type.py:44 | every failure of `long(h, 16)` is a ValueError |
| UuidCodec.LongHexUnsigned | morphdepot/sa/uuid_type.py:44 | hex digits with an optional `0x` before and `L` after them, and whitespace around, read as their value |
| UuidCodec.LongHexSign | morphdepot/sa/uuid_type.py:44 | a sign with whitespace around it keeps or negates what the rest reads as, and is refused exactly when the rest is |
| UuidCodec.LongHexBound | morphdepot/sa/uuid_type.py:44 | without a minus sign, what `long` reads from N characters is below 16^N |
| UuidCodec.ParseIsLong | morphdepot/sa/uuid_type.py:40-44 | `uuid.UUID(s)` succeeds exactly when the cleaned text has 32 characters that `long(h, 16)` reads, and is that value |
| UuidCodec.ParseDigits | morphdepot/sa/uuid_type.py:40-44 | 32 hex digits after clean-up read as their value |
| UuidCodec.PrefixedAccepted | morphdepot/sa/uuid_type.py:44 | `0x` followed by 30 hex digits is accepted as their value |
| UuidCodec.SignedAccepted | morphdepot/sa/uuid_type.py:44 | `+` followed by 31 hex digits is accepted as their value |
| UuidCodec.HexValue | morphdepot/sa/uuid_type.py:44 | N hex digits are worth less than 16^N |
| UuidCodec.HexBound | morphdepot/sa/uuid_type.py:44 | 32 hex digits are worth less than 2^128 |
| UuidCodec.Hex32RoundTrip | morphdepot/sa/uuid_type.py:33-44 | parsing the 32-digit form gives the UUID back |
| UuidCodec.HyphenatedRoundTrip | morphdepot/sa/uuid_type.py:31-44 | parsing `str(uuid)` gives the UUID back |
| UuidCodec.WrongLengthRejected | morphdepot/sa/uuid_type.py:44 | hex text that is not 32 digits long is a ValueError |
| UuidCodec.Bind | morphdepot/sa/uuid_type.py:28-38 | None binds to None; postgres gets `str(value)`; other dialects get 32 lower-case hex digits, strings being parsed first as `uuid.UUID` reads them and other values raising |
| UuidCodec.ReadBack | morphdepot/sa/uuid_type.py:40-44 | None reads as None; a stored string reads as the UUID `uuid.UUID` parses it to |
| UuidCodec.BindReadRoundTrip | morphdepot/sa/uuid_type.py:28-44 | on a non-postgres dialect, reading back what was bound gives the original UUID (or None) |
| UuidCodec.PostgresRoundTrip | morphdepot/sa/uuid_type.py:31-44 | on postgres, the bound `str(uuid)` reads back as the UUID |
| UuidCodec.LoadDialectImpl | morphdepot/models/utils/beanbags.py:46-50 | storage is PostgreSQL's UUID type there and `CHAR(32)` elsewhere |
| UuidCodec.LoadDialectImplShadowed | morphdepot/sa/uuid_type.py:22-26 | in this copy the class name `UUID` shadows the imported type, so postgres asks for the decorator itself; elsewhere `CHAR(32)` |
| UuidCodec.BoundFitsColumn | morphdepot/sa/uuid_type.py:22-38 | the non-postgres bound string has exactly the width of the `CHAR(32)` column |
| UuidCodec.NewDimension | morphdepot/models/utils/beanbags.py:19-25 | `DimensionMixin.__init__` passes `name`, `description` and `comment` on unchanged |
| UuidCodec.DimensionDefaults | morphdepot/models/utils/beanbags.py:19-25 | `description` and `comment` default to None |
| Folders.NameLeTotal | apps/django_morphdepot/morphdepot/models.py:152-153 | the name order used by `ordering = ['file']` is total |
| Folders.NameLeTrans | apps/django_morphdepot/morphdepot/models.py:152-153 | the name order is transitive |
| Folders.NameLeAntisym | apps/django_morphdepot/morphdepot/models.py:152-153 | two names ordered both ways are equal |
| Folders.Sort | apps/django_morphdepot/morphdepot/models.py:152-153 | the ordered rows are a permutation of the rows |
| Folders.SortSorted | apps/django_morphdepot/morphdepot/models.py:152-153 | the ordered rows are sorted by name and a permutation of the rows |
| Folders.InsertSorted | apps/django_morphdepot/morphdepot/models.py:152-153 | placing one row into a sorted table keeps it sorted |
| Folders.Filter | apps/django_morphdepot/morphdepot/models.py:125 | a query keeps exactly the rows that satisfy it |
| Folders.FilterSorted | apps/django_morphdepot/morphdepot/models.py:125 | a filtered ordered table stays ordered |
| Folders.UpsertLaw | apps/django_morphdepot/morphdepot/models.py:157 | saving a row keeps the table ordered with distinct keys, and it then holds that row plus every other row with a different key |
| Folders.Upsert | apps/django_morphdepot/morphdepot/models.py:157 | the saved row is in the table, every other row was there before, and the table grows by one row at most |
| Folders.CaptionTaken | apps/django_morphdepot/morphdepot/models.py:117 | a caption taken by another folder is taken at all; excluding a key that is no folder changes nothing |
| Folders.MembersInNameOrder | apps/django_morphdepot/morphdepot/models.py:125 | `uploadedfile_set.all()` holds exactly the folder's files, ordered by name |
| Folders.MembersOfWithout | apps/django_morphdepot/morphdepot/models.py:178-181 | after a row is deleted, the folder's files are its earlier files without that row |
| Folders.MembersInsertLast | apps/django_morphdepot/morphdepot/views.py:31-35 | saving a file named after all the folder's files puts it last among them |
| Folders.FullName | apps/django_morphdepot/morphdepot/models.py:50-52 | `fullname` is the title, first and last names with two separators |
| Folders.FullNameWords | apps/django_morphdepot/morphdepot/models.py:50-52 | split at single spaces, `fullname` is exactly title, first name and last name |
| Folders.UploadPathLaw | apps/django_morphdepot/morphdepot/utils.py:6-10 | `get_upload_path` is `FileFolders/<uuid>/<filename>`; its folder is the folder path and its base name the file name |
| Folders.UploadPath | apps/django_morphdepot/morphdepot/utils.py:8-10 | an absolute filename is returned as is; otherwise the path ends with the filename |
| Folders.FolderPath | apps/django_morphdepot/morphdepot/models.py:128 | a plain uuid lies directly under `FileFolders`; an absolute one is returned as is |
| Folders.SaveFileKeepsValid | apps/django_morphdepot/morphdepot/models.py:148-157 | saving a file row into an existing folder keeps the tables consistent |
| Folders.SaveFolderKeepsValid | apps/django_morphdepot/morphdepot/models.py:117-129 | saving a folder whose label is not taken keeps the tables consistent |
| Folders.DeleteFileKeepsValid | apps/django_morphdepot/morphdepot/models.py:170-178 | deleting a file row keeps the tables consistent |
| Folders.DeleteFolderKeepsValid | apps/django_morphdepot/morphdepot/models.py:131-135 | deleting a folder that no file refers to keeps the tables consistent |
| Folders.Site.constructor | apps/django_morphdepot/morphdepot/models.py:113-153 | an empty database over the given storage, consistent from the start |
| Folders.Site.SaveFolderRow | apps/django_morphdepot/morphdepot/models.py:117-129 | a taken label raises IntegrityError and stores nothing; otherwise the row is stored under its key or a fresh one and the save is logged |
| Folders.Site.SaveFileRow | apps/django_morphdepot/morphdepot/models.py:148-157 | a file whose folder is not stored raises IntegrityError; otherwise the row is stored under its key or a fresh one and the save is logged |
| Folders.Site.DeleteFileRow | apps/django_morphdepot/morphdepot/models.py:178 | the row is gone from the table and the deletion is logged |
| Folders.Site.WriteBlob | apps/django_morphdepot/morphdepot/models.py:147 | storage writes the content under the media root and creates its folder |
| Folders.Site.DeleteBlob | apps/django_morphdepot/morphdepot/models.py:184 | `storage.delete` removes the file and logs it |
| Folders.Site.RemoveDir | apps/django_morphdepot/morphdepot/models.py:134 | `os.rmdir` removes an existing empty folder, otherwise OSError and nothing changes |
| Folders.Site.DeleteFolderRow | apps/django_morphdepot/morphdepot/models.py:135 | the folder row is gone and the deletion is logged |
| Folders.Site.DeletionStep | apps/django_morphdepot/morphdepot/models.py:132-133 | deleting one more member adds its blob to those removed and a row deletion, a folder save and a blob deletion to the log |
| Folders.HashFeed | apps/django_morphdepot/morphdepot/models.py:124-127 | the hash is fed the members' checksums concatenated in order |
| Folders.SavedUuid | apps/django_morphdepot/morphdepot/models.py:122-123 | a folder keeps its uuid, and one without gets a fresh one |
| Folders.FileFolder.constructor | apps/django_morphdepot/morphdepot/models.py:113-119 | a new folder has no key, a fresh uuid and the "automatically set on save" defaults |
| Folders.FileFolder.Save | apps/django_morphdepot/morphdepot/models.py:121-129 | the uuid is kept or made, the checksum is SHA-1 of the members' checksums in name order, `path` is `FileFolders/uuid`, then the row is saved (IntegrityError on a taken label) |
| Folders.FileFolder.Delete | apps/django_morphdepot/morphdepot/models.py:131-135 | every member file is deleted first, then the folder is removed (OSError unless it exists and is empty), then the row; the log records that order |
| Folders.DeleteMembers | apps/django_morphdepot/morphdepot/models.py:132-133 | the loop deletes every member, removing their rows and blobs in name order, or stops at the first error |
| Folders.DeleteAt | apps/django_morphdepot/morphdepot/models.py:132-133 | one loop step deletes the next member and keeps the loop's state |
| Folders.MembersError | apps/django_morphdepot/morphdepot/models.py:132-133 | the member loop fails with ValueError on a file without a name or IntegrityError when re-saving the folder fails |
| Folders.MembersErrorNone | apps/django_morphdepot/morphdepot/models.py:132-133 | the member loop succeeds exactly when every member has a name and, if there are members, the folder can be re-saved |
| Folders.DeleteMemberStep | apps/django_morphdepot/morphdepot/models.py:132-133 | deleting the first remaining member leaves the rest of the members and leaves the other folders' files |
| Folders.HashInput | apps/django_morphdepot/morphdepot/models.py:159-165 | hashing in chunks feeds the same input as hashing the whole content |
| Folders.UploadedFile.constructor | apps/django_morphdepot/morphdepot/models.py:145-150 | a new upload has no key, its pending content, no file size and an empty checksum |
| Folders.UploadedFile.SaveRow | apps/django_morphdepot/morphdepot/models.py:157 | the pending content is written under the upload path, then the row is saved (IntegrityError when the folder is not stored) |
| Folders.UploadedFile.SaveAndSignal | apps/django_morphdepot/morphdepot/models.py:207-211 | every row save is followed by the folder's save, which recomputes its checksum over its files |
| Folders.UploadedFile.Resave | apps/django_morphdepot/morphdepot/models.py:168 | the second save stores the new checksum and size and re-saves the folder, and cannot fail |
| Folders.UploadedFile.Rehash | apps/django_morphdepot/morphdepot/models.py:158-168 | the checksum is SHA-1 of the stored bytes and the size their length, then saved; a missing blob raises IOError |
| Folders.UploadedFile.Save | apps/django_morphdepot/morphdepot/models.py:155-168 | saved once with the folder re-saved, hashed from storage, saved again with the folder re-saved; checksum SHA-1 of the content and filesize its length |
| Folders.UploadedFile.Delete | apps/django_morphdepot/morphdepot/models.py:170-184 | the row is deleted, the folder re-saved without this file, and the blob deleted last |
| Folders.CaptionTakenIgnoresOwnRow | apps/django_morphdepot/morphdepot/models.py:117 | re-saving a folder does not make its own label count as taken |
| Folders.Insert | apps/django_morphdepot/morphdepot/models.py:152-153 | placing one row into the ordering adds exactly that row: the length grows by 1 and the multiset by the row |
| Folders.FileFolder.Loaded | apps/django_morphdepot/morphdepot/models.py:113-119 | a folder read back from the table has the row's key and fields |
| Folders.UploadedFile.Loaded | apps/django_morphdepot/morphdepot/models.py:145-150 | an upload read back from the table has the row's key, name, size and checksum, and no pending content |
| FolderViews.SortUploads | apps/django_morphdepot/morphdepot/views.py:25 | `file_list.sort(key=str)` leaves the caller's list equal to its sorted permutation by name |
| FolderViews.InsertLast | apps/django_morphdepot/morphdepot/views.py:25 | one insertion step places element `i` into the sorted prefix and leaves the rest |
| FolderViews.ShiftUp | apps/django_morphdepot/morphdepot/views.py:25 | the inner loop shifts the larger names of the prefix up by one and finds the slot |
| FolderViews.ShiftedIsInsert | apps/django_morphdepot/morphdepot/views.py:25 | writing the element into the slot gives the prefix with it inserted in order |
| FolderViews.InsertNamesDistinct | apps/django_morphdepot/morphdepot/views.py:25 | inserting a name not yet present keeps the names distinct |
| FolderViews.InsertAt | apps/django_morphdepot/morphdepot/views.py:25 | insertion puts the element after every smaller-or-equal name and before the first larger one |
| FolderViews.SortStep | apps/django_morphdepot/morphdepot/views.py:25 | sorting one more element is inserting it into the sorted rest |
| FolderViews.SortNamesDistinct | apps/django_morphdepot/morphdepot/views.py:25 | sorting keeps the file names distinct |
| FolderViews.FolderPathShape | apps/django_morphdepot/morphdepot/utils.py:6-10 | a folder's directory is `FileFolders/<uuid>`, with no trailing slash |
| FolderViews.UploadPathShape | apps/django_morphdepot/morphdepot/utils.py:8-10 | each upload is stored at `FileFolders/<uuid>/<name>` |
| FolderViews.UploadPathOrder | apps/django_morphdepot/morphdepot/utils.py:8-10 | adding the folder prefix keeps the name order, so the stored rows stay in upload order |
| FolderViews.TargetsDiffer | apps/django_morphdepot/morphdepot/utils.py:8-10 | different file names are stored at different paths |
| FolderViews.UploadDir | apps/django_morphdepot/morphdepot/utils.py:8-10 | the directory of every stored upload is the folder's own directory |
| FolderViews.StoredUploadsHold | apps/django_morphdepot/morphdepot/views.py:31-35 | after the loop, every upload's content is stored at its path |
| FolderViews.StoredUploadsKeep | apps/django_morphdepot/morphdepot/views.py:31-35 | files at other paths keep their content |
| FolderViews.StoredUploadsAbsent | apps/django_morphdepot/morphdepot/views.py:31-35 | no file appears at a path no upload names |
| FolderViews.UploadDigests | apps/django_morphdepot/morphdepot/views.py:36 | one digest per upload: SHA-1 of its content |
| FolderViews.AddedChecksums | apps/django_morphdepot/morphdepot/views.py:31-39 | the checksums of the new folder's files are the uploads' digests in sorted order |
| FolderViews.MembersGrow | apps/django_morphdepot/morphdepot/views.py:31-35 | saving the next upload adds its row after the folder's earlier files and leaves other folders' files |
| FolderViews.FreshFolder | apps/django_morphdepot/morphdepot/views.py:27-28 | a freshly saved folder has no files yet |
| FolderViews.AddOne | apps/django_morphdepot/morphdepot/views.py:32-35 | one loop pass links a new `UploadedFile` to the folder, saves it, and keeps the loop state for one more upload |
| FolderViews.AddedStart | apps/django_morphdepot/morphdepot/views.py:27-28 | after the first `save()` the new folder row exists with no files, and storage and the other rows are as before |
| FolderViews.AddedFinish | apps/django_morphdepot/morphdepot/views.py:36-39 | once every upload is saved, the final `save()` leaves the folder with exactly those files and a checksum recomputed from the stored rows (the local running digest is only printed) |
| FolderViews.FillFolder | apps/django_morphdepot/morphdepot/views.py:27-40 | the folder is saved (IntegrityError when the empty label is taken), every upload saved in sorted order under it, the folder saved again and returned |
| FolderViews.AddFileFolder | apps/django_morphdepot/morphdepot/views.py:24-40 | the caller's list is sorted in place, then the new folder holds exactly the uploads, in that order, with their content stored and its checksum over their digests |
| DeleteHook.ModelClass.constructor | apps/django_morphdepot/morphdepot/utils.py:13 | a class as declared has Django's own `delete` |
| DeleteHook.AddDeleteOnDelete | apps/django_morphdepot/morphdepot/utils.py:13-32 | the decorator replaces `cls.delete` and returns the same class |
| DeleteHook.InstanceDelete | apps/django_morphdepot/morphdepot/utils.py:17-30 | with the installed `delete`, the row is deleted, the folder re-saved, and the blob deleted last; with Django's own only the row goes |
| NeuroMorph.Morph.constructor | morphdepot/analysis/neuromorph.py:21-27 | the columns are stored as read, the segment count is their length, and the index vector selects every segment |
| NeuroMorph.Morph.Init | morphdepot/analysis/neuromorph.py:21-77 | the columns are stored as read and the preceding columns looked up; TypeError exactly when some parent id is neither -1 nor an id of the table |
| NeuroMorph.Morph.ResetIdxVector | morphdepot/analysis/neuromorph.py:79-84 | the index vector becomes all true, one entry per segment, and is returned; nothing else changes |
| NeuroMorph.Morph.AddPrecedingSegmentMetrics | morphdepot/analysis/neuromorph.py:86-120 | succeeds exactly when every parent id is -1 or names exactly one segment; then each preceding column holds the parent's value (the segment's own for a root); otherwise TypeError with the preceding columns unchanged |
| NeuroMorph.PrecedingValue | morphdepot/analysis/neuromorph.py:102-116 | the value appended for a segment is its own for a root and the value of the segment carrying its parent id otherwise |
| NeuroMorph.FirstIndex | morphdepot/analysis/neuromorph.py:109-116 | the index found for an id is the first segment carrying it, and none is found only when no segment does |
| NeuroMorph.CountOfOne | morphdepot/analysis/neuromorph.py:109-116 | when exactly one segment carries an id, that segment is the one found |
| NeuroMorph.CountOfZero | morphdepot/analysis/neuromorph.py:109-116 | an id occurs zero times exactly when no entry carries it |
| NeuroMorph.Morph.SegSuccessors | morphdepot/analysis/neuromorph.py:122-127 | entry `j` is true exactly when segment `j`'s parent id is `s` |
| NeuroMorph.SuccessorsCount | morphdepot/analysis/neuromorph.py:122-127 | the number of successors marked is the number of segments whose parent id is `s` |
| NeuroMorph.EqualsCount | morphdepot/analysis/neuromorph.py:122-127 | the true entries of `s == v` count the occurrences of `v` |
| NeuroMorph.Morph.NSuccessors | morphdepot/analysis/neuromorph.py:129-142 | with a full-length mask, each selected segment gets the number of segments naming it as parent and every other segment 0 |
| NeuroMorph.RunsMaximal | morphdepot/analysis/neuromorph.py:138-139 | the groups of `itertools.groupby` are non-empty and neighbouring groups carry different values |
| NeuroMorph.Runs | morphdepot/analysis/neuromorph.py:138-139 | no groups exactly for an empty column; the first group has the first value and the last group the last value |
| NeuroMorph.Masked | morphdepot/analysis/neuromorph.py:142 | `v[mask]` is defined exactly when the lengths agree or one side has length one; with equal lengths it keeps the masked entries and zeroes the rest |
| NeuroMorph.GroupedCount | morphdepot/analysis/neuromorph.py:137-141 | summing the lengths of the groups with value `v` gives the number of occurrences of `v`, however the groups are split |
| NeuroMorph.CountOfAppend | morphdepot/analysis/neuromorph.py:137-141 | occurrences of a value in a concatenation add up |
| NeuroMorph.Broadcast | morphdepot/analysis/neuromorph.py:205 | an elementwise product is defined exactly when the lengths agree or one side has length 1, has the broadcast length, and combines matching entries |
| NeuroMorph.Morph.BranchPoints | morphdepot/analysis/neuromorph.py:144-152 | defined exactly when the mask has one entry per segment; IndexError otherwise |
| NeuroMorph.SelectAbove | morphdepot/analysis/neuromorph.py:144-152 | comparing with `n` and then selecting by a mask equals selecting and then comparing |
| NeuroMorph.SelectCount | morphdepot/analysis/neuromorph.py:154-161 | the true entries of a selection count the entries true in both vectors |
| NeuroMorph.BranchPointsCount | morphdepot/analysis/neuromorph.py:154-161 | the branch-point count is the number of segments the mask selects, the object's index vector holds, and with more than one successor |
| NeuroMorph.Morph.NBranchPoints | morphdepot/analysis/neuromorph.py:154-161 | defined exactly when the index mask has one entry per segment (always without a mask); every error is an IndexError |
| NeuroMorph.Morph.TerminalTips | morphdepot/analysis/neuromorph.py:197-205 | without a mask the tip flags are defined, one per segment |
| NeuroMorph.TerminalTipsMeaning | morphdepot/analysis/neuromorph.py:197-205 | a segment is a tip exactly when the mask selects it and it is outside the index vector or no segment names it as parent |
| NeuroMorph.Morph.NTerminalTips | morphdepot/analysis/neuromorph.py:348-358 | defined exactly when the mask has one entry per segment; IndexError otherwise |
| NeuroMorph.TerminalTipsCount | morphdepot/analysis/neuromorph.py:348-358 | the tip count is the number of segments selected by the mask and the index vector that have no successor |
| NeuroMorph.Morph.Subtree | morphdepot/analysis/neuromorph.py:163-195 | a computed subtree has one flag per segment |
| NeuroMorph.Morph.SubtreeUnion | morphdepot/analysis/neuromorph.py:191-195 | the or-ed flags keep one entry per segment |
| NeuroMorph.UnionMeaning | morphdepot/analysis/neuromorph.py:191-195 | the loop over successors succeeds exactly when every remaining successor's subtree does, and marks the accumulated segments plus those in some successor's subtree |
| NeuroMorph.SubtreeMeaning | morphdepot/analysis/neuromorph.py:185-195 | `get_subtree(sec)` succeeds exactly when every successor's subtree does, and then marks `sec` and every segment in a successor's subtree |
| NeuroMorph.SubtreeOfRoot | morphdepot/analysis/neuromorph.py:185-186 | the subtree of -1 is None |
| NeuroMorph.Morph.FixedSubtree | morphdepot/analysis/neuromorph.py:163-195 | a computed subtree has one flag per segment |
| NeuroMorph.FixedSubtreeOfRoot | morphdepot/analysis/neuromorph.py:169-170 | with the fix, the subtree of -1 marks every segment, and any other id's subtree is the one `get_subtree` computes |
| NeuroMorph.RootTipRaises | morphdepot/analysis/neuromorph.py:337-342 | a masked segment whose parent is -1 and which no segment names as parent makes the degree computation raise when no segment has id -1 |
| NeuroMorph.TrueIndices | morphdepot/analysis/neuromorph.py:337-346 | the indices listed are exactly the true positions of the vector |
| NeuroMorph.Chain | morphdepot/analysis/neuromorph.py:340-345 | the walk from a tip visits only segment indices |
| NeuroMorph.ChainStep | morphdepot/analysis/neuromorph.py:340-345 | one step of the walk moves to the parent's index and stops after adding a segment whose parent is -1 |
| NeuroMorph.ParentRanksLower | morphdepot/analysis/neuromorph.py:341-342 | the parent found always ranks lower, so the walk ends |
| NeuroMorph.AddChainStep | morphdepot/analysis/neuromorph.py:343 | adding 1 at a new segment extends the sum along the walk |
| NeuroMorph.WalkStep | morphdepot/analysis/neuromorph.py:340-345 | one pass of the inner loop keeps the walk's invariant for the parent |
| NeuroMorph.Walk | morphdepot/analysis/neuromorph.py:339-345 | the inner loop adds 1 at every segment on the walk from tip `s`, or fails as the walk does |
| NeuroMorph.ClimbAll | morphdepot/analysis/neuromorph.py:337-346 | the outer loop adds the walks from every tip in order |
| NeuroMorph.ClimbsAdd | morphdepot/analysis/neuromorph.py:337-346 | the walks from all tips succeed exactly when each does, and then each segment gains the number of tip walks passing through it |
| NeuroMorph.Morph.TerminalDegrees | morphdepot/analysis/neuromorph.py:318-346 | the method computes the terminal degrees the specification function defines |
| NeuroMorph.DegreesFromMeaning | morphdepot/analysis/neuromorph.py:323-346 | degrees are defined exactly when every tip's walk is, and then each selected segment's degree is 1 if it is a tip plus the number of tip walks through it, and 0 if not selected |
| NeuroMorph.DegreesMeaning | morphdepot/analysis/neuromorph.py:323-346 | the same statement for the object's own tip flags |
| NeuroMorph.TipDegreeOne | morphdepot/analysis/neuromorph.py:326-328 | a selected tip has terminal degree 1 |
| NeuroMorph.ChainParents | morphdepot/analysis/neuromorph.py:340-345 | every segment a walk passes through after the tip is some segment's parent |
| NeuroMorph.ThroughLeaf | morphdepot/analysis/neuromorph.py:323-328 | no tip walk passes through a segment without successors |

## Left out

- The FUSE binding (`fuse.Fuse`, `fuse.Direntry`, `fuse.Stat`, `main`, argument parsing, `morph_mnt.py`): process plumbing. Calls reach the model as a `Call` value and replies leave it as a `Reply` value.
- Clock handling in `Stat` (`utcnow`, `timegm`, `utcfromtimestamp`) and `Identity.update_mtime`: timestamps are opaque `Time` values and "now" is a parameter.
- SHA-1 internals, YAML dump and load, `uuid4`, and logging: SHA-1 and YAML are uninterpreted function parameters, the drawn uuid is a parameter, and log calls and `print` statements are dropped.
- Floating-point metrics of morphdepot/analysis/neuromorph.py (lengths, volumes, means) and `init_swc`'s `loadtxt`: the coordinates and radii are carried as `real` columns but only copied, never computed with. `idx_entire_morph` and `__repr__` are not modelled.
- NeuroMorph.Morph.Subtree: Python's recursion limit is a `depth` parameter; running out gives RuntimeError.
- NeuroMorph.Morph.TerminalDegrees: requires the parent links to have no cycle at all (the `Ranked` ghost ranking). The source's `while True` never ends only when a tip's walk reaches a cycle; a cycle no tip reaches, such as ids [1,2,3,4] with parents [2,1,-1,3], lets the source's loop end but is excluded here. A parent id that names no segment raises IndexError at `[0][0]`, and so does a masked tip whose parent is -1 when no segment has id -1 (NeuroMorph.RootTipRaises); the model returns that error.
- NeuroMorph.SubtreeMeaning: the docstring's claim that segment 1's subtree covers every segment depends on the demo data and is not stated.
- NeuroMorph.Morph.Valid: the model keeps `|idx| == n_segments` as an invariant. Any other length of `idx_vector` is modelled as numpy's IndexError (or broadcasting, for `*`). The older numpy rules for integer masks are not modelled.
- FolderViews.AddFileFolder: the printed running digest is not modelled; it is only printed. The method requires distinct upload names that fit storage without renaming (`NamesDistinct`, `FitEach`). Django storage would rename a clashing upload, and that renaming is not modelled.
- Folders.FileFolder.Delete: on an error part-way through the member deletions, the contract states the error but not the partial state.
- The cascade from `NeuroRepresentation` to `DigitalNeuronRepresentation` and the other SQLAlchemy relationships: only the `files` list is modelled.
- FuSql.RenameDecision: only the error codes and the database update of `rename` are modelled. The loop that rewrites `self.paths` is not.
- The database queries of `FuSQL` are a map parameter; the SQL itself is not modelled.
- The commented-out block in `FuSQL.mkdir` is not modelled.
- Dispatch.MorphFS.constructor: morphdepot/fsmapping.py:4 imports `File` from `fshelper`, which defines only `FuseFile`, so the module cannot be imported (ImportError). The import is not modelled; the constructor builds the fixed root FIXED_ROOT, and `RootDir()` as written is RootDirectory.NewRoot.
- FuseNode.FuseFile.SetMode: a number is kept as its low 32 bits; floats and other objects with `__int__` are not modelled.
- FuseNode.IntOfInput: only numbers, strings and `Mode` objects are inputs; floats and other objects with `__int__` are not modelled.
- FuseNode.Len: `read()` is modelled as content bytes or `-EOPNOTSUPP`; a `read` override returning another integer is not modelled.
- Folders.Site.WriteBlob: Django's storage creates every missing ancestor folder and fails when a file stands where a folder is needed; the model adds only the upload's own folder and raises no such error.
- Folders.UploadedFile.SaveRow: requires that the upload's target name is free in storage (`Target(site) !in site.blobs`); Django would save a clashing upload under a new name, and that renaming is not modelled.
- Folders.UploadedFile.SaveAndSignal: the same free-target requirement as SaveRow, for the same reason.
- Folders.UploadedFile.Save: the same free-target requirement as SaveRow, for the same reason.
- FsPath.Slice: slice steps (`p[a:b:c]`, morphdepot/fshelper.py:250) are not modelled; only `start:end` selections are.
- VirtualPath.Slice: slice steps (morphdepot/virtfile.py:80) are not modelled; only `start:end` selections are.
- UuidCodec.Parse: Python's unicode whitespace and digits are not modelled; the text is taken character by character with ASCII whitespace and hex digits.
- Common.ParseInt: Python's unicode whitespace and digits are not modelled; `int()` of a byte string reads ASCII whitespace and digits.
- RawData.NeuroRepresentation.AddFile: the `st_size` of a folder source is the parameter `dirSize`.
- FileMode.IntOf: st_mode fields are `bv32`. Python's unbounded integers are not modelled.
- The Django views other than `add_filefolder`, the forms, `admin.py`, URL routing and the templates are not modelled.

## Findings

| source | as written | input that shows it | evidently intended | confidence | as-written member | corrected member |
|---|---|---|---|---|---|---|
| morphdepot/fshelper.py:462-467 | `mode & S_IFLNK` is tested first, and S_IFLNK shares the bit 0o100000 with S_IFREG | `-rwxr-xr-x` parses to S_IFREG and prints as `lrwxr-xr-x` | compare `mode & S_IFMT` with each type, so `-` prints as `-` | not executed | FileMode.RegularPrintsAsLink | FileMode.FixedRoundTrip |
| morphdepot/fshelper.py:354 | `CPATTERN` accepts `[df-]` at position 0, so the `l` branch never runs | `lrwxrwxrwx` is rejected with TypeError | accept `[dl-]`, so every printed mode parses again | not executed | FileMode.LinkStringRejected | FileMode.FixedPrintParses |
| morphdepot/fsmapping.py:24 | `p[0]` is a `Path` and is compared with the string names | `/scientists` resolves to None | compare the first segment (`list(p)[0]`) with the names | not executed | RootDirectory.ResolveNeverMatches | RootDirectory.FixedResolvesEntries |
| morphdepot/fs/mount_morphdepot.py:233-245 | `write` pads via `truncate`, then splices into the value read before the padding | `write("x", offset 4)` on `"ab"` stores `"abx"` | splice into the padded value, giving `"ab00x"` | not executed | FuSql.SplicedGapExample | FuSql.FixedSplicedLaw |
| morphdepot/fs/mount_morphdepot.py:330-333 | `remove_paths` removes from `self.paths` while iterating over it, so the entry after each removed one is skipped | paths `["/t", "/t/r"]` with prefix `/t` leave `["/t/r"]` | remove every path with the prefix | not executed | FuSql.RemoveWalkSkips | FuSql.FuSQL.FixedRemovePaths |
| morphdepot/serializer.py:46-55 | the loop skips the columns `is_serializable` accepts, the inverse of its comment | a model with a String column `label` set to `x`: the info file has no `label`, so reading it back gives the default, not `x` | skip the columns that are not serializable | not executed | InfoSerializer.SerializeRoundTripAsWritten | InfoSerializer.SerializeRoundTripFixed |
| morphdepot/fsmapping.py:10 | `RootDir` passes "/" as the mode, and the mode setter runs `int("/")` | `RootDir()` raises ValueError | a directory mode for the root | not executed | RootDirectory.NewRoot | RootDirectory.NewFixedRoot |
| morphdepot/analysis/neuromorph.py:185-186 | `get_subtree(-1)` returns None, though the docstring at lines 169-170 says -1 stands for all segments | `get_subtree(-1)` on any morphology | every segment marked | not executed | NeuroMorph.SubtreeOfRoot | NeuroMorph.FixedSubtreeOfRoot |
