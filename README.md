# Directory summariser and Remmina config reader, modelled in Dafny

The model covers two Python 2 scripts.

`sum.py` is a command-line summariser. It walks a directory tree and skips
entries that a chain of exclusion filters rejects. It computes each regular
file's size and its counts of valid (non-blank) and blank lines. It draws the
tree with box-drawing glyphs, one line per entry, with the names in one
directory padded to a common width. Finally it adds up file count, size,
valid lines and blank lines over the whole subtree.

`hack/list_remmina_pwds.py` contains `get_configure`, which reads a
`key=value` file into a dictionary.

The Dafny modules follow the program's structure:

- `Text` (text.dfy): the Python built-ins the code relies on, namely `split`,
  `join`, `index`, `%-Ns`/`%Nd` padding and counting.
- `FileSystem` (filesystem.dfy): a finite tree that stands in for the real
  filesystem, plus `os.path.join` and `os.path.split(p)[-1]` on POSIX paths.
- `Filters` (filters.dfy): the three filter kinds and the ordered filter
  chain `Item._filters`. The chain is a class whose registration methods
  append to it; `FilterChain.IsBad` is the short-circuiting loop of
  `Item.is_bad`.
- `Entities` (entities.dfy): `File` and `Link` as the members of a
  directory's `fs`, and `Dir`. Also Python 2's `strip`, the line metrics of
  `File.get_info`, and the renderings `File.str` and `Link.str`.
- `Scanner` (scanner.dfy): `Dir.get_info`. It is a reference function
  `Scan` plus the loop `ScanDirectory`/`ScanEntry`, which is proved to
  compute `Scan`.
- `Renderer` (renderer.dfy): `Dir.table_lines`. It is a reference function
  `TableLines` plus the two loops `RenderFiles` and `RenderSubdirs`
  (with `RenderTable` recursing through them), which are proved to compute
  it.
- `Aggregator` (aggregator.dfy): `Dir.sum`. It contains the intended totals
  `DirTotals`, the loop `Sum`/`SumSubdirs` proved to compute them, and the
  code as written (`SumAsWritten`) with its two defects.
- `RemminaConfig` (remmina_config.dfy): `get_configure` on the file's text.
  It is a reference fold `Parse` plus the loop `GetConfigure`, which fills
  the dictionary in place.

Some things that are foreign to the model are supplied by the caller as
function-typed parameters:
- regular-expression search (`Filters.Search`);
- the `%4.1f` rendering of a size (`Entities.KbFormat`);
- the formatter `f.str(indent)` used by the drawing (`Renderer.Formatter`).
  `EntryStr(kb)` is the one sum.py uses.

Two parts of the code fail in ways that are evidently not intended (see
Findings):
- A registered path filter raises on every call that reaches it.
- `sum` fails on a link, and it swaps the file count and the size of every
  subdirectory.

The code as written is kept in `Filters.ExcludesAsWritten` and
`Aggregator.SumAsWritten`. The corrected forms are `Filters.Excludes` and
`Aggregator.Sum`/`DirTotals`, and the scanner and the totals use them. The
exceptions of the I/O calls (a directory that cannot be listed, a file that
cannot be read) are not modelled.

## Model

| member | source | states |
|---|---|---|
| Filters.RegxFilterFor | sum.py:61-63 | `filter_regx` builds a regex filter on the given pattern; it matches the path exactly when the pattern contains the separator |
| Filters.RegxTarget | sum.py:18-21 | a regex filter with a separator in its pattern consults only the path; one without consults only the name |
| Filters.Filter.IsBad | sum.py:8-37 | the `is_bad` of each filter kind; `RegxTarget` and `LiteralFilters` state what each kind consults and when it rejects |
| Filters.LiteralFilters | sum.py:24-37 | a name filter rejects exactly the entries with that name, and a path filter exactly the entry at that path |
| Filters.Excludes | sum.py:54-59 | `Item.is_bad` as a value; `ExcludesAny` states it is true iff some filter rejects the entry, and `ExcludesAppend` how registration changes it |
| Filters.ExcludesAny | sum.py:54-59 | an entry is excluded iff at least one filter of the chain rejects it; an empty chain excludes nothing |
| Filters.ExcludesAppend | sum.py:61-71 | after registering more filters, the chain excludes what the old chain excluded or what the new filters exclude, and nothing else |
| Filters.FilterChain.constructor | sum.py:41 | the registry starts empty |
| Filters.FilterChain.FilterRegx | sum.py:61-63 | appends one regex filter per pattern, in argument order, after the existing filters, which stay as they were |
| Filters.FilterChain.FilterName | sum.py:65-67 | appends one name filter per name, in argument order, after the existing filters |
| Filters.FilterChain.FilterPath | sum.py:69-71 | appends one path filter per path, in argument order, after the existing filters |
| Filters.FilterChain.IsBad | sum.py:54-59 | the loop that stops at the first rejecting filter answers true iff some registered filter rejects the entry |
| Filters.ExcludesAsWritten | sum.py:54-59 | the chain as written: a `true` answer is a correct exclusion, and with no path filter in the chain it agrees with the intended test |
| Filters.PathFilterNeverExcludes | sum.py:32-37 | as written, a chain holding only a path filter for `p` fails on the entry at `p`, which the intended chain excludes |
| FileSystem.Basename | sum.py:45 | `os.path.split(p)[-1]` is the separator-free suffix of `p` that follows its last separator |
| FileSystem.PathJoin | sum.py:112 | joining a separator-free name adds a separator only when the parent does not already end in one |
| FileSystem.BasenameOfJoin | sum.py:43-45 | an item's `name`, recomputed from its joined path, is the listed name |
| Text.Split | sum.py:84 | `split(sep)` gives one more piece than the input has separators, and no piece holds a separator |
| Text.JoinSplit | hack/list_remmina_pwds.py:13 | joining the pieces of a split gives the text back |
| Text.SplitJoin | hack/list_remmina_pwds.py:13 | splitting a join of separator-free pieces gives the pieces back |
| Text.PadRight | sum.py:89 | `%-Ns` keeps the text as a prefix and pads it with blanks to at least `N` characters |
| Text.PadLeft | sum.py:89 | `%Nd` right-justifies: the text is a suffix and the fill is blanks |
| Text.Decimal | sum.py:89-90 | `%d` gives the shortest digit string that denotes the number |
| Entities.StripLeftSpec | sum.py:84 | `lstrip` removes exactly the leading whitespace bytes and keeps the rest |
| Entities.StripRightSpec | sum.py:84 | `rstrip` removes exactly the trailing whitespace bytes and keeps the rest |
| Entities.StripEmptyIff | sum.py:84-85 | a stripped line is non-empty iff the line holds a non-whitespace byte |
| Entities.ValidCountIsValidLines | sum.py:84-85 | the `reduce` over stripped lines counts the lines holding a non-whitespace byte |
| Entities.MakeFile | sum.py:74-86 | a scanned file is a `File` named by the basename of its path |
| Entities.FileMetrics | sum.py:81-86 | `size` is the byte length; valid lines are the newline-separated pieces holding a non-whitespace byte; valid plus blank is the number of newlines plus one |
| Entities.EmptyFileMetrics | sum.py:84-86 | an empty file has no valid line and one blank line |
| Entities.MakeLink | sum.py:93-96 | a scanned link is a `Link` named by its basename and carrying its resolved path |
| Entities.Int4 | sum.py:89 | `%4d` gives the digits of `n` right-justified in four columns, blank-filled, or just the digits when they need more |
| Entities.Str | sum.py:88-100 | `File.str` and `Link.str`; `StrLayout` states the padded name, the `: ` and the exact tail of each kind |
| Entities.StrLayout | sum.py:88-100 | both renderings start with the name padded to `indent` and `: `; when the name fits, the `:` sits at column `indent`; a file's line then gives its figures, a link's line its target |
| Entities.NameWidthMax | sum.py:126-127 | `indent` is the longest name in `fs`: no name is longer, and some name has that length |
| Scanner.ScanDirectory | sum.py:109-120 | the loop over the listing builds exactly the scan of that listing under the chain's exclusion test |
| Scanner.ScanEntry | sum.py:111-120 | one iteration: nothing for an excluded entry; otherwise a `Link` for a link, then a `File` for a regular file, or else the recursive scan of a directory |
| Scanner.Scan | sum.py:103-120 | `Dir(path)` over a listing; `ScanDirectory` is proved to compute it, and the `Scan…` lemmas state what its `fs` and `dirs` hold |
| Scanner.ScanNames | sum.py:103-107 | a scanned directory keeps its path and is named by its basename |
| Scanner.ScanStep | sum.py:111-120 | one more listed entry appends exactly its contributions to `fs` and `dirs` |
| Scanner.ScanFsSound | sum.py:113-118 | everything in `fs` comes from a kept listed entry |
| Scanner.ScanFsComplete | sum.py:113-118 | everything a kept listed entry contributes to `fs` is there |
| Scanner.ScanKeepsLinksAndFiles | sum.py:115-118 | a kept link yields a `Link`, and a kept entry resolving to a regular file yields a `File` (both, for a link to a file) |
| Scanner.ScanDirsSound | sum.py:119-120 | every member of `dirs` is the recursive scan of a kept entry that resolves to a directory |
| Scanner.ScanDirsComplete | sum.py:119-120 | the recursive scan of every kept entry that resolves to a directory is in `dirs` |
| Scanner.EntryFsPath | sum.py:112-118 | what an entry adds to `fs` sits at the joined path and is named by its basename |
| Scanner.ScanFsMember | sum.py:112-114 | a member of `fs` is not excluded on its own name and path, and its name is a listed name |
| Scanner.ScanDirsMember | sum.py:112-114 | a member of `dirs` is not excluded on its own name and path, and its name is a listed name |
| Scanner.ScanKeepsOnlyUnexcluded | sum.py:112-114 | no child of a scanned directory is excluded on its own name and path, and every child's name is a listed name |
| Scanner.ScanSkipsExcluded | sum.py:113-114 | an excluded entry can be removed from the listing without changing the scan, so neither its subtree nor its metrics are seen |
| Scanner.ScanDropsExcludedLast | sum.py:113-114 | an excluded last entry adds nothing |
| Renderer.Branch | sum.py:125 | the glyph before a child's line has two characters |
| Renderer.Continuation | sum.py:133-136 | the added subdirectory indentation has three characters |
| Renderer.RenderFiles | sum.py:128-130 | the `fs` loop draws the `i`-th member after `└─` exactly when it is the last child, and `count` drops by one per member |
| Renderer.RenderTable | sum.py:122-138 | `table_lines` computes exactly the reference drawing `TableLines` |
| Renderer.RenderSubdirs | sum.py:131-137 | the `dirs` loop draws each subdirectory's head line and then its own drawing under the extended prefix |
| Renderer.TableLines | sum.py:122-138 | the drawing `table_lines` returns; `RenderTable` is proved to compute it, and the lemmas below state its count, prefixes, order, glyphs and alignment |
| Renderer.SubdirStep | sum.py:131-137 | one iteration of the `dirs` loop consumes one subdirectory and one unit of `count` |
| Renderer.SubdirLinesCount | sum.py:131-137 | the `dirs` loop draws one line per subdirectory and per entry below it |
| Renderer.TableLinesCount | sum.py:122-138 | the drawing has exactly one line per `fs` member and per subdirectory, throughout the subtree |
| Renderer.FileLinesPrefix | sum.py:128-130 | every line of the `fs` loop starts with the prefix |
| Renderer.SubdirLinesPrefix | sum.py:131-137 | every line of the `dirs` loop starts with the prefix, at every depth |
| Renderer.TableLinesPrefix | sum.py:122-138 | every line `table_lines(prefix)` draws starts with `prefix` |
| Renderer.SubdirLinesUnfold | sum.py:131-137 | the `dirs` loop draws its first subdirectory, then the rest with one child fewer left |
| Renderer.SubdirLinesAppend | sum.py:131-137 | the loop over `a + b` is the loop over `a`, then the loop over `b` with as many fewer children left as `a` has members |
| Renderer.SubdirLinesSplit | sum.py:131-137 | cut at subdirectory `j`, the lines are: the earlier ones, `j`'s head and drawing, then the later ones |
| Renderer.FilesFirst | sum.py:124-130 | the first lines, one per `fs` member, are the `fs` members in order, each with `└─` only when it is the very last child |
| Renderer.TableLinesAround | sum.py:122-138 | the drawing around subdirectory `j`: everything before it, its head and drawing, then everything after it |
| Renderer.SubdirLayout | sum.py:131-137 | subdirectory `j`'s head line comes after the drawings of all `fs` members and earlier subdirectories; it carries `└─` iff `j` is the last child; its drawing follows under `   ` (last) or `│  ` (other) |
| Renderer.OnlyChildCorner | sum.py:124-125 | a directory with a single child draws it with `└─` |
| Renderer.EntryStrAligns | sum.py:88-100 | `File.str` and `Link.str` put the padded name and then `:` at the start of the line |
| Renderer.FileRowAligned | sum.py:126-129 | the `i`-th `fs` line holds the name padded to the directory's widest name, after prefix and glyph, then `:` |
| Renderer.FilesAligned | sum.py:126-129 | in one directory, every `:` after an `fs` name sits in the same column |
| Aggregator.Sum | sum.py:140-151 | `sum` returns the intended totals of the subtree |
| Aggregator.SumSubdirs | sum.py:145-150 | the loop over subdirectories adds up each one's totals |
| Aggregator.SumStep | sum.py:145-150 | one iteration adds the next subdirectory's totals |
| Aggregator.DirTotals | sum.py:140-151 | the intended totals; `Sum` is proved to compute them, and `DirTotalsReachable` states they are those of the reachable `File`s |
| Aggregator.SumOfPermutation | sum.py:141-144 | a sum over a set does not depend on iteration order: sequences with the same elements have the same totals |
| Aggregator.SumDirsIsSumOf | sum.py:145-150 | the recursive subtree totals equal the per-subdirectory totals added up |
| Aggregator.SumOrderIndependent | sum.py:103-107 | reordering `fs` or `dirs` (unordered sets in the source) leaves the totals unchanged |
| Aggregator.SumDirsReachable | sum.py:140-151 | the subdirectories' totals are those of every `fs` member below them |
| Aggregator.FileTotalsCount | sum.py:140-144 | the file count of a sequence of `fs` members is its number of `File`s |
| Aggregator.LinksAddNothing | sum.py:141-144 | links contribute nothing to the totals |
| Aggregator.DirTotalsReachable | sum.py:140-151 | a directory's totals are those of the `File`s reachable from it, and its file count is their number |
| Aggregator.EmptyDirTotals | sum.py:140-151 | a directory without children has all totals zero |
| Aggregator.SameReachableSameTotals | sum.py:140-151 | directories with the same reachable `fs` members, in any order and at any depth, have the same totals |
| Aggregator.SumAsWritten | sum.py:140-151 | `Dir.sum` as written, sizes in kilobytes as line 83 stores them; `SumAsWrittenFlat`, `LinkAbortsSum` and `SumSwapsCountAndSize` state where it agrees with and departs from the intended totals |
| Aggregator.SumAsWrittenFlat | sum.py:140-151 | with no links and no subdirectories, the code as written returns the intended totals, with the size as the kilobytes of the byte total |
| Aggregator.LinkAbortsSum | sum.py:141-144 | as written, one link in `fs` makes `sum` fail, where the intended totals are zero |
| Aggregator.SumSwapsCountAndSize | sum.py:146-150 | as written, a root whose one subdirectory holds one 2048-byte file returns 2.0 files and 1.0 KB, where 1 file and 2.0 KB are intended |
| RemminaConfig.SplitFirst | hack/list_remmina_pwds.py:15 | `line.split('=', 1)` gives a key without `=` and a value, and `key + "=" + value` is the line |
| RemminaConfig.SplitFirstUnique | hack/list_remmina_pwds.py:15 | that cut is the only one with an `=`-free key |
| RemminaConfig.Parse | hack/list_remmina_pwds.py:12-16 | no key of the dictionary holds `=` |
| RemminaConfig.Configure | hack/list_remmina_pwds.py:11-17 | `get_configure` on a text; `GetConfigure` is proved to compute it, and `RoundTrip`, `OneLine` and `CarriageReturnKept` state what it returns |
| RemminaConfig.GetConfigure | hack/list_remmina_pwds.py:11-17 | the loop filling `cfg` in place computes the reference fold of the text's `'\n'`-separated lines |
| RemminaConfig.ParseStep | hack/list_remmina_pwds.py:13-16 | one more line stores its value under its key when it is kept, and changes nothing otherwise |
| RemminaConfig.KeptKeyPresent | hack/list_remmina_pwds.py:14-16 | every kept line's key is in the result |
| RemminaConfig.KeySource | hack/list_remmina_pwds.py:12-16 | every key in the result comes from a kept line |
| RemminaConfig.ParseKeys | hack/list_remmina_pwds.py:12-17 | a key is in the result iff some kept line has that key |
| RemminaConfig.LastWins | hack/list_remmina_pwds.py:13-16 | the value under a key is the value of the last kept line with that key |
| RemminaConfig.IgnoredLine | hack/list_remmina_pwds.py:14 | a line that is empty or holds no `=` changes nothing, wherever it stands |
| RemminaConfig.Lines | hack/list_remmina_pwds.py:15-16 | a dictionary written out has one `k=v` line per listed key |
| RemminaConfig.LineParts | hack/list_remmina_pwds.py:14-15 | each written line is kept and splits back into its key and value |
| RemminaConfig.ParseLines | hack/list_remmina_pwds.py:13-16 | reading the written lines rebuilds the dictionary |
| RemminaConfig.RoundTrip | hack/list_remmina_pwds.py:11-17 | a dictionary with keys free of `=` and `'\n'` and values free of `'\n'`, written as `k=v` lines in any key order and joined by `'\n'`, reads back as itself |
| RemminaConfig.OneLine | hack/list_remmina_pwds.py:14-16 | a one-line text `k=v` stores `v` under `k`, for any `=`-free key, the empty one included, and any value, `=` included |
| RemminaConfig.KeyValueExamples | hack/list_remmina_pwds.py:14-15 | `=x` stores `x` under the empty key, and `a=b=c` stores `b=c` under `a` |
| RemminaConfig.CarriageReturnKept | hack/list_remmina_pwds.py:13 | only `'\n'` ends a line, so `a=b\r\n` stores `b\r` under `a`, and the empty last piece adds nothing |
| RemminaConfig.LastLineEnded | hack/list_remmina_pwds.py:13-14 | a text ending in `'\n'` has an empty last piece, which adds nothing |
| RemminaConfig.ParseOne | hack/list_remmina_pwds.py:14-16 | a single kept line gives a single entry |

## Left out

- File and directory I/O are not modelled: `os.listdir`, `file(...).read()`, `os.path.islink/isfile/isdir` and `os.path.realpath`. The filesystem is a given finite tree (`FileSystem.Entry`/`Node`). A directory's listing and a file's bytes are read from the tree, and a link's resolved path is stored with it.
- Symbolic-link cycles are not modelled. The source recurses into one without a bound of its own; the tree here is finite and well-founded.
- Regular-expression matching is not modelled: `re.compile(r).search(s)` is the caller-supplied `Filters.Search`.
- `Entities.Str` does not model the `%4.1f` formatting of `len(data) / 1024.0`. Floating point is out of scope, and the caller supplies the rendering of the byte count (`KbFormat`).
- `Entities.FsEntry` and `Aggregator.Totals`: the size is kept in bytes, not as the float KB value the source stores. The intended totals are therefore exact byte sums, and `Aggregator.Shown` gives their kilobytes.
- Aggregator.SumAsWritten: the kilobyte values are exact reals, not IEEE doubles, so float rounding is not modelled.
- Entities.NameWidth: names, glyphs and prefixes are `string`s, one character per element, and widths and columns count characters. Python 2 works on byte strings and counts UTF-8 bytes. For names made of ASCII characters the two agree. For a name with any other character, the width `indent`, the `%-Ns` padding (`Text.PadRight`) and the column facts (`Renderer.FilesAligned`) are stated in characters where the source counts bytes.
- `Dir.fs` and `Dir.dirs` are sequences in listing order, not Python sets. The items hash by name but compare by identity, so the sets never merge two items. Only the order differs, and totals are proved order-independent (`SumOrderIndependent`). The drawing is stated for the given order.
- `Item._filters` is a class attribute shared by every `Item`. Here it is a `FilterChain` object passed to the scanner. The scanner's specification takes the exclusion test as a function on name and path (`Scanner.Exclusion`), and `ChainTest` ties it to the chain.
- `Renderer.RenderTable` takes the formatter `f.str(indent)` as a parameter. The alignment lemmas hold for any formatter satisfying `Aligns`, which `EntryStrAligns` proves for sum.py's formatter. The default argument `prefix='  '` is not modelled; the prefix is always passed.
- `Renderer.RenderFiles` and `Renderer.RenderSubdirs` are the two loops of `table_lines`, written as separate methods that hand the running `count` from one to the other.
- `Filter.is_bad` of the base class (always false) is not modelled on its own: the base class is never registered.
- The command-line block `if __name__ == '__main__'` is not modelled (printing, and the filters it registers). Neither is the second script's main block.
- DES3 decryption, base64 decoding and the home-directory lookup of hack/list_remmina_pwds.py are not modelled. They are foreign cryptographic and environment calls.
- `RemminaConfig.GetConfigure` takes the file's text as a string instead of a path.

## Findings

| source | as written | input that shows it | evidently intended | confidence | as-written member | corrected member |
|---|---|---|---|---|---|---|
| sum.py:146-150 | each child's `(fc, size, vl, bl)` is unpacked as `s, c, v, b`, so the child's file count is added to `size` and its size to `fc` | a root whose one subdirectory holds one 2048-byte file (2.0 KB): `sum` returns 2.0 files and 1.0 KB, printed as `2 files, 1.0 KB` | add the child's file count to `fc` and its size to `size` | not executed | Aggregator.SumSwapsCountAndSize | Aggregator.Sum |
| sum.py:141-144 | `fc = len(self.fs)` counts links, and the three sums read `size`, `valid_lines` and `blank_lines` of every member of `fs`, which a `Link` lacks | a directory whose `fs` holds one symbolic link: AttributeError | links count for nothing and `sum` succeeds | not executed | Aggregator.LinkAbortsSum | Aggregator.DirTotalsReachable |
| sum.py:32-37 | `PathFilter.__init__` stores the path in `self.name`, and `is_bad` reads `self.path`, which is never set | a chain holding `PathFilter(p)`, asked about the entry at `p`: AttributeError | exclude the entry whose path is `p` | not executed | Filters.PathFilterNeverExcludes | Filters.ExcludesAny |
