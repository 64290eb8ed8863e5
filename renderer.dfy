/**
 * `Dir.table_lines` of sum.py: the tree drawing of a scanned directory. A
 * directory's children are drawn in the order "all of `fs`, then all of
 * `dirs`"; each child gets one line, `├─` before it unless it is the last
 * child, which gets `└─`; a subdirectory's line is its name and `:`,
 * followed by its own drawing under the prefix extended by `   ` (last
 * child) or `│  ` (any other).
 */
module Renderer {
  import opened Text
  import opened Entities

  /** How one member of `fs` is drawn at a given name width: the call
      `f.str(indent)`, which dispatches to `File.str` or `Link.str`. */
  type Formatter = (FsEntry, nat) -> string

  /** The formatter of sum.py, `Str`, with `kb` the `%4.1f` rendering of a
      size. */
  function EntryStr(kb: KbFormat): Formatter
  {
    (e: FsEntry, w: nat) => Str(e, w, kb)
  }

  /** The glyph before a child's line: `get_prefix()` with `count == 1`
      exactly for the last child. */
  function Branch(last: bool): (g: string)
    ensures |g| == 2
  {
    if last then "└─" else "├─"
  }

  /** What a subdirectory's drawing is indented by beyond its parent's
      prefix. */
  function Continuation(last: bool): (g: string)
    ensures |g| == 3
  {
    if last then "   " else "│  "
  }

  /** The lines of the loop over `fs`, with `count` the children not yet
      drawn when the first of `fs` is drawn: the `i`-th is the `i`-th
      entry drawn by `str`, after `└─` when it is the last child and `├─`
      otherwise. */
  function FileLines(fs: seq<FsEntry>, prefix: string, width: nat, str: Formatter, count: int): seq<string>
  {
    seq(|fs|, i requires 0 <= i < |fs| => prefix + Branch(i == count - 1) + str(fs[i], width))
  }

  /** The lines of the loop over `dirs`, with `count` the children not yet
      drawn when the first of `dirs` is drawn: each subdirectory's head line,
      then its own drawing (`TableLines` of it, written out). */
  function SubdirLines(dirs: seq<Dir>, prefix: string, str: Formatter, count: int): seq<string>
    decreases dirs
  {
    if dirs == [] then []
    else
      var s := dirs[0];
      var inner := prefix + Continuation(count == 1);
      [prefix + Branch(count == 1) + s.name + ":"]
      + (FileLines(s.fs, inner, NameWidth(s.fs), str, |s.fs| + |s.dirs|) + SubdirLines(s.dirs, inner, str, |s.dirs|))
      + SubdirLines(dirs[1..], prefix, str, count - 1)
  }

  /** `d.table_lines(prefix)`, each member of `fs` drawn by `str`. */
  function TableLines(d: Dir, prefix: string, str: Formatter): seq<string>
  {
    FileLines(d.fs, prefix, NameWidth(d.fs), str, |d.fs| + |d.dirs|) + SubdirLines(d.dirs, prefix, str, |d.dirs|)
  }

  /** The entries of a subtree: every member of `fs` and every subdirectory,
      at every depth. */
  function EntryCount(d: Dir): nat
  {
    |d.fs| + EntriesOf(d.dirs)
  }

  /** `EntryCount` summed over a sequence of directories, each counted
      itself as well. */
  function EntriesOf(dirs: seq<Dir>): nat
    decreases dirs
  {
    if dirs == [] then 0
    else 1 + |dirs[0].fs| + EntriesOf(dirs[0].dirs) + EntriesOf(dirs[1..])
  }

  /** The `fs` loop of `Dir.table_lines`: one line per member, `count`
      decremented after each. */
  method RenderFiles(fs: seq<FsEntry>, prefix: string, str: Formatter, count0: int)
    returns (lines: seq<string>, count: int)
    ensures lines == FileLines(fs, prefix, NameWidth(fs), str, count0)
    ensures count == count0 - |fs|
  {
    lines := [];
    count := count0;
    var indent := NameWidth(fs);
    for i := 0 to |fs|
      invariant count == count0 - i
      invariant |lines| == i
      invariant forall k :: 0 <= k < i ==> lines[k] == prefix + Branch(k == count0 - 1) + str(fs[k], indent)
    {
      lines := lines + [prefix + Branch(count == 1) + str(fs[i], indent)];
      count := count - 1;
    }
  }

  /** `Dir.table_lines`: the `fs` loop, then the `dirs` loop, with one
      `count` of the children not yet drawn running through both. */
  method RenderTable(d: Dir, prefix: string, str: Formatter) returns (lines: seq<string>)
    ensures lines == TableLines(d, prefix, str)
    decreases d, 1
  {
    var count;
    lines, count := RenderFiles(d.fs, prefix, str, |d.fs| + |d.dirs|);
    var sub := RenderSubdirs(d.dirs, prefix, str, count);
    lines := lines + sub;
  }

  /** The `dirs` loop of `Dir.table_lines`: each subdirectory's head line,
      then its own drawing, recursing into it, `count` decremented after
      each. */
  method RenderSubdirs(dirs: seq<Dir>, prefix: string, str: Formatter, count0: int)
    returns (lines: seq<string>)
    ensures lines == SubdirLines(dirs, prefix, str, count0)
    decreases dirs, 0
  {
    lines := [];
    var count := count0;
    DropAll(dirs);
    for j := 0 to |dirs|
      invariant count == count0 - j
      invariant lines + SubdirLines(dirs[j..], prefix, str, count) == SubdirLines(dirs, prefix, str, count0)
    {
      var s := dirs[j];
      var inner := prefix + Continuation(count == 1);
      var head := prefix + Branch(count == 1) + s.name + ":";
      var sub := RenderTable(s, inner, str);
      SubdirStep(dirs, j, prefix, str, count, lines, head, sub);
      lines := lines + [head] + sub;
      count := count - 1;
    }
    DropAll(dirs);
  }

  /** One iteration of the `dirs` loop keeps the loop's account of what is
      left to draw. */
  lemma SubdirStep(dirs: seq<Dir>, j: nat, prefix: string, str: Formatter, count: int,
                   lines: seq<string>, head: string, sub: seq<string>)
    requires j < |dirs|
    requires head == prefix + Branch(count == 1) + dirs[j].name + ":"
    requires sub == TableLines(dirs[j], prefix + Continuation(count == 1), str)
    ensures lines + SubdirLines(dirs[j..], prefix, str, count)
         == (lines + [head] + sub) + SubdirLines(dirs[j + 1..], prefix, str, count - 1)
  {
    SplitAt(dirs, j);
    var rest := SubdirLines(dirs[j + 1..], prefix, str, count - 1);
    assert SubdirLines(dirs[j..], prefix, str, count) == [head] + sub + rest;
    AppendAssoc(lines, [head] + sub, rest);
    AppendAssoc(lines, [head], sub);
  }

  /** The `dirs` loop draws one line per subdirectory and per entry below
      it. */
  lemma {:induction false} SubdirLinesCount(dirs: seq<Dir>, prefix: string, str: Formatter, count: int)
    ensures |SubdirLines(dirs, prefix, str, count)| == EntriesOf(dirs)
    decreases dirs
  {
    if dirs != [] {
      var s := dirs[0];
      SubdirLinesCount(s.dirs, prefix + Continuation(count == 1), str, |s.dirs|);
      SubdirLinesCount(dirs[1..], prefix, str, count - 1);
    }
  }

  /** `table_lines` draws exactly one line per `fs` entry and one per
      subdirectory, throughout the subtree. */
  lemma TableLinesCount(d: Dir, prefix: string, str: Formatter)
    ensures |TableLines(d, prefix, str)| == EntryCount(d)
  {
    SubdirLinesCount(d.dirs, prefix, str, |d.dirs|);
  }

  /** Every line of `lines` starts with `p`. */
  predicate AllStartWith(lines: seq<string>, p: string)
  {
    forall l :: l in lines ==> StartsWith(l, p)
  }

  /** Lines that all start with `p + q` all start with `p`. */
  lemma AllStartWithLonger(lines: seq<string>, p: string, q: string)
    requires AllStartWith(lines, p + q)
    ensures AllStartWith(lines, p)
  {
    forall l | l in lines
      ensures StartsWith(l, p)
    {
      assert l[..|p|] == l[..|p + q|][..|p|];
    }
  }

  lemma AllStartWithAppend(a: seq<string>, b: seq<string>, p: string)
    requires AllStartWith(a, p) && AllStartWith(b, p)
    ensures AllStartWith(a + b, p)
  {
  }

  /** Every line of the `fs` loop starts with the prefix. */
  lemma FileLinesPrefix(fs: seq<FsEntry>, prefix: string, width: nat, str: Formatter, count: int)
    ensures AllStartWith(FileLines(fs, prefix, width, str, count), prefix)
  {
    forall l | l in FileLines(fs, prefix, width, str, count)
      ensures StartsWith(l, prefix)
    {
      var i :| 0 <= i < |fs| && FileLines(fs, prefix, width, str, count)[i] == l;
      assert l == prefix + (Branch(i == count - 1) + str(fs[i], width));
    }
  }

  /** Every line of the `dirs` loop starts with the prefix. */
  lemma {:induction false} SubdirLinesPrefix(dirs: seq<Dir>, prefix: string, str: Formatter, count: int)
    ensures AllStartWith(SubdirLines(dirs, prefix, str, count), prefix)
    decreases dirs
  {
    if dirs != [] {
      var s := dirs[0];
      var inner := prefix + Continuation(count == 1);
      var head := prefix + Branch(count == 1) + s.name + ":";
      FileLinesPrefix(s.fs, inner, NameWidth(s.fs), str, |s.fs| + |s.dirs|);
      SubdirLinesPrefix(s.dirs, inner, str, |s.dirs|);
      AllStartWithAppend(FileLines(s.fs, inner, NameWidth(s.fs), str, |s.fs| + |s.dirs|),
        SubdirLines(s.dirs, inner, str, |s.dirs|), inner);
      AllStartWithLonger(TableLines(s, inner, str), prefix, Continuation(count == 1));
      assert head == prefix + (Branch(count == 1) + s.name + ":");
      AllStartWithAppend([head], TableLines(s, inner, str), prefix);
      SubdirLinesPrefix(dirs[1..], prefix, str, count - 1);
      AllStartWithAppend([head] + TableLines(s, inner, str), SubdirLines(dirs[1..], prefix, str, count - 1), prefix);
      SubdirLinesUnfold(dirs, prefix, str, count);
    }
  }

  /** Every line `table_lines(prefix)` draws starts with `prefix`. */
  lemma TableLinesPrefix(d: Dir, prefix: string, str: Formatter)
    ensures AllStartWith(TableLines(d, prefix, str), prefix)
  {
    FileLinesPrefix(d.fs, prefix, NameWidth(d.fs), str, |d.fs| + |d.dirs|);
    SubdirLinesPrefix(d.dirs, prefix, str, |d.dirs|);
    AllStartWithAppend(FileLines(d.fs, prefix, NameWidth(d.fs), str, |d.fs| + |d.dirs|),
      SubdirLines(d.dirs, prefix, str, |d.dirs|), prefix);
  }

  /** The `dirs` loop draws its first subdirectory's head line and drawing,
      then loops over the rest with one child fewer left. */
  lemma SubdirLinesUnfold(dirs: seq<Dir>, prefix: string, str: Formatter, count: int)
    requires dirs != []
    ensures SubdirLines(dirs, prefix, str, count)
         == ([prefix + Branch(count == 1) + dirs[0].name + ":"]
             + TableLines(dirs[0], prefix + Continuation(count == 1), str))
          + SubdirLines(dirs[1..], prefix, str, count - 1)
  {
  }

  /** The `dirs` loop over `a + b` draws the loop over `a`, then the loop
      over `b` with `|a|` fewer children left. */
  lemma {:induction false} SubdirLinesAppend(a: seq<Dir>, b: seq<Dir>, prefix: string, str: Formatter, count: int)
    ensures SubdirLines(a + b, prefix, str, count)
         == SubdirLines(a, prefix, str, count) + SubdirLines(b, prefix, str, count - |a|)
  {
    if a == [] {
      assert a + b == b;
    } else {
      var block0 := [prefix + Branch(count == 1) + a[0].name + ":"]
                    + TableLines(a[0], prefix + Continuation(count == 1), str);
      SubdirLinesUnfold(a + b, prefix, str, count);
      SubdirLinesUnfold(a, prefix, str, count);
      AppendHeadTail(a, b);
      SubdirLinesAppend(a[1..], b, prefix, str, count - 1);
      AppendAssoc(block0, SubdirLines(a[1..], prefix, str, count - 1), SubdirLines(b, prefix, str, count - |a|));
    }
  }

  /** The `dirs` loop, cut at subdirectory `j`: the loop over the earlier
      ones, then `j`'s head line (`└─` exactly when `j` is drawn last) and
      its drawing under the extended prefix, then the loop over the later
      ones. */
  lemma SubdirLinesSplit(dirs: seq<Dir>, prefix: string, str: Formatter, count: int, j: nat)
    requires j < |dirs|
    ensures SubdirLines(dirs, prefix, str, count)
         == SubdirLines(dirs[..j], prefix, str, count)
          + ([prefix + Branch(count - j == 1) + dirs[j].name + ":"]
             + TableLines(dirs[j], prefix + Continuation(count - j == 1), str))
          + SubdirLines(dirs[j + 1..], prefix, str, count - j - 1)
  {
    var rest := dirs[j..];
    SplitAt(dirs, j);
    SubdirLinesAppend(dirs[..j], rest, prefix, str, count);
    SubdirLinesUnfold(rest, prefix, str, count - j);
  }

  /** The `i`-th line of a drawing, for `i` below `|d.fs|`, is the `i`-th
      member of `fs`: every file and link is drawn before any subdirectory,
      with `└─` only when it is the very last child. */
  lemma FilesFirst(d: Dir, prefix: string, str: Formatter)
    ensures forall i :: 0 <= i < |d.fs| ==>
      TableLines(d, prefix, str)[i]
        == prefix + Branch(i == |d.fs| + |d.dirs| - 1) + str(d.fs[i], NameWidth(d.fs))
  {
  }

  /** Regrouping a concatenation around a known split of its right part. */
  lemma Regroup<T>(x: seq<T>, s: seq<T>, b: seq<T>, m: seq<T>, e: seq<T>)
    requires s == b + m + e
    ensures x + s == (x + b) + m + e
  {
  }

  /** A drawing cut at subdirectory `j`: the lines of `fs` and of the
      earlier subdirectories, `j`'s head line and drawing, then the lines of
      the later subdirectories. */
  lemma TableLinesAround(d: Dir, prefix: string, str: Formatter, j: nat)
    requires j < |d.dirs|
    ensures TableLines(d, prefix, str)
         == (FileLines(d.fs, prefix, NameWidth(d.fs), str, |d.fs| + |d.dirs|) + SubdirLines(d.dirs[..j], prefix, str, |d.dirs|))
          + ([prefix + Branch(|d.dirs| - j == 1) + d.dirs[j].name + ":"]
             + TableLines(d.dirs[j], prefix + Continuation(|d.dirs| - j == 1), str))
          + SubdirLines(d.dirs[j + 1..], prefix, str, |d.dirs| - j - 1)
  {
    SubdirLinesSplit(d.dirs, prefix, str, |d.dirs|, j);
    Regroup(FileLines(d.fs, prefix, NameWidth(d.fs), str, |d.fs| + |d.dirs|), SubdirLines(d.dirs, prefix, str, |d.dirs|),
            SubdirLines(d.dirs[..j], prefix, str, |d.dirs|),
            [prefix + Branch(|d.dirs| - j == 1) + d.dirs[j].name + ":"]
            + TableLines(d.dirs[j], prefix + Continuation(|d.dirs| - j == 1), str),
            SubdirLines(d.dirs[j + 1..], prefix, str, |d.dirs| - j - 1));
  }

  /** Subdirectory `j`'s head line sits after the whole drawings of the
      `fs` entries and of the earlier subdirectories; it carries `└─`
      exactly when `j` is the last child, and the subdirectory's own
      drawing follows it under the prefix extended by `   ` for the last
      child and `│  ` for any other. */
  lemma SubdirLayout(d: Dir, prefix: string, str: Formatter, j: nat)
    requires j < |d.dirs|
    ensures var k := |d.fs| + EntriesOf(d.dirs[..j]);
            var last := j == |d.dirs| - 1;
            var sub := TableLines(d.dirs[j], prefix + Continuation(last), str);
            && k + 1 + |sub| <= |TableLines(d, prefix, str)|
            && TableLines(d, prefix, str)[k] == prefix + Branch(last) + d.dirs[j].name + ":"
            && TableLines(d, prefix, str)[k + 1..k + 1 + |sub|] == sub
  {
    TableLinesAround(d, prefix, str, j);
    SubdirLinesCount(d.dirs[..j], prefix, str, |d.dirs|);
    assert (|d.dirs| - j == 1) == (j == |d.dirs| - 1);
    BlockAt(FileLines(d.fs, prefix, NameWidth(d.fs), str, |d.fs| + |d.dirs|) + SubdirLines(d.dirs[..j], prefix, str, |d.dirs|),
            prefix + Branch(|d.dirs| - j == 1) + d.dirs[j].name + ":",
            TableLines(d.dirs[j], prefix + Continuation(|d.dirs| - j == 1), str),
            SubdirLines(d.dirs[j + 1..], prefix, str, |d.dirs| - j - 1));
  }

  /** A directory with a single child draws it with `└─`. */
  lemma OnlyChildCorner(d: Dir, prefix: string, str: Formatter)
    requires |d.fs| + |d.dirs| == 1
    ensures |TableLines(d, prefix, str)| >= 1
    ensures StartsWith(TableLines(d, prefix, str)[0], prefix + "└─")
  {
    var t := TableLines(d, prefix, str);
    if |d.fs| == 1 {
      FilesFirst(d, prefix, str);
      assert t[0] == prefix + "└─" + str(d.fs[0], NameWidth(d.fs));
    } else {
      SubdirLayout(d, prefix, str, 0);
      assert d.dirs[..0] == [];
      assert t[0] == prefix + "└─" + (d.dirs[0].name + ":");
    }
    assert t[0][..|prefix + "└─"|] == prefix + "└─";
  }

  /** A formatter that starts every entry's text with its name padded to
      the width, then `:`, whenever the name fits. */
  ghost predicate Aligns(str: Formatter)
  {
    forall e: FsEntry, w: nat :: |e.name| <= w ==>
      && |str(e, w)| > w
      && str(e, w)[..w] == e.name + Spaces(w - |e.name|)
      && str(e, w)[w] == ':'
  }

  /** `File.str` and `Link.str` pad the name to the width and follow it
      with `:`. */
  lemma EntryStrAligns(kb: KbFormat)
    ensures Aligns(EntryStr(kb))
  {
    forall e: FsEntry, w: nat | |e.name| <= w
      ensures && |EntryStr(kb)(e, w)| > w
              && EntryStr(kb)(e, w)[..w] == e.name + Spaces(w - |e.name|)
              && EntryStr(kb)(e, w)[w] == ':'
    {
      StrLayout(e, w, kb);
    }
  }

  /** Line `l` holds `name` padded with blanks to `width` characters from
      column `start` on, then `:`. */
  predicate NameColumn(l: string, start: nat, name: string, width: nat)
  {
    && |l| > start + width
    && l[start..start + width] == name + Spaces(width - |name|)
    && l[start + width] == ':'
  }

  /** A glyph prefix `g` followed by a formatted entry whose name is padded
      to `w` puts the name column right after `g`. */
  lemma RowColumn(l: string, g: string, t: string, name: string, w: nat)
    requires l == g + t
    requires |t| > w && t[..w] == name + Spaces(w - |name|) && t[w] == ':'
    ensures NameColumn(l, |g|, name, w)
  {
    AfterPrefix(g, t, w);
  }

  /** The line of the `i`-th member of `fs` holds its name after the prefix
      and glyph, padded to `NameWidth(fs)`, then `:`. */
  lemma FileRowAligned(d: Dir, prefix: string, str: Formatter, i: nat)
    requires Aligns(str) && i < |d.fs|
    ensures NameColumn(TableLines(d, prefix, str)[i], |prefix| + 2, d.fs[i].name, NameWidth(d.fs))
  {
    NameWidthMax(d.fs);
    FilesFirst(d, prefix, str);
    RowColumn(TableLines(d, prefix, str)[i], prefix + Branch(i == |d.fs| + |d.dirs| - 1),
      str(d.fs[i], NameWidth(d.fs)), d.fs[i].name, NameWidth(d.fs));
  }

  /** Within one directory the names of `fs` are padded to one column, the
      widest name's length, so every `:` after a name sits at the same
      position of its line (for sum.py's formatter, by `EntryStrAligns`). */
  lemma FilesAligned(d: Dir, prefix: string, str: Formatter)
    requires Aligns(str)
    ensures forall i :: 0 <= i < |d.fs| ==>
      NameColumn(TableLines(d, prefix, str)[i], |prefix| + 2, d.fs[i].name, NameWidth(d.fs))
  {
    forall i | 0 <= i < |d.fs|
      ensures NameColumn(TableLines(d, prefix, str)[i], |prefix| + 2, d.fs[i].name, NameWidth(d.fs))
    {
      FileRowAligned(d, prefix, str, i);
    }
  }
}
