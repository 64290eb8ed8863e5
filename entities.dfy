/**
 * The entities of sum.py: `File` and `Link` (the two kinds that end up in a
 * directory's `fs`), `Dir`, the per-file metrics of `File.get_info`, and the
 * one-line renderings `File.str` and `Link.str`.
 */
module Entities {
  import opened Text
  import opened FileSystem

  /** A member of a directory's `fs`: a regular file with its metrics, or a
      symbolic link with its resolved target. `size` is the byte count; the
      source keeps `len(data) / 1024.0`, a display-only conversion. */
  datatype FsEntry =
    | File(name: string, path: string, size: nat, validLines: nat, blankLines: nat)
    | Link(name: string, path: string, realPath: string)

  /** A scanned directory: its files and links, then its subdirectories, each
      in listing order (the source keeps two unordered sets). */
  datatype Dir = Dir(name: string, path: string, fs: seq<FsEntry>, dirs: seq<Dir>)

  /** The bytes Python 2's `str.strip()` removes: blank, `\t`, `\n`, `\v`,
      `\f`, `\r`. */
  predicate IsSpace(b: byte)
  {
    b == 32 || 9 <= b <= 13
  }

  const Newline: byte := 10

  /** `s.lstrip()`. */
  function StripLeft(s: seq<byte>): seq<byte>
  {
    if s != [] && IsSpace(s[0]) then StripLeft(s[1..]) else s
  }

  /** `s.rstrip()`. */
  function StripRight(s: seq<byte>): seq<byte>
  {
    if s != [] && IsSpace(s[|s| - 1]) then StripRight(s[..|s| - 1]) else s
  }

  /** `s.strip()`. */
  function Strip(s: seq<byte>): seq<byte>
  {
    StripRight(StripLeft(s))
  }

  /** `lstrip` removes exactly the leading whitespace. */
  lemma {:induction false} StripLeftSpec(s: seq<byte>)
    ensures |StripLeft(s)| <= |s| && StripLeft(s) == s[|s| - |StripLeft(s)|..]
    ensures forall i :: 0 <= i < |s| - |StripLeft(s)| ==> IsSpace(s[i])
    ensures StripLeft(s) != [] ==> !IsSpace(StripLeft(s)[0])
  {
    if s != [] && IsSpace(s[0]) {
      var t := s[1..];
      StripLeftSpec(t);
      assert StripLeft(s) == StripLeft(t);
      assert t[|t| - |StripLeft(t)|..] == s[|s| - |StripLeft(t)|..];
      assert forall i :: 1 <= i < |s| - |StripLeft(t)| ==> s[i] == t[i - 1];
    }
  }

  /** `rstrip` removes exactly the trailing whitespace. */
  lemma {:induction false} StripRightSpec(s: seq<byte>)
    ensures |StripRight(s)| <= |s| && StripRight(s) == s[..|StripRight(s)|]
    ensures forall i :: |StripRight(s)| <= i < |s| ==> IsSpace(s[i])
    ensures StripRight(s) != [] ==> !IsSpace(StripRight(s)[|StripRight(s)| - 1])
  {
    if s != [] && IsSpace(s[|s| - 1]) {
      StripRightSpec(s[..|s| - 1]);
    }
  }

  /** A line counts as valid when it holds some byte that is not whitespace. */
  predicate IsValidLine(line: seq<byte>)
  {
    exists i :: 0 <= i < |line| && !IsSpace(line[i])
  }

  /** Stripping leaves something exactly when the line is valid. */
  lemma StripEmptyIff(s: seq<byte>)
    ensures Strip(s) != [] <==> IsValidLine(s)
  {
    var l := StripLeft(s);
    StripLeftSpec(s);
    StripRightSpec(l);
    if IsValidLine(s) {
      var i :| 0 <= i < |s| && !IsSpace(s[i]);
      assert l != [];
      assert !IsSpace(l[0]);
    }
    if Strip(s) != [] {
      assert l != [];
      assert l[0] == s[|s| - |l|];
    }
  }

  /** `reduce(lambda c, b: c + 1 if b else c, map(strip, lines), 0)`: the
      lines that are not empty once stripped. */
  function ValidCount(lines: seq<seq<byte>>): (n: nat)
    ensures n <= |lines|
  {
    if lines == [] then 0
    else (if Strip(lines[0]) != [] then 1 else 0) + ValidCount(lines[1..])
  }

  /** Counting stripped lines is counting valid lines. */
  lemma {:induction false} ValidCountIsValidLines(lines: seq<seq<byte>>)
    ensures ValidCount(lines) == CountIf(lines, IsValidLine)
  {
    if lines != [] {
      StripEmptyIff(lines[0]);
      ValidCountIsValidLines(lines[1..]);
    }
  }

  /** `File(path)` over the file's bytes `data` (`File.get_info`): split on
      newline, strip each piece, count the non-empty ones; the rest are
      blank. */
  function MakeFile(path: string, data: seq<byte>): (f: FsEntry)
    ensures f.File? && f.name == Basename(path) && f.path == path
  {
    var lines := Split(data, Newline);
    File(Basename(path), path, |data|, ValidCount(lines), |lines| - ValidCount(lines))
  }

  /** The metrics of a file: its byte length, the newline-separated pieces
      holding a non-whitespace byte, and valid plus blank equal to the number
      of newlines plus one. */
  lemma FileMetrics(path: string, data: seq<byte>)
    ensures MakeFile(path, data).size == |data|
    ensures MakeFile(path, data).validLines == CountIf(Split(data, Newline), IsValidLine)
    ensures MakeFile(path, data).validLines + MakeFile(path, data).blankLines == Count(data, Newline) + 1
  {
    ValidCountIsValidLines(Split(data, Newline));
  }

  /** An empty file has no valid line and one blank line. */
  lemma EmptyFileMetrics(path: string)
    ensures MakeFile(path, []).validLines == 0
    ensures MakeFile(path, []).blankLines == 1
  {
    assert Split([], Newline) == [[]];
  }

  /** `Link(path)`: the link's `realpath` is given by the filesystem. */
  function MakeLink(path: string, realPath: string): (l: FsEntry)
    ensures l.Link? && l.name == Basename(path) && l.path == path && l.realPath == realPath
  {
    Link(Basename(path), path, realPath)
  }

  /** `'%4.1f' % size_in_kb`, given the byte count. Floating-point
      formatting is not modelled: the caller supplies it. */
  type KbFormat = nat -> string

  /** `'%4d' % n`: the digits of `n`, right-justified in four columns, or
      wider when they need more. */
  function Int4(n: nat): (s: string)
    ensures |s| == if |Decimal(n)| < 4 then 4 else |Decimal(n)|
    ensures s[|s| - |Decimal(n)|..] == Decimal(n)
    ensures forall i :: 0 <= i < |s| - |Decimal(n)| ==> s[i] == ' '
  {
    PadLeft(Decimal(n), 4)
  }

  /** `File.str(indent)` and `Link.str(indent)`: the name left-justified to
      `indent` columns, then `: ` and the entry's figures. */
  function Str(e: FsEntry, indent: nat, kb: KbFormat): string
  {
    var tail := match e
      case File(_, _, size, valid, blank) =>
        kb(size) + " KB, " + Int4(valid) + " valid lines, " + Int4(blank) + " blank lines"
      case Link(_, _, realPath) => "link to " + realPath;
    PadRight(e.name, indent) + ": " + tail
  }

  /** A rendered entry starts with its name padded to `indent` columns and
      `: `; when the name fits, the `:` sits exactly at column `indent`. A
      link's line names its resolved target, a file's line its figures. */
  lemma StrLayout(e: FsEntry, indent: nat, kb: KbFormat)
    ensures StartsWith(Str(e, indent, kb), PadRight(e.name, indent) + ": ")
    ensures |e.name| <= indent ==>
      var line := Str(e, indent, kb);
      |line| > indent && line[..indent] == e.name + Spaces(indent - |e.name|) && line[indent] == ':'
    ensures e.Link? ==> Str(e, indent, kb) == PadRight(e.name, indent) + ": link to " + e.realPath
    ensures e.File? ==>
      Str(e, indent, kb) == PadRight(e.name, indent) + ": " + kb(e.size) + " KB, "
                            + Int4(e.validLines) + " valid lines, " + Int4(e.blankLines) + " blank lines"
  {
    var head := PadRight(e.name, indent) + ": ";
    var line := Str(e, indent, kb);
    assert line[..|head|] == head;
    if |e.name| <= indent {
      assert line[..indent] == head[..indent];
    }
  }

  /** `max(len(f.name) for f in fs)`, and 0 for an empty `fs` (where the
      source never uses the width). */
  function NameWidth(fs: seq<FsEntry>): nat
  {
    if fs == [] then 0
    else
      var rest := NameWidth(fs[1..]);
      if |fs[0].name| >= rest then |fs[0].name| else rest
  }

  /** The width is the longest name of `fs`: no name is longer, and some
      name has exactly that length. */
  lemma {:induction false} NameWidthMax(fs: seq<FsEntry>)
    ensures forall i :: 0 <= i < |fs| ==> |fs[i].name| <= NameWidth(fs)
    ensures fs != [] ==> exists i :: 0 <= i < |fs| && |fs[i].name| == NameWidth(fs)
    ensures fs == [] ==> NameWidth(fs) == 0
  {
    if fs != [] {
      NameWidthMax(fs[1..]);
      assert forall i :: 1 <= i < |fs| ==> fs[i] == fs[1..][i - 1];
      if |fs[0].name| < NameWidth(fs[1..]) {
        var i :| 0 <= i < |fs[1..]| && |fs[1..][i].name| == NameWidth(fs[1..]);
        assert fs[i + 1] == fs[1..][i];
      }
    }
  }
}
