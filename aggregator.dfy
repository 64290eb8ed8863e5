/**
 * `Dir.sum` of sum.py: the subtree totals (file count, size, valid lines,
 * blank lines), as a reference reduction, as the loop the source runs, and
 * as written with its two defects.
 */
module Aggregator {
  import opened Wrappers
  import opened Text
  import opened Entities

  /** The four totals `Dir.sum` returns. `size` is in bytes; the source keeps
      kilobytes as a float, a display-only conversion. */
  datatype Totals = Totals(files: nat, size: nat, validLines: nat, blankLines: nat)
  {
    function Plus(o: Totals): Totals
    {
      Totals(files + o.files, size + o.size, validLines + o.validLines, blankLines + o.blankLines)
    }
  }

  const Zero := Totals(0, 0, 0, 0)

  lemma PlusZero(x: Totals)
    ensures x.Plus(Zero) == x && Zero.Plus(x) == x
  {
  }

  lemma PlusAssoc(x: Totals, y: Totals, z: Totals)
    ensures x.Plus(y).Plus(z) == x.Plus(y.Plus(z))
  {
  }

  lemma PlusSwap(x: Totals, y: Totals, z: Totals)
    ensures x.Plus(y.Plus(z)) == y.Plus(x).Plus(z)
  {
  }

  /** What one member of `fs` adds: a `File` counts once with its metrics;
      a `Link` has no metrics and adds nothing. */
  function EntryTotals(e: FsEntry): Totals
  {
    match e
    case File(_, _, size, valid, blank) => Totals(1, size, valid, blank)
    case Link(_, _, _) => Zero
  }

  /** The totals of a sequence, one contribution `f(x)` per element. */
  function SumOf<T>(s: seq<T>, f: T -> Totals): Totals
  {
    if s == [] then Zero else f(s[0]).Plus(SumOf(s[1..], f))
  }

  /** The totals of a directory's own `fs`. */
  function FileTotals(fs: seq<FsEntry>): Totals
  {
    SumOf(fs, EntryTotals)
  }

  /** The totals of a sequence of subdirectories, each with its whole
      subtree. */
  function SumDirs(dirs: seq<Dir>): Totals
    decreases dirs
  {
    if dirs == [] then Zero
    else FileTotals(dirs[0].fs).Plus(SumDirs(dirs[0].dirs)).Plus(SumDirs(dirs[1..]))
  }

  /** `d.sum()` as intended: the totals of the directory's own `File`s plus
      the totals of every subdirectory. */
  function DirTotals(d: Dir): Totals
  {
    FileTotals(d.fs).Plus(SumDirs(d.dirs))
  }

  /** `Dir.sum`: the totals of the own `fs`, plus what the loop over the
      subdirectories adds. */
  method Sum(d: Dir) returns (t: Totals)
    ensures t == DirTotals(d)
    decreases d, 1
  {
    var sub := SumSubdirs(d.dirs);
    t := FileTotals(d.fs).Plus(sub);
    SumDirsIsSumOf(d.dirs);
  }

  /** The loop of `Dir.sum`: each subdirectory's totals, added field by
      field. */
  method SumSubdirs(dirs: seq<Dir>) returns (t: Totals)
    ensures t == SumOf(dirs, DirTotals)
    decreases dirs, 0
  {
    t := Zero;
    for j := 0 to |dirs|
      invariant t == SumOf(dirs[..j], DirTotals)
    {
      var c := Sum(dirs[j]);
      SumStep(dirs, j);
      t := t.Plus(c);
    }
    TakeAll(dirs);
  }

  /** One iteration of that loop adds the next subdirectory's totals. */
  lemma SumStep(dirs: seq<Dir>, j: nat)
    requires j < |dirs|
    ensures SumOf(dirs[..j + 1], DirTotals) == SumOf(dirs[..j], DirTotals).Plus(DirTotals(dirs[j]))
  {
    TakeNext(dirs, j);
    SumOfAppend(dirs[..j], [dirs[j]], DirTotals);
    SumOfOne(dirs[j], DirTotals);
  }

  /** The totals of a concatenation are the sum of the totals of its parts. */
  lemma {:induction false} SumOfAppend<T>(a: seq<T>, b: seq<T>, f: T -> Totals)
    ensures SumOf(a + b, f) == SumOf(a, f).Plus(SumOf(b, f))
  {
    if a == [] {
      assert a + b == b;
      PlusZero(SumOf(b, f));
    } else {
      AppendHeadTail(a, b);
      SumOfAppend(a[1..], b, f);
      PlusAssoc(f(a[0]), SumOf(a[1..], f), SumOf(b, f));
    }
  }

  lemma SumOfOne<T>(x: T, f: T -> Totals)
    ensures SumOf([x], f) == f(x)
  {
    assert [x][1..] == [];
    PlusZero(f(x));
  }

  /** The totals of a sequence do not depend on the order of its elements. */
  lemma {:induction false} SumOfPermutation<T>(a: seq<T>, b: seq<T>, f: T -> Totals)
    requires multiset(a) == multiset(b)
    ensures SumOf(a, f) == SumOf(b, f)
    decreases |a|
  {
    if a == [] {
      assert |b| == |multiset(b)| == 0;
    } else {
      var k := PermutationHead(a, b);
      SumOfPermutation(a[1..], b[..k] + b[k + 1..], f);
      SumOfAppend(b[..k], b[k + 1..], f);
      SumOfAppend(b[..k] + [b[k]], b[k + 1..], f);
      SumOfAppend(b[..k], [b[k]], f);
      SumOfOne(b[k], f);
      PlusSwap(f(a[0]), SumOf(b[..k], f), SumOf(b[k + 1..], f));
    }
  }

  /** The loop over subdirectories adds up each one's `DirTotals`. */
  lemma {:induction false} SumDirsIsSumOf(dirs: seq<Dir>)
    ensures SumDirs(dirs) == SumOf(dirs, DirTotals)
    decreases dirs
  {
    if dirs != [] {
      SumDirsIsSumOf(dirs[1..]);
    }
  }

  /** Reordering a directory's `fs` or its `dirs` leaves its totals
      unchanged. */
  lemma SumOrderIndependent(d: Dir, fs: seq<FsEntry>, dirs: seq<Dir>)
    requires multiset(fs) == multiset(d.fs) && multiset(dirs) == multiset(d.dirs)
    ensures DirTotals(Dir(d.name, d.path, fs, dirs)) == DirTotals(d)
  {
    SumOfPermutation(fs, d.fs, EntryTotals);
    SumDirsIsSumOf(dirs);
    SumDirsIsSumOf(d.dirs);
    SumOfPermutation(dirs, d.dirs, DirTotals);
  }

  /** Every member of `fs` throughout the subtree, the directory's own ones
      first and then each subdirectory's. */
  function Reachable(d: Dir): seq<FsEntry>
  {
    d.fs + ReachableOf(d.dirs)
  }

  function ReachableOf(dirs: seq<Dir>): seq<FsEntry>
    decreases dirs
  {
    if dirs == [] then [] else dirs[0].fs + ReachableOf(dirs[0].dirs) + ReachableOf(dirs[1..])
  }

  lemma {:induction false} SumDirsReachable(dirs: seq<Dir>)
    ensures SumDirs(dirs) == FileTotals(ReachableOf(dirs))
    decreases dirs
  {
    if dirs != [] {
      SumDirsReachable(dirs[0].dirs);
      SumDirsReachable(dirs[1..]);
      SumOfAppend(dirs[0].fs, ReachableOf(dirs[0].dirs), EntryTotals);
      SumOfAppend(dirs[0].fs + ReachableOf(dirs[0].dirs), ReachableOf(dirs[1..]), EntryTotals);
    }
  }

  predicate IsFile(e: FsEntry)
  {
    e.File?
  }

  /** The totals of a sequence of `fs` members count its `File`s. */
  lemma {:induction false} FileTotalsCount(fs: seq<FsEntry>)
    ensures FileTotals(fs).files == CountIf(fs, IsFile)
  {
    if fs != [] {
      FileTotalsCount(fs[1..]);
      assert FileTotals(fs) == EntryTotals(fs[0]).Plus(FileTotals(fs[1..]));
    }
  }

  /** `Link`s count for nothing: a sequence of links has zero totals. */
  lemma {:induction false} LinksAddNothing(fs: seq<FsEntry>)
    requires forall i :: 0 <= i < |fs| ==> fs[i].Link?
    ensures FileTotals(fs) == Zero
  {
    if fs != [] {
      assert forall i :: 1 <= i < |fs| ==> fs[i] == fs[1..][i - 1];
      LinksAddNothing(fs[1..]);
      assert EntryTotals(fs[0]) == Zero;
      assert FileTotals(fs) == EntryTotals(fs[0]).Plus(FileTotals(fs[1..]));
      PlusZero(Zero);
    }
  }

  /** The totals of a directory are those of the `File`s reachable from it,
      and its file count is their number. */
  lemma DirTotalsReachable(d: Dir)
    ensures DirTotals(d) == FileTotals(Reachable(d))
    ensures DirTotals(d).files == CountIf(Reachable(d), IsFile)
  {
    SumDirsReachable(d.dirs);
    SumOfAppend(d.fs, ReachableOf(d.dirs), EntryTotals);
    FileTotalsCount(Reachable(d));
  }

  /** A directory with no children has all totals zero. */
  lemma EmptyDirTotals(name: string, path: string)
    ensures DirTotals(Dir(name, path, [], [])) == Zero
  {
    assert FileTotals([]) == Zero;
    assert SumDirs([]) == Zero;
    PlusZero(Zero);
  }

  /** Directories whose reachable `fs` members are the same, in whatever
      order and wherever in the subtree, have the same totals. */
  lemma SameReachableSameTotals(a: Dir, b: Dir)
    requires multiset(Reachable(a)) == multiset(Reachable(b))
    ensures DirTotals(a) == DirTotals(b)
  {
    DirTotalsReachable(a);
    DirTotalsReachable(b);
    SumOfPermutation(Reachable(a), Reachable(b), EntryTotals);
  }

  // `Dir.sum` as written.

  /** The tuple `(fc, size, vl, bl)` that `sum` returns as written: `size`
      adds up each file's `len(data) / 1024.0`, and the unpacking at line
      146 moves such sizes into the file count, so both of the first two
      fields are numbers with fractions. */
  datatype RawTotals = RawTotals(files: real, kb: real, validLines: nat, blankLines: nat)

  /** `len(data) / 1024.0`, the size `File.get_info` stores. */
  function Kb(bytes: nat): real
  {
    bytes as real / 1024.0
  }

  /** The tuple the intended totals would be returned as. */
  function Shown(t: Totals): RawTotals
  {
    RawTotals(t.files as real, Kb(t.size), t.validLines, t.blankLines)
  }

  predicate LinkFree(fs: seq<FsEntry>)
  {
    forall i :: 0 <= i < |fs| ==> fs[i].File?
  }

  /** `sum(map(lambda f: f.size, fs))`: the stored sizes of the members
      added up, one per member. */
  function KbTotal(fs: seq<FsEntry>): real
  {
    if fs == [] then 0.0 else Kb(EntryTotals(fs[0]).size) + KbTotal(fs[1..])
  }

  /** Adding up the per-file kilobytes gives the kilobytes of the byte
      total. */
  lemma {:induction false} KbTotalIsKb(fs: seq<FsEntry>)
    ensures KbTotal(fs) == Kb(FileTotals(fs).size)
  {
    if fs != [] {
      KbTotalIsKb(fs[1..]);
      assert FileTotals(fs) == EntryTotals(fs[0]).Plus(FileTotals(fs[1..]));
    }
  }

  /** Lines 141-144 as written: `fc` is `len(fs)`, counting links; the
      three sums read `size`, `valid_lines` and `blank_lines` of every
      member, which a `Link` lacks (AttributeError, None). */
  function OwnTotalsAsWritten(fs: seq<FsEntry>): Option<RawTotals>
  {
    if LinkFree(fs) then
      var t := FileTotals(fs);
      Some(RawTotals(|fs| as real, KbTotal(fs), t.validLines, t.blankLines))
    else None
  }

  /** Lines 145-150 as written, over the subdirectories `dirs` with `acc`
      accumulated so far: each child's tuple `(fc, size, vl, bl)` is unpacked
      as `s, c, v, b`, so its file count is added to the size and its size
      to the file count. */
  function SumDirsAsWritten(dirs: seq<Dir>, acc: RawTotals): Option<RawTotals>
    decreases dirs
  {
    if dirs == [] then Some(acc)
    else
      var child :=
        match OwnTotalsAsWritten(dirs[0].fs)
        case None => None
        case Some(own) => SumDirsAsWritten(dirs[0].dirs, own);
      match child
      case None => None
      case Some(r) =>
        SumDirsAsWritten(dirs[1..], RawTotals(acc.files + r.kb, acc.kb + r.files,
                                              acc.validLines + r.validLines, acc.blankLines + r.blankLines))
  }

  /** `d.sum()` as written. */
  function SumAsWritten(d: Dir): Option<RawTotals>
  {
    match OwnTotalsAsWritten(d.fs)
    case None => None
    case Some(own) => SumDirsAsWritten(d.dirs, own)
  }

  /** Without links and without subdirectories the code as written returns
      the intended totals. */
  lemma SumAsWrittenFlat(d: Dir)
    requires LinkFree(d.fs) && d.dirs == []
    ensures SumAsWritten(d) == Some(Shown(DirTotals(d)))
  {
    FileTotalsCount(d.fs);
    CountIfAll(d.fs);
    KbTotalIsKb(d.fs);
    PlusZero(FileTotals(d.fs));
  }

  lemma {:induction false} CountIfAll(fs: seq<FsEntry>)
    requires LinkFree(fs)
    ensures CountIf(fs, IsFile) == |fs|
  {
    if fs != [] {
      assert LinkFree(fs[1..]) by {
        assert forall i :: 1 <= i < |fs| ==> fs[i] == fs[1..][i - 1];
      }
      CountIfAll(fs[1..]);
    }
  }

  /** A single link in `fs` makes the code as written fail, where the
      intended totals count it for nothing. */
  lemma LinkAbortsSum(name: string, path: string, target: string)
    ensures SumAsWritten(Dir("", "", [Link(name, path, target)], [])) == None
    ensures DirTotals(Dir("", "", [Link(name, path, target)], [])) == Zero
  {
    assert !([Link(name, path, target)][0].File?);
    SumOfOne(Link(name, path, target), EntryTotals);
  }

  /** A subdirectory holding one file of 2048 bytes (2.0 KB): the code as
      written returns 2.0 files and 1.0 KB, printed as `2 files, 1.0 KB`,
      where 1 file and 2.0 KB are intended. */
  lemma SumSwapsCountAndSize()
    ensures SumAsWritten(Dir("", "", [], [Dir("a", "a", [File("f", "a/f", 2048, 3, 1)], [])]))
         == Some(RawTotals(2.0, 1.0, 3, 1))
    ensures Shown(DirTotals(Dir("", "", [], [Dir("a", "a", [File("f", "a/f", 2048, 3, 1)], [])])))
         == RawTotals(1.0, 2.0, 3, 1)
  {
    var f := File("f", "a/f", 2048, 3, 1);
    var sub := Dir("a", "a", [f], []);
    SumOfOne(f, EntryTotals);
    assert LinkFree([f]);
    assert [f][1..] == [];
    assert KbTotal([f]) == 2.0;
    assert OwnTotalsAsWritten([f]) == Some(RawTotals(1.0, 2.0, 3, 1));
    assert OwnTotalsAsWritten([]) == Some(RawTotals(0.0, 0.0, 0, 0));
    assert [sub][1..] == [];
    assert SumDirsAsWritten([sub], RawTotals(0.0, 0.0, 0, 0)) == Some(RawTotals(2.0, 1.0, 3, 1));
    assert SumDirs([sub]) == Totals(1, 2048, 3, 1);
  }
}
