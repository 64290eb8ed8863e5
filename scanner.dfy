/**
 * `Dir.get_info` of sum.py: list a directory, skip excluded entries, and
 * classify the rest (a link always yields a `Link`; an entry resolving to a
 * regular file also yields a `File`; otherwise one resolving to a directory
 * yields a recursively scanned `Dir`).
 */
module Scanner {
  import opened Wrappers
  import opened Text
  import opened FileSystem
  import opened Filters
  import opened Entities

  /** The exclusion test the scanner applies to each entry's name and
      joined path. */
  type Exclusion = (string, string) -> bool

  /** `Item.is_bad` of filter chain `filters` under matcher `search`. */
  function ChainTest(filters: seq<Filter>, search: Search): Exclusion
  {
    (name, path) => Excludes(filters, search, name, path)
  }

  /** The entry survives the exclusion test, on its name and joined path. */
  predicate Kept(excluded: Exclusion, parent: string, e: Entry)
  {
    !excluded(e.name, PathJoin(parent, e.name))
  }

  /** What a kept entry adds to `fs`: a `Link` when it is a symbolic link,
      then a `File` when it resolves to a regular file (both, for a link to a
      file). */
  function EntryFs(parent: string, e: Entry): seq<FsEntry>
  {
    var path := PathJoin(parent, e.name);
    (if e.link.Some? then [MakeLink(path, e.link.value)] else [])
    + (if e.target.RegularFile? then [MakeFile(path, e.target.data)] else [])
  }

  /** What entry `e` of directory `parent` adds to `fs`: nothing when it is
      excluded. */
  function FsContribution(excluded: Exclusion, parent: string, e: Entry): seq<FsEntry>
  {
    if Kept(excluded, parent, e) then EntryFs(parent, e) else []
  }

  /** `Dir(path)` for a directory whose listing is `entries`: the entries
      are taken in listing order, each appending its contribution to `fs`
      and `dirs`; a kept entry resolving to a directory (a link to one too)
      contributes its own recursive scan. */
  function Scan(excluded: Exclusion, path: string, entries: seq<Entry>): Dir
    decreases entries
  {
    if entries == [] then Dir(Basename(path), path, [], [])
    else
      var d := Scan(excluded, path, entries[..|entries| - 1]);
      var e := entries[|entries| - 1];
      Dir(d.name, d.path, d.fs + FsContribution(excluded, path, e),
          d.dirs + if Kept(excluded, path, e) && e.target.Directory?
                   then [Scan(excluded, PathJoin(path, e.name), e.target.entries)] else [])
  }

  /** What entry `e` of directory `parent` adds to `dirs`. */
  function DirsContribution(excluded: Exclusion, parent: string, e: Entry): seq<Dir>
  {
    if Kept(excluded, parent, e) && e.target.Directory?
    then [Scan(excluded, PathJoin(parent, e.name), e.target.entries)] else []
  }

  /** `Dir.get_info`: one pass over the listing, appending to `fs` and
      `dirs`; the result is the scan of the listing under the chain's test. */
  method ScanDirectory(chain: FilterChain, search: Search, path: string, entries: seq<Entry>) returns (d: Dir)
    ensures d == Scan(ChainTest(chain.filters, search), path, entries)
    decreases entries, 1
  {
    ghost var excluded := ChainTest(chain.filters, search);
    var fs: seq<FsEntry> := [];
    var dirs: seq<Dir> := [];
    for i := 0 to |entries|
      invariant fs == Scan(excluded, path, entries[..i]).fs
      invariant dirs == Scan(excluded, path, entries[..i]).dirs
    {
      fs, dirs := ScanEntry(chain, search, path, entries[i], fs, dirs);
      ScanStep(excluded, path, entries, i);
    }
    TakeAll(entries);
    ScanFields(excluded, path, entries, fs, dirs);
    d := Dir(Basename(path), path, fs, dirs);
  }

  /** One iteration of the loop of `Dir.get_info`, for listed entry `e`:
      nothing for an excluded entry; otherwise a `Link` for a link, then a
      `File` for a regular file or else a recursive scan for a directory. */
  method ScanEntry(chain: FilterChain, search: Search, path: string, e: Entry, fs0: seq<FsEntry>, dirs0: seq<Dir>)
    returns (fs: seq<FsEntry>, dirs: seq<Dir>)
    ensures fs == fs0 + FsContribution(ChainTest(chain.filters, search), path, e)
    ensures dirs == dirs0 + DirsContribution(ChainTest(chain.filters, search), path, e)
    decreases e, 0
  {
    fs, dirs := fs0, dirs0;
    var p := PathJoin(path, e.name);
    var bad := chain.IsBad(search, e.name, p);
    if !bad {
      ghost var links := if e.link.Some? then [MakeLink(p, e.link.value)] else [];
      ghost var files := if e.target.RegularFile? then [MakeFile(p, e.target.data)] else [];
      if e.link.Some? {
        fs := fs + [MakeLink(p, e.link.value)];
      }
      assert fs == fs0 + links;
      if e.target.RegularFile? {
        fs := fs + [MakeFile(p, e.target.data)];
      } else if e.target.Directory? {
        var sub := ScanDirectory(chain, search, p, e.target.entries);
        dirs := dirs + [sub];
      }
      AppendAssoc(fs0, links, files);
    }
  }

  /** A scanned directory is named by the basename of its path and keeps
      the path it was scanned under. */
  lemma {:induction false} ScanNames(excluded: Exclusion, path: string, entries: seq<Entry>)
    ensures Scan(excluded, path, entries).name == Basename(path)
    ensures Scan(excluded, path, entries).path == path
  {
    if entries != [] {
      ScanNames(excluded, path, entries[..|entries| - 1]);
    }
  }

  /** A scan is determined by its `fs` and `dirs`. */
  lemma ScanFields(excluded: Exclusion, path: string, entries: seq<Entry>, fs: seq<FsEntry>, dirs: seq<Dir>)
    requires fs == Scan(excluded, path, entries).fs && dirs == Scan(excluded, path, entries).dirs
    ensures Scan(excluded, path, entries) == Dir(Basename(path), path, fs, dirs)
  {
    ScanNames(excluded, path, entries);
  }

  /** Scanning one more listed entry appends exactly its contributions. */
  lemma ScanStep(excluded: Exclusion, path: string, entries: seq<Entry>, i: nat)
    requires i < |entries|
    ensures Scan(excluded, path, entries[..i + 1]).fs
         == Scan(excluded, path, entries[..i]).fs + FsContribution(excluded, path, entries[i])
    ensures Scan(excluded, path, entries[..i + 1]).dirs
         == Scan(excluded, path, entries[..i]).dirs + DirsContribution(excluded, path, entries[i])
  {
    assert entries[..i + 1][..i] == entries[..i];
  }

  /** Everything in `fs` comes from a kept listed entry. */
  lemma {:induction false} ScanFsSound(excluded: Exclusion, path: string, entries: seq<Entry>)
    ensures forall x :: x in Scan(excluded, path, entries).fs ==>
      exists i :: 0 <= i < |entries| && Kept(excluded, path, entries[i]) && x in EntryFs(path, entries[i])
  {
    if entries != [] {
      var init := entries[..|entries| - 1];
      ScanFsSound(excluded, path, init);
      assert forall i :: 0 <= i < |init| ==> init[i] == entries[i];
    }
  }

  /** Everything a kept listed entry contributes is in `fs`. */
  lemma {:induction false} ScanFsComplete(excluded: Exclusion, path: string, entries: seq<Entry>)
    ensures forall i, x :: 0 <= i < |entries| && Kept(excluded, path, entries[i]) && x in EntryFs(path, entries[i]) ==>
      x in Scan(excluded, path, entries).fs
  {
    if entries != [] {
      var init := entries[..|entries| - 1];
      ScanFsComplete(excluded, path, init);
      assert forall i :: 0 <= i < |init| ==> init[i] == entries[i];
    }
  }

  /** Every kept link yields a `Link` and every kept entry resolving to a
      regular file yields a `File`, under the entry's joined path. */
  lemma ScanKeepsLinksAndFiles(excluded: Exclusion, path: string, entries: seq<Entry>, i: nat)
    requires i < |entries| && Kept(excluded, path, entries[i])
    ensures entries[i].link.Some? ==>
      MakeLink(PathJoin(path, entries[i].name), entries[i].link.value) in Scan(excluded, path, entries).fs
    ensures entries[i].target.RegularFile? ==>
      MakeFile(PathJoin(path, entries[i].name), entries[i].target.data) in Scan(excluded, path, entries).fs
  {
    ScanFsComplete(excluded, path, entries);
    var c := EntryFs(path, entries[i]);
    if entries[i].link.Some? {
      assert MakeLink(PathJoin(path, entries[i].name), entries[i].link.value) in c;
    }
    if entries[i].target.RegularFile? {
      assert MakeFile(PathJoin(path, entries[i].name), entries[i].target.data) in c;
    }
  }

  /** Every member of `dirs` is the recursive scan of a kept listed entry
      that resolves to a directory. */
  lemma {:induction false} ScanDirsSound(excluded: Exclusion, path: string, entries: seq<Entry>)
    ensures forall x :: x in Scan(excluded, path, entries).dirs ==>
      exists i :: 0 <= i < |entries| && Kept(excluded, path, entries[i]) && entries[i].target.Directory?
                && x == Scan(excluded, PathJoin(path, entries[i].name), entries[i].target.entries)
  {
    if entries != [] {
      var init := entries[..|entries| - 1];
      ScanDirsSound(excluded, path, init);
      assert forall i :: 0 <= i < |init| ==> init[i] == entries[i];
    }
  }

  /** The recursive scan of every kept listed entry that resolves to a
      directory is in `dirs`. */
  lemma {:induction false} ScanDirsComplete(excluded: Exclusion, path: string, entries: seq<Entry>)
    ensures forall i :: 0 <= i < |entries| && Kept(excluded, path, entries[i]) && entries[i].target.Directory? ==>
      Scan(excluded, PathJoin(path, entries[i].name), entries[i].target.entries) in Scan(excluded, path, entries).dirs
  {
    if entries != [] {
      var init := entries[..|entries| - 1];
      ScanDirsComplete(excluded, path, init);
      assert forall i :: 0 <= i < |init| ==> init[i] == entries[i];
    }
  }

  /** What an entry adds to `fs` sits at the entry's joined path and is
      named by that path's basename. */
  lemma EntryFsPath(parent: string, e: Entry, x: FsEntry)
    requires x in EntryFs(parent, e)
    ensures x.path == PathJoin(parent, e.name) && x.name == Basename(x.path)
  {
    var p := PathJoin(parent, e.name);
    var links := if e.link.Some? then [MakeLink(p, e.link.value)] else [];
    var files := if e.target.RegularFile? then [MakeFile(p, e.target.data)] else [];
    assert EntryFs(parent, e) == links + files;
    if x in links {
      assert x == MakeLink(p, e.link.value);
    } else {
      assert x == MakeFile(p, e.target.data);
    }
  }

  /** A member of `fs` is not excluded on its own name and path, and its
      name is a listed name. */
  lemma ScanFsMember(excluded: Exclusion, path: string, entries: seq<Entry>, x: FsEntry)
    requires WellNamed(entries) && x in Scan(excluded, path, entries).fs
    ensures !excluded(x.name, x.path) && exists i :: 0 <= i < |entries| && x.name == entries[i].name
  {
    ScanFsSound(excluded, path, entries);
    var i :| 0 <= i < |entries| && Kept(excluded, path, entries[i]) && x in EntryFs(path, entries[i]);
    EntryFsPath(path, entries[i], x);
    assert entries[i].name != [] && Sep !in entries[i].name;
    BasenameOfJoin(path, entries[i].name);
  }

  /** A member of `dirs` is not excluded on its own name and path, and its
      name is a listed name. */
  lemma ScanDirsMember(excluded: Exclusion, path: string, entries: seq<Entry>, x: Dir)
    requires WellNamed(entries) && x in Scan(excluded, path, entries).dirs
    ensures !excluded(x.name, x.path) && exists i :: 0 <= i < |entries| && x.name == entries[i].name
  {
    ScanDirsSound(excluded, path, entries);
    var i :| 0 <= i < |entries| && Kept(excluded, path, entries[i]) && entries[i].target.Directory?
              && x == Scan(excluded, PathJoin(path, entries[i].name), entries[i].target.entries);
    BasenameOfJoin(path, entries[i].name);
    ScanNames(excluded, PathJoin(path, entries[i].name), entries[i].target.entries);
  }

  /** No child of a scanned directory is excluded when tested on its own
      name and path, and each child's name is a listed name. */
  lemma ScanKeepsOnlyUnexcluded(excluded: Exclusion, path: string, entries: seq<Entry>)
    requires WellNamed(entries)
    ensures forall x :: x in Scan(excluded, path, entries).fs ==>
      !excluded(x.name, x.path) && exists i :: 0 <= i < |entries| && x.name == entries[i].name
    ensures forall x :: x in Scan(excluded, path, entries).dirs ==>
      !excluded(x.name, x.path) && exists i :: 0 <= i < |entries| && x.name == entries[i].name
  {
    forall x | x in Scan(excluded, path, entries).fs
      ensures !excluded(x.name, x.path) && exists i :: 0 <= i < |entries| && x.name == entries[i].name
    {
      ScanFsMember(excluded, path, entries, x);
    }
    forall x | x in Scan(excluded, path, entries).dirs
      ensures !excluded(x.name, x.path) && exists i :: 0 <= i < |entries| && x.name == entries[i].name
    {
      ScanDirsMember(excluded, path, entries, x);
    }
  }

  /** Scanning a listing with an excluded entry gives the same directory as
      scanning the listing without it, so neither the rendering nor the
      totals see that entry or its subtree. */
  lemma {:induction false} ScanSkipsExcluded(excluded: Exclusion, path: string, entries: seq<Entry>, j: nat)
    requires j < |entries|
    requires excluded(entries[j].name, PathJoin(path, entries[j].name))
    ensures Scan(excluded, path, entries) == Scan(excluded, path, entries[..j] + entries[j + 1..])
  {
    DropAt(entries, j);
    if j == |entries| - 1 {
      ScanDropsExcludedLast(excluded, path, entries);
    } else {
      ScanSkipsExcluded(excluded, path, entries[..|entries| - 1], j);
      ScanSameLast(excluded, path, entries, entries[..j] + entries[j + 1..]);
    }
  }

  /** An excluded last entry adds nothing. */
  lemma ScanDropsExcludedLast(excluded: Exclusion, path: string, entries: seq<Entry>)
    requires entries != [] && !Kept(excluded, path, entries[|entries| - 1])
    ensures Scan(excluded, path, entries) == Scan(excluded, path, entries[..|entries| - 1])
  {
    var d := Scan(excluded, path, entries[..|entries| - 1]);
    assert d.fs + [] == d.fs && d.dirs + [] == d.dirs;
  }

  /** Two listings that end in the same entry and scan alike without it
      scan alike. */
  lemma ScanSameLast(excluded: Exclusion, path: string, a: seq<Entry>, b: seq<Entry>)
    requires a != [] && b != [] && a[|a| - 1] == b[|b| - 1]
    requires Scan(excluded, path, a[..|a| - 1]) == Scan(excluded, path, b[..|b| - 1])
    ensures Scan(excluded, path, a) == Scan(excluded, path, b)
  {
  }
}
