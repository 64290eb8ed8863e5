/**
 * The abstract filesystem the summariser walks. The real directory listing,
 * `os.path.islink/isfile/isdir` and `os.path.realpath` are replaced by a
 * finite tree: each listed entry records its name, whether it is a symbolic
 * link (and then the text `realpath` resolves it to), and what the path
 * resolves to after following links.
 */
module FileSystem {
  import opened Wrappers

  /** One byte of a file's contents (Python 2 `str` read from a file). */
  newtype byte = x: int | 0 <= x < 256

  /** The path separator `os.sep` of a POSIX system. */
  const Sep: char := '/'

  /** What a path resolves to: `os.path.isfile`, `os.path.isdir`, or neither
      (a dangling link, a device, a socket). */
  datatype Node =
    | RegularFile(data: seq<byte>)
    | Directory(entries: seq<Entry>)
    | Other

  /** One name returned by `os.listdir`: `link` is `Some(real path)` when the
      entry itself is a symbolic link; `target` is what it resolves to. */
  datatype Entry = Entry(name: string, link: Option<string>, target: Node)

  /** What `os.listdir` can return: non-empty names without a separator,
      throughout the tree. */
  predicate WellNamed(entries: seq<Entry>)
  {
    forall i :: 0 <= i < |entries| ==>
      && entries[i].name != []
      && Sep !in entries[i].name
      && (entries[i].target.Directory? ==> WellNamed(entries[i].target.entries))
  }

  /** `os.path.join(a, b)` of POSIX Python 2. */
  function PathJoin(a: string, b: string): (p: string)
    ensures Sep !in b ==> p == (if a == [] || a[|a| - 1] == Sep then a + b else a + [Sep] + b)
  {
    if |b| > 0 && b[0] == Sep then b
    else if a == [] || a[|a| - 1] == Sep then a + b
    else a + [Sep] + b
  }

  /** `os.path.split(p)[-1]`: the text after the last separator. */
  function Basename(p: string): (r: string)
    ensures Sep !in r
    ensures |r| <= |p| && p[|p| - |r|..] == r
    ensures |r| < |p| ==> p[|p| - |r| - 1] == Sep
  {
    if p == [] || p[|p| - 1] == Sep then []
    else
      var r := Basename(p[..|p| - 1]) + [p[|p| - 1]];
      assert p[..|p| - 1] + [p[|p| - 1]] == p;
      r
  }

  lemma {:induction false} BasenameAppend(a: string, n: string)
    requires Sep !in n
    ensures Basename(a + n) == Basename(a) + n
  {
    if n != [] {
      var m := n[..|n| - 1];
      assert (a + n)[..|a + n| - 1] == a + m;
      BasenameAppend(a, m);
      assert m + [n[|n| - 1]] == n;
    } else {
      assert a + n == a;
    }
  }

  /** The name of a joined child path is the listed name (what sum.py relies
      on when it recomputes `name` from `path`). */
  lemma BasenameOfJoin(parent: string, name: string)
    requires name != [] && Sep !in name
    ensures Basename(PathJoin(parent, name)) == name
  {
    if parent == [] || parent[|parent| - 1] == Sep {
      BasenameAppend(parent, name);
      if parent != [] {
        assert Basename(parent) == [];
      }
    } else {
      BasenameAppend(parent + [Sep], name);
      assert Basename(parent + [Sep]) == [];
    }
  }
}
