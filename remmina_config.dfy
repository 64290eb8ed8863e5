/**
 * `get_configure` of hack/list_remmina_pwds.py: the `key=value` reader for
 * Remmina's preference and connection files. The file's text is a
 * parameter; reading the file is not modelled.
 */
module RemminaConfig {
  import opened Text

  /** The dictionary `get_configure` returns. */
  type Config = map<string, string>

  /** `line and '=' in line`: the lines that become an entry. */
  predicate IsKept(line: string)
  {
    line != [] && '=' in line
  }

  /** `line.split('=', 1)` on a line holding `=`: the key before the first
      `=` and the value after it. */
  function SplitFirst(line: string): (kv: (string, string))
    requires '=' in line
    ensures line == kv.0 + "=" + kv.1
    ensures '=' !in kv.0
  {
    var j := IndexOf(line, '=');
    assert line == line[..j] + "=" + line[j + 1..];
    (line[..j], line[j + 1..])
  }

  /** `SplitFirst` is the only way to cut a line at an `=` so that the key
      holds no `=`. */
  lemma SplitFirstUnique(line: string, k: string, v: string)
    requires line == k + "=" + v && '=' !in k
    ensures SplitFirst(line) == (k, v)
  {
    assert line[|k|] == '=';
    assert line[..|k|] == k;
    assert line[|k| + 1..] == v;
  }

  function KeyOf(line: string): string
    requires '=' in line
  {
    SplitFirst(line).0
  }

  function ValueOf(line: string): string
    requires '=' in line
  {
    SplitFirst(line).1
  }

  /** The dictionary after the loop has seen `lines` in order: each kept
      line stores its value under its key, replacing what an earlier line
      stored there. No key holds `=`. */
  function Parse(lines: seq<string>): (cfg: Config)
    ensures forall k :: k in cfg ==> '=' !in k
  {
    if lines == [] then map[]
    else
      var cfg := Parse(lines[..|lines| - 1]);
      var line := lines[|lines| - 1];
      if IsKept(line) then cfg[KeyOf(line) := ValueOf(line)] else cfg
  }

  /** `get_configure` on a file whose text is `text`: only `'\n'` ends a
      line. */
  function Configure(text: string): Config
  {
    Parse(Split(text, '\n'))
  }

  /** `get_configure`: the loop over the lines of the text, filling `cfg`
      in place. */
  method GetConfigure(text: string) returns (cfg: Config)
    ensures cfg == Configure(text)
  {
    var lines := Split(text, '\n');
    cfg := map[];
    for i := 0 to |lines|
      invariant cfg == Parse(lines[..i])
    {
      var line := lines[i];
      ParseStep(lines, i);
      if line != [] && '=' in line {
        var kv := SplitFirst(line);
        cfg := cfg[kv.0 := kv.1];
      }
    }
    TakeAll(lines);
  }

  /** One more line seen by the loop. */
  lemma ParseStep(lines: seq<string>, i: nat)
    requires i < |lines|
    ensures Parse(lines[..i + 1])
         == if IsKept(lines[i]) then Parse(lines[..i])[KeyOf(lines[i]) := ValueOf(lines[i])]
            else Parse(lines[..i])
  {
    assert lines[..i + 1][..i] == lines[..i];
  }

  /** Every kept line's key is in the result. */
  lemma {:induction false} KeptKeyPresent(lines: seq<string>, i: nat)
    requires i < |lines| && IsKept(lines[i])
    ensures KeyOf(lines[i]) in Parse(lines)
  {
    if i < |lines| - 1 {
      var init := lines[..|lines| - 1];
      assert init[i] == lines[i];
      KeptKeyPresent(init, i);
    }
  }

  /** Every key in the result comes from a kept line. */
  lemma {:induction false} KeySource(lines: seq<string>, k: string) returns (i: nat)
    requires k in Parse(lines)
    ensures i < |lines| && IsKept(lines[i]) && KeyOf(lines[i]) == k
  {
    var init := lines[..|lines| - 1];
    var line := lines[|lines| - 1];
    if IsKept(line) && KeyOf(line) == k {
      i := |lines| - 1;
    } else {
      i := KeySource(init, k);
      assert init[i] == lines[i];
    }
  }

  /** The keys of the result are exactly the keys of the kept lines. */
  lemma ParseKeys(lines: seq<string>, k: string)
    ensures k in Parse(lines) <==>
      exists i :: 0 <= i < |lines| && IsKept(lines[i]) && KeyOf(lines[i]) == k
  {
    if k in Parse(lines) {
      var i := KeySource(lines, k);
    }
    if exists i :: 0 <= i < |lines| && IsKept(lines[i]) && KeyOf(lines[i]) == k {
      var i :| 0 <= i < |lines| && IsKept(lines[i]) && KeyOf(lines[i]) == k;
      KeptKeyPresent(lines, i);
    }
  }

  /** A kept line that no later kept line shares its key with decides the
      value stored under that key. */
  lemma {:induction false} LastWins(lines: seq<string>, i: nat)
    requires i < |lines| && IsKept(lines[i])
    requires forall j :: i < j < |lines| && IsKept(lines[j]) ==> KeyOf(lines[j]) != KeyOf(lines[i])
    ensures KeyOf(lines[i]) in Parse(lines)
    ensures Parse(lines)[KeyOf(lines[i])] == ValueOf(lines[i])
  {
    if i < |lines| - 1 {
      var init := lines[..|lines| - 1];
      assert init[i] == lines[i];
      forall j | i < j < |init| && IsKept(init[j])
        ensures KeyOf(init[j]) != KeyOf(init[i])
      {
        assert init[j] == lines[j];
      }
      LastWins(init, i);
    }
  }

  /** A line that is empty or holds no `=` changes nothing, wherever it
      stands. */
  lemma {:induction false} IgnoredLine(a: seq<string>, line: string, b: seq<string>)
    requires !IsKept(line)
    ensures Parse(a + [line] + b) == Parse(a + b)
    decreases |b|
  {
    var s := a + [line] + b;
    var t := a + b;
    if b == [] {
      assert s[..|s| - 1] == a;
      assert t == a;
    } else {
      var init := b[..|b| - 1];
      assert s[..|s| - 1] == a + [line] + init;
      assert t[..|t| - 1] == a + init;
      assert s[|s| - 1] == t[|t| - 1] == b[|b| - 1];
      IgnoredLine(a, line, init);
    }
  }

  /** The `k=v` lines of a dictionary, its keys taken in the order `keys`. */
  function Lines(cfg: Config, keys: seq<string>): (lines: seq<string>)
    requires forall i :: 0 <= i < |keys| ==> keys[i] in cfg
    ensures |lines| == |keys|
  {
    seq(|keys|, i requires 0 <= i < |keys| => keys[i] + "=" + cfg[keys[i]])
  }

  predicate Distinct(keys: seq<string>)
  {
    forall i, j :: 0 <= i < j < |keys| ==> keys[i] != keys[j]
  }

  /** A dictionary's keys hold no `=` or `'\n'` and its values no `'\n'`. */
  predicate Writable(cfg: Config)
  {
    forall k :: k in cfg ==> '=' !in k && '\n' !in k && '\n' !in cfg[k]
  }

  /** `keys` lists the keys of `cfg`, each once. */
  ghost predicate KeyOrder(cfg: Config, keys: seq<string>)
  {
    Distinct(keys) && forall k :: k in cfg <==> k in keys
  }

  /** Each written line is one line, kept, and splits back into its key and
      value. */
  lemma LineParts(cfg: Config, keys: seq<string>, i: nat)
    requires KeyOrder(cfg, keys) && Writable(cfg) && i < |keys|
    ensures '\n' !in Lines(cfg, keys)[i] && IsKept(Lines(cfg, keys)[i])
    ensures KeyOf(Lines(cfg, keys)[i]) == keys[i] && ValueOf(Lines(cfg, keys)[i]) == cfg[keys[i]]
  {
    var line := Lines(cfg, keys)[i];
    assert line == keys[i] + "=" + cfg[keys[i]];
    assert line[|keys[i]|] == '=';
    SplitFirstUnique(line, keys[i], cfg[keys[i]]);
  }

  /** The loop over the written lines rebuilds the dictionary. */
  lemma ParseLines(cfg: Config, keys: seq<string>)
    requires KeyOrder(cfg, keys) && Writable(cfg)
    ensures Parse(Lines(cfg, keys)) == cfg
  {
    var lines := Lines(cfg, keys);
    var p := Parse(lines);
    forall k | k in cfg
      ensures k in p && p[k] == cfg[k]
    {
      var i :| 0 <= i < |keys| && keys[i] == k;
      LineParts(cfg, keys, i);
      forall j | i < j < |lines| && IsKept(lines[j])
        ensures KeyOf(lines[j]) != KeyOf(lines[i])
      {
        LineParts(cfg, keys, j);
      }
      LastWins(lines, i);
    }
    forall k | k in p
      ensures k in cfg
    {
      var i := KeySource(lines, k);
      LineParts(cfg, keys, i);
    }
  }

  /** A dictionary whose keys hold no `=` or `'\n'` and whose values hold
      no `'\n'`, written one `k=v` line per key in any order and joined by
      `'\n'`, reads back as itself. */
  lemma RoundTrip(cfg: Config, keys: seq<string>)
    requires KeyOrder(cfg, keys) && Writable(cfg)
    ensures Configure(Join(Lines(cfg, keys), '\n')) == cfg
  {
    var lines := Lines(cfg, keys);
    if keys == [] {
      assert Split([], '\n') == [[]];
      ParseLines(cfg, keys);
    } else {
      forall i | 0 <= i < |lines|
        ensures '\n' !in lines[i]
      {
        LineParts(cfg, keys, i);
      }
      SplitJoin(lines, '\n');
      ParseLines(cfg, keys);
    }
  }

  /** A text holding one line `k=v` stores `v` under `k`, for any key
      without `=`, the empty one included, and any value, `=` included. */
  lemma OneLine(k: string, v: string)
    requires '=' !in k && '\n' !in k && '\n' !in v
    ensures Configure(k + "=" + v) == map[k := v]
  {
    var line := k + "=" + v;
    assert line[|k|] == '=';
    assert '\n' !in line by {
      assert forall i :: 0 <= i < |line| ==> line[i] == (if i < |k| then k[i] else if i == |k| then '=' else v[i - |k| - 1]);
    }
    SplitPiece(line, '\n');
    ParseOne(line);
    SplitFirstUnique(line, k, v);
  }

  /** The line `=x` stores `x` under the empty key, and only the first `=`
      separates: `a=b=c` stores `b=c` under `a`. */
  lemma KeyValueExamples()
    ensures Configure("=x") == map["" := "x"]
    ensures Configure("a=b=c") == map["a" := "b=c"]
  {
    OneLine("", "x");
    assert "" + "=" + "x" == "=x";
    OneLine("a", "b=c");
    assert "a" + "=" + "b=c" == "a=b=c";
  }

  /** Only `'\n'` ends a line: with `"\r\n"` line ends the `'\r'` stays in
      the value, and the empty last line adds nothing. */
  lemma CarriageReturnKept()
    ensures Configure("a=b\r\n") == map["a" := "b\r"]
  {
    assert "a=b\r\n" == "a=b\r" + "\n";
    LastLineEnded("a=b\r");
    ParseOne("a=b\r");
    SplitFirstUnique("a=b\r", "a", "b\r");
  }

  /** A one-line text ended by `'\n'` leaves an empty last piece, which adds
      nothing. */
  lemma LastLineEnded(line: string)
    requires '\n' !in line
    ensures Configure(line + "\n") == Parse([line])
  {
    SplitAfterPiece(line, [], '\n');
    assert line + "\n" == line + ['\n'] + [];
    SplitPiece(line, '\n');
    assert Split([], '\n') == [[]];
    assert [line, []][..1] == [line];
  }

  /** A single kept line gives a single entry. */
  lemma ParseOne(line: string)
    requires IsKept(line)
    ensures Parse([line]) == map[KeyOf(line) := ValueOf(line)]
  {
    assert [line][..0] == [];
  }
}
