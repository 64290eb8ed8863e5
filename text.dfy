/**
 * Sequence and string helpers that stand for the Python built-ins the core
 * relies on: `s.split(sep)`, `sep.join(parts)`, `s.index(x)`, `%-Ns` and
 * `%Nd` padding, and counting.
 */
module Text {

  /** Number of occurrences of `x` in `s`. */
  function Count<T(==)>(s: seq<T>, x: T): (n: nat)
    ensures n <= |s|
    ensures n == 0 <==> x !in s
  {
    if s == [] then 0 else (if s[0] == x then 1 else 0) + Count(s[1..], x)
  }

  /** Number of elements of `s` that satisfy `p`. */
  function CountIf<T>(s: seq<T>, p: T -> bool): (n: nat)
    ensures n <= |s|
    ensures n == 0 <==> forall i :: 0 <= i < |s| ==> !p(s[i])
  {
    if s == [] then 0 else (if p(s[0]) then 1 else 0) + CountIf(s[1..], p)
  }

  /** Python's `s.split(sep)` with an explicit separator: the pieces between
      separators, including empty ones; there is always at least one piece. */
  function Split<T(==)>(s: seq<T>, sep: T): (parts: seq<seq<T>>)
    ensures |parts| == Count(s, sep) + 1
    ensures forall i :: 0 <= i < |parts| ==> sep !in parts[i]
  {
    if s == [] then [[]]
    else
      var rest := Split(s[1..], sep);
      if s[0] == sep then [[]] + rest
      else [[s[0]] + rest[0]] + rest[1..]
  }

  /** Python's `sep.join(parts)`. */
  function Join<T>(parts: seq<seq<T>>, sep: T): seq<T>
  {
    if parts == [] then []
    else if |parts| == 1 then parts[0]
    else parts[0] + [sep] + Join(parts[1..], sep)
  }

  /** Joining the pieces of a split gives back the input. */
  lemma {:induction false} JoinSplit<T>(s: seq<T>, sep: T)
    ensures Join(Split(s, sep), sep) == s
  {
    if s != [] {
      JoinSplit(s[1..], sep);
      var rest := Split(s[1..], sep);
      if s[0] != sep && |rest| > 1 {
        assert Join(rest, sep) == rest[0] + [sep] + Join(rest[1..], sep);
        assert ([[s[0]] + rest[0]] + rest[1..])[1..] == rest[1..];
      }
    }
  }

  /** A piece without separator splits to itself. */
  lemma {:induction false} SplitPiece<T>(a: seq<T>, sep: T)
    requires sep !in a
    ensures Split(a, sep) == [a]
  {
    if a != [] {
      SplitPiece(a[1..], sep);
      assert [a[0]] + a[1..] == a;
    }
  }

  /** A piece followed by a separator splits off as one part. */
  lemma {:induction false} SplitAfterPiece<T>(a: seq<T>, b: seq<T>, sep: T)
    requires sep !in a
    ensures Split(a + [sep] + b, sep) == [a] + Split(b, sep)
  {
    var s := a + [sep] + b;
    if a == [] {
      assert s[1..] == b;
    } else {
      assert s[1..] == a[1..] + [sep] + b;
      SplitAfterPiece(a[1..], b, sep);
      assert [a[0]] + a[1..] == a;
    }
  }

  /** Splitting a join of separator-free pieces gives back the pieces. */
  lemma {:induction false} SplitJoin<T>(parts: seq<seq<T>>, sep: T)
    requires |parts| > 0
    requires forall i :: 0 <= i < |parts| ==> sep !in parts[i]
    ensures Split(Join(parts, sep), sep) == parts
  {
    if |parts| == 1 {
      SplitPiece(parts[0], sep);
    } else {
      SplitJoin(parts[1..], sep);
      SplitAfterPiece(parts[0], Join(parts[1..], sep), sep);
    }
  }

  /** Index of the first occurrence of `x` in `s` (Python's `s.index(x)`). */
  function IndexOf<T(==)>(s: seq<T>, x: T): (i: nat)
    requires x in s
    ensures i < |s| && s[i] == x && x !in s[..i]
  {
    if s[0] == x then 0 else 1 + IndexOf(s[1..], x)
  }

  /** `n` blanks (none when `n` is not positive). */
  function Spaces(n: int): (r: string)
    ensures |r| == if n > 0 then n else 0
    ensures forall i :: 0 <= i < |r| ==> r[i] == ' '
  {
    if n <= 0 then [] else [' '] + Spaces(n - 1)
  }

  /** `'%-Ns' % s`: `s` left-justified in a field of at least `width` characters. */
  function PadRight(s: string, width: int): (r: string)
    ensures |r| == if width > |s| then width else |s|
    ensures r[..|s|] == s
    ensures forall i :: |s| <= i < |r| ==> r[i] == ' '
  {
    s + Spaces(width - |s|)
  }

  /** `'%Ns' % s`: `s` right-justified in a field of at least `width` characters. */
  function PadLeft(s: string, width: int): (r: string)
    ensures |r| == if width > |s| then width else |s|
    ensures r[|r| - |s|..] == s
    ensures forall i :: 0 <= i < |r| - |s| ==> r[i] == ' '
  {
    Spaces(width - |s|) + s
  }

  predicate IsDigit(c: char) { '0' <= c <= '9' }

  /** The number a string of decimal digits denotes. */
  function DecimalValue(s: string): nat
    requires forall i :: 0 <= i < |s| ==> IsDigit(s[i])
  {
    if s == [] then 0
    else
      assert IsDigit(s[|s| - 1]);
      DecimalValue(s[..|s| - 1]) * 10 + (s[|s| - 1] as int - '0' as int)
  }

  /** `'%d' % n` for a non-negative `n`: its shortest decimal digits. */
  function Decimal(n: nat): (s: string)
    ensures |s| >= 1 && forall i :: 0 <= i < |s| ==> IsDigit(s[i])
    ensures DecimalValue(s) == n
    ensures |s| > 1 ==> s[0] != '0'
  {
    var last := (('0' as int) + n % 10) as char;
    if n < 10 then [last]
    else
      var s := Decimal(n / 10) + [last];
      assert s[..|s| - 1] == Decimal(n / 10);
      s
  }

  predicate StartsWith<T(==)>(s: seq<T>, p: seq<T>)
  {
    |p| <= |s| && s[..|p|] == p
  }

  /** Concatenation regroups freely. */
  lemma AppendAssoc<T>(a: seq<T>, b: seq<T>, c: seq<T>)
    ensures a + (b + c) == a + b + c
  {
  }

  /** A sequence is its part before `j`, then element `j`, then the rest. */
  lemma SplitAt<T>(s: seq<T>, j: nat)
    requires j < |s|
    ensures s == s[..j] + s[j..]
    ensures s[j..][0] == s[j] && s[j..][1..] == s[j + 1..]
  {
  }

  /** The head and tail of a concatenation with a non-empty left part. */
  lemma AppendHeadTail<T>(a: seq<T>, b: seq<T>)
    requires a != []
    ensures (a + b)[0] == a[0] && (a + b)[1..] == a[1..] + b
  {
  }

  /** Where a block `[h] + s` sits inside `a + ([h] + s) + b`. */
  lemma BlockAt<T>(a: seq<T>, h: T, s: seq<T>, b: seq<T>)
    ensures |a| + 1 + |s| <= |a + ([h] + s) + b|
    ensures (a + ([h] + s) + b)[|a|] == h
    ensures (a + ([h] + s) + b)[|a| + 1..|a| + 1 + |s|] == s
  {
    var t := a + ([h] + s) + b;
    assert t[|a| + 1..|a| + 1 + |s|] == s by {
      forall i | 0 <= i < |s|
        ensures t[|a| + 1 + i] == s[i]
      {
      }
    }
  }

  /** Where `s` sits inside `g + s`. */
  lemma AfterPrefix<T>(g: seq<T>, s: seq<T>, w: nat)
    requires w < |s|
    ensures |g + s| > |g| + w
    ensures (g + s)[|g|..|g| + w] == s[..w] && (g + s)[|g| + w] == s[w]
  {
  }

  /** Dropping element `j` of `s`: when `j` is last, what is left is `s`
      without its last element; otherwise it still ends in the last element
      of `s`, after `s` without its last element and without its `j`-th. */
  lemma DropAt<T>(s: seq<T>, j: nat)
    requires j < |s|
    ensures j == |s| - 1 ==> s[..j] + s[j + 1..] == s[..|s| - 1]
    ensures j < |s| - 1 ==>
      var r := s[..j] + s[j + 1..];
      && r != [] && r[|r| - 1] == s[|s| - 1]
      && r[..|r| - 1] == s[..|s| - 1][..j] + s[..|s| - 1][j + 1..]
      && s[..|s| - 1][j] == s[j]
  {
    if j < |s| - 1 {
      var r := s[..j] + s[j + 1..];
      var init := s[..|s| - 1];
      assert r[..|r| - 1] == init[..j] + init[j + 1..];
    }
  }

  /** A prefix one longer is the prefix and the next element. */
  lemma TakeNext<T>(s: seq<T>, j: nat)
    requires j < |s|
    ensures s[..j + 1] == s[..j] + [s[j]]
  {
  }

  /** The first element of `a` sits somewhere in any `b` with the same
      elements, and what is left on either side still has the same
      elements. */
  lemma PermutationHead<T>(a: seq<T>, b: seq<T>) returns (k: nat)
    requires a != [] && multiset(a) == multiset(b)
    ensures k < |b| && b[k] == a[0]
    ensures b == b[..k] + [b[k]] + b[k + 1..]
    ensures multiset(a[1..]) == multiset(b[..k] + b[k + 1..])
  {
    assert a[0] in multiset(b);
    k := IndexOf(b, a[0]);
    assert b == b[..k] + [b[k]] + b[k + 1..];
    assert a == [a[0]] + a[1..];
    calc {
      multiset(b);
      multiset(b[..k] + [b[k]] + b[k + 1..]);
      multiset(b[..k]) + multiset{b[k]} + multiset(b[k + 1..]);
      multiset(b[..k] + b[k + 1..]) + multiset{a[0]};
    }
    assert multiset(a) == multiset(a[1..]) + multiset{a[0]};
    assert multiset(a[1..]) == multiset(a) - multiset{a[0]};
    assert multiset(b[..k] + b[k + 1..]) == multiset(b) - multiset{a[0]};
  }

  /** `s` as a slice from its start. */
  lemma TakeAll<T>(s: seq<T>)
    ensures s[..|s|] == s && s[..0] == []
  {
  }

  /** `s` as a slice to its end. */
  lemma DropAll<T>(s: seq<T>)
    ensures s[0..] == s && s[|s|..] == []
  {
  }
}
