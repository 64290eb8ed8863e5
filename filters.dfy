/**
 * The exclusion filter chain of sum.py: filters over an entry's name and
 * path, an ordered registry that registration only appends to, and the
 * "excluded if any filter matches" test.
 */
module Filters {
  import opened Wrappers
  import opened FileSystem

  /** `re.compile(pattern).search(text)` finds a match. Regular-expression
      semantics are not modelled: the matcher is supplied by the caller. */
  type Search = (string, string) -> bool

  datatype Filter =
      /** Matches `pattern` against the path when `matchPath`, otherwise
          against the name. */
    | RegxFilter(pattern: string, matchPath: bool)
      /** Excludes the entries whose name is exactly `name`. */
    | NameFilter(name: string)
      /** Excludes the entry whose path is exactly `path`. The source stores
          the literal in `self.name` and reads `self.path`; this model uses
          the one field it is given (see PathFilterAsWritten). */
    | PathFilter(path: string)
  {
    /** `is_bad(name, path)` of each filter kind. */
    predicate IsBad(search: Search, entryName: string, entryPath: string)
    {
      match this
      case RegxFilter(pattern, matchPath) =>
        if matchPath then search(pattern, entryPath) else search(pattern, entryName)
      case NameFilter(literal) => entryName == literal
      case PathFilter(literal) => entryPath == literal
    }
  }

  /** The filter `filter_regx` registers for pattern `r`: its match target is
      fixed, once, by whether the pattern text contains the separator. */
  function RegxFilterFor(r: string): (f: Filter)
    ensures f.RegxFilter? && f.pattern == r
    ensures f.matchPath <==> Sep in r
  {
    RegxFilter(r, Sep in r)
  }

  /** A registered pattern with a separator looks only at the path, one
      without looks only at the name. */
  lemma RegxTarget(r: string, search: Search, name: string, path: string)
    ensures Sep in r ==> (RegxFilterFor(r).IsBad(search, name, path) <==> search(r, path))
    ensures Sep !in r ==> (RegxFilterFor(r).IsBad(search, name, path) <==> search(r, name))
  {
  }

  /** A name filter looks at nothing but the name, and at the path filter
      nothing but the path. */
  lemma LiteralFilters(literal: string, search: Search, name: string, path: string)
    ensures NameFilter(literal).IsBad(search, name, path) <==> name == literal
    ensures PathFilter(literal).IsBad(search, name, path) <==> path == literal
  {
  }

  /** `Item.is_bad` as a value: the filters tried in registration order. */
  function Excludes(filters: seq<Filter>, search: Search, name: string, path: string): bool
  {
    if filters == [] then false
    else filters[0].IsBad(search, name, path) || Excludes(filters[1..], search, name, path)
  }

  /** The entry is excluded iff some filter of the chain reports it; an
      empty chain excludes nothing. */
  lemma {:induction false} ExcludesAny(filters: seq<Filter>, search: Search, name: string, path: string)
    ensures Excludes(filters, search, name, path)
        <==> exists i :: 0 <= i < |filters| && filters[i].IsBad(search, name, path)
    ensures filters == [] ==> !Excludes(filters, search, name, path)
  {
    if filters != [] {
      ExcludesAny(filters[1..], search, name, path);
      if Excludes(filters[1..], search, name, path) {
        var i :| 0 <= i < |filters[1..]| && filters[1..][i].IsBad(search, name, path);
        assert filters[i + 1] == filters[1..][i];
      }
      assert forall i :: 1 <= i < |filters| ==> filters[i] == filters[1..][i - 1];
    }
  }

  /** Registering more filters excludes what the old chain excluded and what
      the new filters exclude, nothing else. */
  lemma {:induction false} ExcludesAppend(registered: seq<Filter>, added: seq<Filter>, search: Search, name: string, path: string)
    ensures Excludes(registered + added, search, name, path)
        <==> Excludes(registered, search, name, path) || Excludes(added, search, name, path)
  {
    if registered == [] {
      assert registered + added == added;
    } else {
      assert (registered + added)[1..] == registered[1..] + added;
      ExcludesAppend(registered[1..], added, search, name, path);
    }
  }

  /** The class-level list `Item._filters`, passed explicitly to the scanner
      instead of being shared by every entity class. */
  class FilterChain {
    var filters: seq<Filter>

    constructor ()
      ensures filters == []
    {
      filters := [];
    }

    /** `Item.filter_regx(*regxs)`. */
    method FilterRegx(regxs: seq<string>)
      modifies this
      ensures filters == old(filters) + seq(|regxs|, i requires 0 <= i < |regxs| => RegxFilterFor(regxs[i]))
    {
      filters := filters + seq(|regxs|, i requires 0 <= i < |regxs| => RegxFilterFor(regxs[i]));
    }

    /** `Item.filter_name(*ns)`. */
    method FilterName(ns: seq<string>)
      modifies this
      ensures filters == old(filters) + seq(|ns|, i requires 0 <= i < |ns| => NameFilter(ns[i]))
    {
      filters := filters + seq(|ns|, i requires 0 <= i < |ns| => NameFilter(ns[i]));
    }

    /** `Item.filter_path(*ps)`. */
    method FilterPath(ps: seq<string>)
      modifies this
      ensures filters == old(filters) + seq(|ps|, i requires 0 <= i < |ps| => PathFilter(ps[i]))
    {
      filters := filters + seq(|ps|, i requires 0 <= i < |ps| => PathFilter(ps[i]));
    }

    /** `Item.is_bad(name, path)`: the filters in registration order, stopping
        at the first that reports the entry. */
    method IsBad(search: Search, name: string, path: string) returns (bad: bool)
      ensures bad == Excludes(filters, search, name, path)
      ensures bad <==> exists i :: 0 <= i < |filters| && filters[i].IsBad(search, name, path)
    {
      ExcludesAny(filters, search, name, path);
      for i := 0 to |filters|
        invariant forall j :: 0 <= j < i ==> !filters[j].IsBad(search, name, path)
      {
        if filters[i].IsBad(search, name, path) {
          return true;
        }
      }
      return false;
    }
  }

  /** `PathFilter.is_bad` as written: it reads `self.path`, which the
      constructor never sets, so every call raises AttributeError (None). */
  function PathFilterAsWritten(literal: string, name: string, path: string): Option<bool>
  {
    None
  }

  /** `Item.is_bad` as written: an AttributeError from a path filter that is
      reached before any match aborts the whole call. */
  function ExcludesAsWritten(filters: seq<Filter>, search: Search, name: string, path: string): (r: Option<bool>)
    ensures r == Some(true) ==> Excludes(filters, search, name, path)
    ensures (forall i :: 0 <= i < |filters| ==> !filters[i].PathFilter?) ==> r == Some(Excludes(filters, search, name, path))
  {
    if filters == [] then Some(false)
    else
      var first := if filters[0].PathFilter? then PathFilterAsWritten(filters[0].path, name, path)
                   else Some(filters[0].IsBad(search, name, path));
      match first
      case None => None
      case Some(true) => Some(true)
      case Some(false) => ExcludesAsWritten(filters[1..], search, name, path)
  }

  /** The path filter as written never excludes the path it names: a chain
      holding only `PathFilter(p)` fails on the entry at `p`, where the
      intended chain excludes it. */
  lemma PathFilterNeverExcludes(p: string, search: Search)
    ensures ExcludesAsWritten([PathFilter(p)], search, Basename(p), p) == None
    ensures Excludes([PathFilter(p)], search, Basename(p), p)
  {
    assert [PathFilter(p)][0].IsBad(search, Basename(p), p);
  }
}
