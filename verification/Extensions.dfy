/**
 * Extension extraction and the filter chain of rename.py: `get_file_ext`,
 * `is_excluded`, `is_custom_ext`, the `isfile` filter, the `all(...)` that
 * combines them, and the way the driver assembles the chain from its options.
 */
module Extensions {
  import opened Common
  import opened Text
  import opened FsTree

  /** `s.split('.')[-1]`: the text after the last `.`, or all of `s` when it has none. */
  function AfterLastDot(s: string): (r: string)
    ensures '.' !in r
    ensures |r| <= |s| && r == s[|s| - |r|..]
    ensures |r| == |s| || s[|s| - |r| - 1] == '.'
    decreases |s|
  {
    if s == [] then []
    else if s[|s| - 1] == '.' then []
    else AfterLastDot(s[..|s| - 1]) + [s[|s| - 1]]
  }

  /**
   * `get_file_ext`: the last `.`-separated segment of the whole path,
   * lower-cased; a path without any `.` is its own extension.
   */
  function GetFileExt(path: Path): (r: string)
    ensures '.' !in r && !HasUpper(r)
    ensures exists k :: 0 <= k <= |path| && (k == 0 || path[k - 1] == '.') && '.' !in path[k..] && r == Lower(path[k..])
    ensures '.' !in path ==> r == Lower(path)
  {
    var seg := AfterLastDot(path);
    LowerKeepsDots(seg);
    LowerHasNoUpper(seg);
    assert path[|path| - |seg|..] == seg;
    Lower(seg)
  }

  lemma {:induction false} AfterLastDotOfLower(s: string)
    ensures AfterLastDot(Lower(s)) == Lower(AfterLastDot(s))
    decreases |s|
  {
    if s != [] {
      var init := s[..|s| - 1];
      var c := s[|s| - 1];
      assert Lower(s) == Lower(init) + [LowerChar(c)] by {
        LowerAppend(init, [c]);
        assert init + [c] == s;
      }
      assert Lower(s)[..|s| - 1] == Lower(init);
      if c == '.' {
        assert AfterLastDot(Lower(s)) == [];
      } else {
        calc {
          AfterLastDot(Lower(s));
          AfterLastDot(Lower(init)) + [LowerChar(c)];
          { AfterLastDotOfLower(init); }
          Lower(AfterLastDot(init)) + [LowerChar(c)];
          { LowerAppend(AfterLastDot(init), [c]); }
          Lower(AfterLastDot(init) + [c]);
        }
      }
    }
  }

  /** The extension does not depend on the case of the path: `get_file_ext("A.TXT") == get_file_ext("a.txt")`. */
  lemma ExtIgnoresCase(path: Path)
    ensures GetFileExt(Lower(path)) == GetFileExt(path)
  {
    AfterLastDotOfLower(path);
    LowerIdempotent(AfterLastDot(path));
  }

  lemma {:induction false} AfterLastDotOfDotlessTail(head: string, tail: string)
    requires '.' !in tail
    ensures AfterLastDot(head + tail) == AfterLastDot(head) + tail
    decreases |tail|
  {
    if tail == [] {
      assert head + tail == head;
    } else {
      var t' := tail[..|tail| - 1];
      var last := tail[|tail| - 1];
      SplitLast(tail);
      ConcatAssoc(head, t', [last]);
      var s := head + t' + [last];
      assert s[..|s| - 1] == head + t';
      assert last != '.' by { assert last in tail; }
      assert '.' !in t' by { assert forall c :: c in t' ==> c in tail; }
      AfterLastDotOfDotlessTail(head, t');
      ConcatAssoc(AfterLastDot(head), t', [last]);
    }
  }

  lemma ExtOfDotlessTail(head: string, tail: string)
    requires '.' !in tail
    ensures GetFileExt(head + tail) == GetFileExt(head) + Lower(tail)
  {
    AfterLastDotOfDotlessTail(head, tail);
    LowerAppend(AfterLastDot(head), tail);
  }

  /**
   * The extension is taken from the joined path, so an entry name without a
   * `.` inherits the last dot segment of its directory: in `photos.2020/readme`
   * the extension is `2020/readme`.
   */
  lemma DotlessNameInheritsDirectoryExt(location: Path, name: string)
    requires '.' !in name && (name == [] || name[0] != '/')
    ensures GetFileExt(Join(location, name)) ==
            GetFileExt(location) + (if location == [] || location[|location| - 1] == '/' then Lower(name) else "/" + Lower(name))
  {
    if location == [] || location[|location| - 1] == '/' {
      assert Join(location, name) == location + name;
      ExtOfDotlessTail(location, name);
    } else {
      var tail := "/" + name;
      ConcatAssoc(location, "/", name);
      assert Join(location, name) == location + tail;
      assert '.' !in tail by { assert forall c :: c in tail ==> c == '/' || c in name; }
      ExtOfDotlessTail(location, tail);
      assert Lower(tail) == "/" + Lower(name) by {
        LowerAppend("/", name);
        assert Lower("/") == "/";
      }
    }
  }

  /** One member of the filter list built at rename.py:166-181. */
  datatype Filter =
    | IsFile                              // `os.path.isfile`
    | NotExcluded(excluded: seq<string>)  // `is_excluded`, with the global `excluded_exts`
    | OnlyExt(only: string)               // `is_custom_ext`, with the global `only_ext`

  /** One filter applied to the full joined path; the configured values are compared verbatim. */
  predicate Holds(f: Filter, snap: Snapshot, path: Path) {
    match f
    case IsFile => IsRegularFile(snap, path)
    case NotExcluded(excluded) => GetFileExt(path) !in excluded
    case OnlyExt(only) => GetFileExt(path) == only
  }

  /** `all(fil(path) for fil in filters)`, evaluated left to right with short-circuit. */
  predicate AllHold(filters: seq<Filter>, snap: Snapshot, path: Path)
    decreases |filters|
  {
    filters == [] || (Holds(filters[0], snap, path) && AllHold(filters[1..], snap, path))
  }

  lemma {:induction false} AllHoldMeansEvery(filters: seq<Filter>, snap: Snapshot, path: Path)
    ensures AllHold(filters, snap, path) <==> forall f :: f in filters ==> Holds(f, snap, path)
    decreases |filters|
  {
    if filters != [] {
      AllHoldMeansEvery(filters[1..], snap, path);
      assert forall f :: f in filters <==> f == filters[0] || f in filters[1..];
    }
  }

  /** The chain is a conjunction: listing the same filters in another order decides every path the same way. */
  lemma AllHoldIgnoresOrder(a: seq<Filter>, b: seq<Filter>, snap: Snapshot, path: Path)
    requires multiset(a) == multiset(b)
    ensures AllHold(a, snap, path) == AllHold(b, snap, path)
  {
    AllHoldMeansEvery(a, snap, path);
    AllHoldMeansEvery(b, snap, path);
    assert forall f :: f in a <==> f in multiset(a);
    assert forall f :: f in b <==> f in multiset(b);
  }

  /**
   * The filter list of rename.py:166-181: `isfile` always, then `is_excluded`
   * when `--exclude-extensions` is given (a non-empty list), then
   * `is_custom_ext` when `--only-extension` is given (a non-empty string).
   */
  function BuildFilters(onlyExt: string, excludedExts: seq<string>): (r: seq<Filter>)
    ensures |r| >= 1 && r[0] == IsFile
    ensures NotExcluded(excludedExts) in r <==> excludedExts != []
    ensures OnlyExt(onlyExt) in r <==> onlyExt != []
    ensures forall f :: f in r ==> f == IsFile || f == NotExcluded(excludedExts) || f == OnlyExt(onlyExt)
  {
    [IsFile]
    + (if excludedExts != [] then [NotExcluded(excludedExts)] else [])
    + (if onlyExt != [] then [OnlyExt(onlyExt)] else [])
  }

  /** A path passes the configured chain exactly when it is a regular file, its extension is not excluded and it is the only extension asked for. */
  lemma BuildFiltersMeaning(onlyExt: string, excludedExts: seq<string>, snap: Snapshot, path: Path)
    ensures AllHold(BuildFilters(onlyExt, excludedExts), snap, path) <==>
            IsRegularFile(snap, path)
            && (excludedExts == [] || GetFileExt(path) !in excludedExts)
            && (onlyExt == [] || GetFileExt(path) == onlyExt)
  {
    AllHoldMeansEvery(BuildFilters(onlyExt, excludedExts), snap, path);
  }

  /** `--only-extension e` together with `--exclude-extensions ... e ...` accepts no path at all. */
  lemma ContradictoryFiltersAcceptNothing(onlyExt: string, excludedExts: seq<string>, snap: Snapshot, path: Path)
    requires onlyExt != [] && onlyExt in excludedExts
    ensures !AllHold(BuildFilters(onlyExt, excludedExts), snap, path)
  {
    BuildFiltersMeaning(onlyExt, excludedExts, snap, path);
  }

  /** The extension is lower-cased but `only_ext` is not, so `--only-extension TXT` matches nothing. */
  lemma UppercaseOnlyExtMatchesNothing(onlyExt: string, snap: Snapshot, path: Path)
    requires HasUpper(onlyExt)
    ensures !Holds(OnlyExt(onlyExt), snap, path)
  {
  }

  /** An excluded extension written with an upper-case letter never excludes anything. */
  lemma UppercaseExclusionsExcludeNothing(excludedExts: seq<string>, snap: Snapshot, path: Path)
    requires forall e :: e in excludedExts ==> HasUpper(e)
    ensures Holds(NotExcluded(excludedExts), snap, path)
  {
  }
}
