/** `get_file_list`: the entries of one location that pass every filter, as joined paths. */
module Listing {
  import opened Common
  import opened Text
  import opened FsTree
  import opened Extensions

  /** Every listed name joined onto the location, in listing order. */
  function JoinAll(location: Path, names: seq<string>): seq<Path> {
    seq(|names|, i requires 0 <= i < |names| => Join(location, names[i]))
  }

  /**
   * The elements of `s` that satisfy `keep`, in order, with nothing added:
   * an element that satisfies it is kept as often as it occurs, and one
   * that does not is dropped.
   */
  function KeepIf<T(==,!new)>(s: seq<T>, keep: T -> bool): (r: seq<T>)
    ensures IsSubsequence(r, s)
    ensures forall x :: x in r ==> keep(x)
    ensures forall i :: 0 <= i < |s| && keep(s[i]) ==> s[i] in r
    ensures forall x :: multiset(r)[x] == if keep(x) then multiset(s)[x] else 0
  {
    if s == [] then []
    else
      var rest := KeepIf(s[1..], keep);
      assert s == [s[0]] + s[1..];
      assert multiset(s) == multiset{s[0]} + multiset(s[1..]);
      if keep(s[0]) then
        assert ([s[0]] + rest)[1..] == rest;
        assert multiset([s[0]] + rest) == multiset{s[0]} + multiset(rest);
        [s[0]] + rest
      else
        rest
  }

  /**
   * The list comprehension of rename.py:74 over an already obtained listing:
   * exactly the joined paths that pass all filters, in listing order, with
   * nothing added: a path that passes is kept as often as it is listed, and
   * one that fails not at all, which together with the order fixes the result.
   */
  function Kept(snap: Snapshot, location: Path, names: seq<string>, filters: seq<Filter>): (r: seq<Path>)
    ensures IsSubsequence(r, JoinAll(location, names))
    ensures forall p :: p in r ==> AllHold(filters, snap, p)
    ensures forall i :: 0 <= i < |names| && AllHold(filters, snap, Join(location, names[i])) ==> Join(location, names[i]) in r
    ensures forall p :: multiset(r)[p] == if AllHold(filters, snap, p) then multiset(JoinAll(location, names))[p] else 0
  {
    var joined := JoinAll(location, names);
    assert forall i :: 0 <= i < |names| ==> joined[i] == Join(location, names[i]);
    KeepIf(joined, p => AllHold(filters, snap, p))
  }

  /** `get_file_list(location, filters)`: `os.listdir` errors propagate; otherwise the kept entries. */
  function GetFileList(snap: Snapshot, location: Path, filters: seq<Filter>): (r: Result<seq<Path>>)
    ensures ListDir(snap, location).Err? ==> r == Err(ListDir(snap, location).error)
    ensures r.Ok? <==> ListDir(snap, location).Ok?
    ensures r.Ok? ==> var names := ListDir(snap, location).value;
      && IsSubsequence(r.value, JoinAll(location, names))
      && (forall p :: p in r.value ==> AllHold(filters, snap, p))
      && (forall i :: 0 <= i < |names| && AllHold(filters, snap, Join(location, names[i])) ==> Join(location, names[i]) in r.value)
      && (forall p :: multiset(r.value)[p] == if AllHold(filters, snap, p) then multiset(JoinAll(location, names))[p] else 0)
  {
    match ListDir(snap, location)
    case Err(e) => Err(e)
    case Ok(names) => Ok(Kept(snap, location, names, filters))
  }

  /**
   * Only a non-empty location can be listed (`os.listdir('')` raises), so
   * every path `get_file_list` yields has a `/` in it.
   */
  lemma ListedPathsContainSlash(snap: Snapshot, location: Path, filters: seq<Filter>)
    requires GetFileList(snap, location, filters).Ok?
    ensures location != ""
    ensures forall p :: p in GetFileList(snap, location, filters).value ==> '/' in p
  {
    var names := ListDir(snap, location).value;
    var joined := JoinAll(location, names);
    SubsequenceMembers(GetFileList(snap, location, filters).value, joined);
    forall p | p in GetFileList(snap, location, filters).value
      ensures '/' in p
    {
      var i :| 0 <= i < |joined| && joined[i] == p;
      JoinOntoNonEmpty(location, names[i]);
    }
  }

  /**
   * `get_file_list` on a location below a regular file or below a directory
   * that can be neither listed nor searched raises what `os.listdir` raises
   * there (ENOTDIR or EACCES), whether or not an entry of that name exists.
   */
  lemma GetFileListBelowBlocked(snap: Snapshot, q: Path, location: Path, filters: seq<Filter>)
    requires WellNamed(snap.root) && q != [] && q[|q| - 1] != '/' && Under(q, location)
    requires Find(snap, q).Some? && (Find(snap, q).value.File? || !Find(snap, q).value.readable)
    ensures GetFileList(snap, location, filters)
      == Err(if Find(snap, q).value.File? then NotADirectory(location) else PermissionDenied(location))
  {
    ListingBelowBlocked(snap, q, location);
  }
}
