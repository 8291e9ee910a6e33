/**
 * `find_locations`: the pre-order, depth-limited walk that appends every
 * directory it visits to the script's global `locations` list.  The walk
 * appends a directory before listing it, so when a listing raises, the
 * list holds everything appended up to and including the directory that
 * could not be listed.
 */
module Locations {
  import opened Common
  import opened Text
  import opened FsTree

  /** What a walk appended, in order, and the `os.listdir` error that ended it, if one did. */
  datatype Walk = Walk(paths: seq<Path>, failure: Option<FsError>)

  /**
   * The walk `find_locations(path, levels)` makes of a directory `t` at
   * `path`: `path` is appended; unless `levels == 1` the directory is then
   * listed, which raises when it is unreadable, and every sub-directory is
   * walked in listing order with `levels - 1`.  Nothing stops the descent at
   * `levels <= 0`; the walk then ends only at the leaves.
   */
  function Locations(path: Path, t: Node, levels: int): (r: Walk)
    requires t.Dir?
    ensures |r.paths| >= 1 && r.paths[0] == path
    ensures r.failure.Some? ==> r.failure.value == PermissionDenied(r.paths[|r.paths| - 1])
    decreases t, 1
  {
    if levels == 1 then Walk([path], None)
    else if !t.readable then Walk([path], Some(PermissionDenied(path)))
    else
      var w := LocationsAmong(path, t, |t.children|, levels - 1);
      Walk([path] + w.paths, w.failure)
  }

  /** The walks of the sub-directories among the first `k` entries of `t`, stopping at the first that raises. */
  function LocationsAmong(path: Path, t: Node, k: nat, levels: int): (r: Walk)
    requires t.Dir? && k <= |t.children|
    ensures r.failure.Some? ==> |r.paths| >= 1 && r.failure.value == PermissionDenied(r.paths[|r.paths| - 1])
    decreases t, 0, k
  {
    if k == 0 then Walk([], None)
    else
      var before := LocationsAmong(path, t, k - 1, levels);
      var c := t.children[k - 1];
      if before.failure.Some? || !c.Dir? then before
      else
        var w := Locations(Join(path, c.name), c, levels);
        Walk(before.paths + w.paths, w.failure)
  }

  /** Once a listing has raised, the later entries are never looked at. */
  lemma {:induction false} AmongStaysFailed(path: Path, t: Node, k: nat, levels: int)
    requires t.Dir? && k <= |t.children| && LocationsAmong(path, t, k, levels).failure.Some?
    ensures LocationsAmong(path, t, |t.children|, levels) == LocationsAmong(path, t, k, levels)
    decreases |t.children| - k
  {
    if k < |t.children| {
      AmongStaysFailed(path, t, k + 1, levels);
    }
  }

  /** One more entry of a directory whose earlier sub-walks all completed. */
  lemma AmongStep(path: Path, t: Node, k: nat, levels: int)
    requires t.Dir? && k < |t.children| && LocationsAmong(path, t, k, levels).failure.None?
    ensures var c := t.children[k];
      var before := LocationsAmong(path, t, k, levels);
      LocationsAmong(path, t, k + 1, levels) ==
        if c.Dir? then Then(before, Locations(Join(path, c.name), c, levels)) else before
  {
  }

  /** A directory of the tree with its distance from the start directory and whether it can be listed. */
  datatype Located = Located(path: Path, depth: nat, readable: bool)

  /** Reference enumeration: every directory of the tree at `path`, in pre-order, with its depth. */
  function AllDirs(path: Path, t: Node, depth: nat): seq<Located>
    requires t.Dir?
    decreases t, 1
  {
    [Located(path, depth, t.readable)] + AllDirsAmong(path, t, |t.children|, depth + 1)
  }

  function AllDirsAmong(path: Path, t: Node, k: nat, depth: nat): seq<Located>
    requires t.Dir? && k <= |t.children|
    decreases t, 0, k
  {
    if k == 0 then []
    else
      var c := t.children[k - 1];
      AllDirsAmong(path, t, k - 1, depth) + (if c.Dir? then AllDirs(Join(path, c.name), c, depth) else [])
  }

  /**
   * A walk with `levels` started at depth `base` appends the directories
   * less than `levels` below the start, and lists those whose children are
   * still appended; with `levels <= 0` it appends and lists them all.
   */
  predicate Appended(l: Located, levels: int, base: nat) {
    levels <= 0 || l.depth < base + levels
  }

  predicate Listed(l: Located, levels: int, base: nat) {
    levels <= 0 || l.depth + 1 < base + levels
  }

  /** The walk raises on this directory. */
  predicate Blocks(l: Located, levels: int, base: nat) {
    Listed(l, levels, base) && !l.readable
  }

  /** The paths of the enumerated directories the walk appends, in order. */
  function AppendedPaths(ls: seq<Located>, levels: int, base: nat): seq<Path>
    decreases |ls|
  {
    if ls == [] then []
    else (if Appended(ls[0], levels, base) then [ls[0].path] else []) + AppendedPaths(ls[1..], levels, base)
  }

  /**
   * Reference walk over the pre-order enumeration: append every directory
   * the depth limit lets through, and stop, raising, at the first listed
   * directory that cannot be read.
   */
  function WalkOf(ls: seq<Located>, levels: int, base: nat): Walk
    decreases |ls|
  {
    if ls == [] then Walk([], None)
    else if !Appended(ls[0], levels, base) then WalkOf(ls[1..], levels, base)
    else if Blocks(ls[0], levels, base) then Walk([ls[0].path], Some(PermissionDenied(ls[0].path)))
    else
      var w := WalkOf(ls[1..], levels, base);
      Walk([ls[0].path] + w.paths, w.failure)
  }

  /** Walking `a` and then, unless that raised, `b`. */
  function Then(first: Walk, second: Walk): Walk {
    if first.failure.Some? then first else Walk(first.paths + second.paths, second.failure)
  }

  lemma {:induction false} WalkOfAppend(a: seq<Located>, b: seq<Located>, levels: int, base: nat)
    ensures WalkOf(a + b, levels, base) == Then(WalkOf(a, levels, base), WalkOf(b, levels, base))
    decreases |a|
  {
    if a == [] {
      assert a + b == b;
    } else {
      assert (a + b)[0] == a[0];
      assert (a + b)[1..] == a[1..] + b;
      WalkOfAppend(a[1..], b, levels, base);
    }
  }

  /** Directories deeper than the limit are neither appended nor listed. */
  lemma {:induction false} WalkOfDeep(ls: seq<Located>, levels: int, base: nat)
    requires levels >= 1 && forall i :: 0 <= i < |ls| ==> ls[i].depth >= base + levels
    ensures WalkOf(ls, levels, base) == Walk([], None)
    decreases |ls|
  {
    if ls != [] {
      WalkOfDeep(ls[1..], levels, base);
    }
  }

  /** One level down with one level fewer is the same walk, unless the limit is reached. */
  lemma {:induction false} WalkOfShift(ls: seq<Located>, levels: int, base: nat)
    requires levels != 1
    ensures WalkOf(ls, levels - 1, base + 1) == WalkOf(ls, levels, base)
    decreases |ls|
  {
    if ls != [] {
      WalkOfShift(ls[1..], levels, base);
    }
  }

  lemma {:induction false} DepthsAtLeast(path: Path, t: Node, depth: nat)
    requires t.Dir?
    ensures forall i :: 0 <= i < |AllDirs(path, t, depth)| ==> AllDirs(path, t, depth)[i].depth >= depth
    decreases t, 1
  {
    DepthsAmongAtLeast(path, t, |t.children|, depth + 1);
  }

  lemma {:induction false} DepthsAmongAtLeast(path: Path, t: Node, k: nat, depth: nat)
    requires t.Dir? && k <= |t.children|
    ensures forall i :: 0 <= i < |AllDirsAmong(path, t, k, depth)| ==> AllDirsAmong(path, t, k, depth)[i].depth >= depth
    decreases t, 0, k
  {
    if k > 0 {
      var c := t.children[k - 1];
      DepthsAmongAtLeast(path, t, k - 1, depth);
      if c.Dir? {
        DepthsAtLeast(Join(path, c.name), c, depth);
      }
    }
  }

  lemma {:induction false} LocationsFrom(path: Path, t: Node, levels: int, depth: nat)
    requires t.Dir?
    ensures Locations(path, t, levels) == WalkOf(AllDirs(path, t, depth), levels, depth)
    decreases t, 1
  {
    var root := Located(path, depth, t.readable);
    var rest := AllDirsAmong(path, t, |t.children|, depth + 1);
    var ls := AllDirs(path, t, depth);
    assert ls[0] == root && ls[1..] == rest;
    if levels == 1 {
      DepthsAmongAtLeast(path, t, |t.children|, depth + 1);
      WalkOfDeep(rest, levels, depth);
    } else if t.readable {
      LocationsAmongFrom(path, t, |t.children|, levels - 1, depth + 1);
      WalkOfShift(rest, levels, depth);
    }
  }

  lemma {:induction false} LocationsAmongFrom(path: Path, t: Node, k: nat, levels: int, depth: nat)
    requires t.Dir? && k <= |t.children|
    ensures LocationsAmong(path, t, k, levels) == WalkOf(AllDirsAmong(path, t, k, depth), levels, depth)
    decreases t, 0, k
  {
    if k > 0 {
      var c := t.children[k - 1];
      LocationsAmongFrom(path, t, k - 1, levels, depth);
      if c.Dir? {
        LocationsFrom(Join(path, c.name), c, levels, depth);
      }
      AmongFromStep(path, t, k, levels, depth);
    }
  }

  /** The step of `LocationsAmongFrom`: one more entry, given the claim for the entries before it and for that entry. */
  lemma AmongFromStep(path: Path, t: Node, k: nat, levels: int, depth: nat)
    requires t.Dir? && 0 < k <= |t.children|
    requires LocationsAmong(path, t, k - 1, levels) == WalkOf(AllDirsAmong(path, t, k - 1, depth), levels, depth)
    requires var c := t.children[k - 1];
      c.Dir? ==> Locations(Join(path, c.name), c, levels) == WalkOf(AllDirs(Join(path, c.name), c, depth), levels, depth)
    ensures LocationsAmong(path, t, k, levels) == WalkOf(AllDirsAmong(path, t, k, depth), levels, depth)
  {
    var c := t.children[k - 1];
    var before := AllDirsAmong(path, t, k - 1, depth);
    if c.Dir? {
      var here := AllDirs(Join(path, c.name), c, depth);
      assert AllDirsAmong(path, t, k, depth) == before + here;
      WalkOfAppend(before, here, levels, depth);
      assert LocationsAmong(path, t, k, levels) == Then(LocationsAmong(path, t, k - 1, levels), Locations(Join(path, c.name), c, levels));
    } else {
      assert AllDirsAmong(path, t, k, depth) == before;
    }
  }

  /** The recursive walk is the reference walk over the pre-order enumeration of the tree. */
  lemma WalkMatchesEnumeration(path: Path, t: Node, levels: int)
    requires t.Dir?
    ensures Locations(path, t, levels) == WalkOf(AllDirs(path, t, 0), levels, 0)
  {
    LocationsFrom(path, t, levels, 0);
  }

  /** The reference walk completes exactly when no listed directory is unreadable, and then appends exactly the directories within the limit. */
  lemma {:induction false} WalkOfCompletes(ls: seq<Located>, levels: int, base: nat)
    ensures WalkOf(ls, levels, base).failure.None? <==> forall i :: 0 <= i < |ls| ==> !Blocks(ls[i], levels, base)
    ensures WalkOf(ls, levels, base).failure.None? ==> WalkOf(ls, levels, base).paths == AppendedPaths(ls, levels, base)
    decreases |ls|
  {
    if ls != [] {
      WalkOfCompletes(ls[1..], levels, base);
      assert forall i :: 1 <= i < |ls| ==> ls[i] == ls[1..][i - 1];
    }
  }

  /**
   * The reference walk raises on the first listed unreadable directory: the
   * error names it, and the directories appended are exactly those within
   * the limit up to and including it.
   */
  lemma {:induction false} WalkOfStops(ls: seq<Located>, levels: int, base: nat)
    requires WalkOf(ls, levels, base).failure.Some?
    ensures exists j :: (0 <= j < |ls| && Blocks(ls[j], levels, base)
      && (forall i :: 0 <= i < j ==> !Blocks(ls[i], levels, base))
      && WalkOf(ls, levels, base) == Walk(AppendedPaths(ls[..j + 1], levels, base), Some(PermissionDenied(ls[j].path))))
    decreases |ls|
  {
    if Appended(ls[0], levels, base) && Blocks(ls[0], levels, base) {
      assert ls[..1][1..] == [];
      assert AppendedPaths(ls[..1], levels, base) == [ls[0].path];
    } else {
      var tail := ls[1..];
      WalkOfStops(tail, levels, base);
      var j :| 0 <= j < |tail| && Blocks(tail[j], levels, base)
        && (forall i :: 0 <= i < j ==> !Blocks(tail[i], levels, base))
        && WalkOf(tail, levels, base) == Walk(AppendedPaths(tail[..j + 1], levels, base), Some(PermissionDenied(tail[j].path)));
      StopsStep(ls, levels, base, j);
    }
  }

  /** The step of `WalkOfStops`: a first entry that does not raise moves the stopping point one further. */
  lemma StopsStep(ls: seq<Located>, levels: int, base: nat, j: nat)
    requires 0 < |ls| && !(Appended(ls[0], levels, base) && Blocks(ls[0], levels, base))
    requires j < |ls| - 1 && Blocks(ls[1..][j], levels, base)
    requires forall i :: 0 <= i < j ==> !Blocks(ls[1..][i], levels, base)
    requires WalkOf(ls[1..], levels, base) == Walk(AppendedPaths(ls[1..][..j + 1], levels, base), Some(PermissionDenied(ls[1..][j].path)))
    ensures Blocks(ls[j + 1], levels, base) && forall i :: 0 <= i < j + 1 ==> !Blocks(ls[i], levels, base)
    ensures WalkOf(ls, levels, base) == Walk(AppendedPaths(ls[..j + 2], levels, base), Some(PermissionDenied(ls[j + 1].path)))
  {
    var tail := ls[1..];
    var w := WalkOf(ls, levels, base);
    var k := j + 1;
    assert ls[k] == tail[j];
    var upTo := ls[..k + 1];
    assert upTo[0] == ls[0] && upTo[1..] == tail[..j + 1];
    assert AppendedPaths(upTo, levels, base) == (if Appended(ls[0], levels, base) then [ls[0].path] else []) + AppendedPaths(tail[..j + 1], levels, base);
    forall i | 0 <= i < k
      ensures !Blocks(ls[i], levels, base)
    {
      if i > 0 {
        assert ls[i] == tail[i - 1];
      }
    }
    if Appended(ls[0], levels, base) {
      assert w == Walk([ls[0].path] + WalkOf(tail, levels, base).paths, WalkOf(tail, levels, base).failure);
    } else {
      assert w == WalkOf(tail, levels, base);
    }
  }

  /**
   * For `levels >= 1` the walk completes exactly when every directory less
   * than `levels - 1` below the start (those it lists) is readable, and it
   * then appends exactly the directories less than `levels` deep, in pre-order.
   */
  lemma ShallowDirectoriesListed(path: Path, t: Node, levels: int)
    requires t.Dir? && levels >= 1
    ensures var ls := AllDirs(path, t, 0);
      && (Locations(path, t, levels).failure.None? <==> forall i :: 0 <= i < |ls| && ls[i].depth + 1 < levels ==> ls[i].readable)
      && (Locations(path, t, levels).failure.None? ==>
            Locations(path, t, levels).paths == AppendedPaths(ls, levels, 0)
            && forall p :: p in Locations(path, t, levels).paths <==> exists i :: 0 <= i < |ls| && ls[i].depth < levels && ls[i].path == p)
  {
    var ls := AllDirs(path, t, 0);
    WalkMatchesEnumeration(path, t, levels);
    WalkOfCompletes(ls, levels, 0);
    AppendedPathsMembers(ls, levels);
  }

  lemma {:induction false} AppendedPathsMembers(ls: seq<Located>, levels: int)
    requires levels >= 1
    ensures forall p :: p in AppendedPaths(ls, levels, 0) <==> exists i :: 0 <= i < |ls| && ls[i].depth < levels && ls[i].path == p
    decreases |ls|
  {
    if ls != [] {
      AppendedPathsMembers(ls[1..], levels);
      assert forall i :: 1 <= i < |ls| ==> ls[i] == ls[1..][i - 1];
    }
  }

  /** The paths of all enumerated directories, in order. */
  function PathsOf(ls: seq<Located>): seq<Path>
    decreases |ls|
  {
    if ls == [] then [] else [ls[0].path] + PathsOf(ls[1..])
  }

  lemma {:induction false} UnlimitedAppendsAll(ls: seq<Located>, levels: int, base: nat)
    requires levels <= 0
    ensures AppendedPaths(ls, levels, base) == PathsOf(ls)
    decreases |ls|
  {
    if ls != [] {
      UnlimitedAppendsAll(ls[1..], levels, base);
    }
  }

  /**
   * For `levels <= 0` the base case `levels == 1` is never reached: the walk
   * lists every directory, so it completes exactly when all are readable, and
   * then appends every directory of the tree in pre-order.
   */
  lemma NonPositiveLevelsListEverything(path: Path, t: Node, levels: int)
    requires t.Dir? && levels <= 0
    ensures var ls := AllDirs(path, t, 0);
      && (Locations(path, t, levels).failure.None? <==> forall i :: 0 <= i < |ls| ==> ls[i].readable)
      && (Locations(path, t, levels).failure.None? ==> Locations(path, t, levels).paths == PathsOf(ls))
  {
    var ls := AllDirs(path, t, 0);
    WalkMatchesEnumeration(path, t, levels);
    WalkOfCompletes(ls, levels, 0);
    UnlimitedAppendsAll(ls, levels, 0);
  }

  /**
   * A walk that raises stops at the first directory in pre-order that it
   * lists and cannot read: the error names that directory, and the list
   * holds exactly the directories within the limit up to and including it.
   */
  lemma WalkStopsAtFirstUnreadable(path: Path, t: Node, levels: int)
    requires t.Dir? && Locations(path, t, levels).failure.Some?
    ensures var ls := AllDirs(path, t, 0);
      exists j :: (0 <= j < |ls| && !ls[j].readable && Listed(ls[j], levels, 0)
        && (forall i :: 0 <= i < j ==> !Blocks(ls[i], levels, 0))
        && Locations(path, t, levels) == Walk(AppendedPaths(ls[..j + 1], levels, 0), Some(PermissionDenied(ls[j].path))))
  {
    WalkMatchesEnumeration(path, t, levels);
    WalkOfStops(AllDirs(path, t, 0), levels, 0);
  }

  /**
   * What `find_locations(start, levels)` appends, and the error it raises,
   * when started on a path of the snapshot.  With `levels == 1` the start
   * is appended without being looked at; otherwise it is appended and then
   * listed, which raises `os.listdir`'s error for it.
   */
  function StartLocations(snap: Snapshot, start: Path, levels: int): (r: Walk)
    ensures |r.paths| >= 1 && r.paths[0] == start
    ensures r.failure.Some? ==> r.failure.value.path == r.paths[|r.paths| - 1]
    ensures levels == 1 ==> r == Walk([start], None)
    ensures levels != 1 && ListDir(snap, start).Err? ==> r == Walk([start], Some(ListDir(snap, start).error))
    ensures levels != 1 && ListDir(snap, start).Ok? ==> Find(snap, start).value.Dir? && r == Locations(start, Find(snap, start).value, levels)
  {
    if levels == 1 then Walk([start], None)
    else
      match ListDir(snap, start)
      case Err(e) => Walk([start], Some(e))
      case Ok(_) => Locations(start, Find(snap, start).value, levels)
  }

  /** The script's global `locations` list. */
  class LocationList {
    var items: seq<Path>

    constructor ()
      ensures items == []
    {
      items := [];
    }

    /**
     * `find_locations(start, levels)`: appends what the walk appends and
     * reports the error it raised; on a failure the list keeps everything
     * appended before the listing that raised.
     */
    method FindLocations(snap: Snapshot, start: Path, levels: int) returns (failure: Option<FsError>)
      modifies this
      ensures items == old(items) + StartLocations(snap, start, levels).paths
      ensures failure == StartLocations(snap, start, levels).failure
    {
      if levels == 1 {
        items := items + [start];
        failure := None;
      } else {
        var listing := ListDir(snap, start);
        match listing
        case Err(e) =>
          items := items + [start];
          failure := Some(e);
        case Ok(_) =>
          failure := Descend(start, Find(snap, start).value, levels);
      }
    }

    /** The recursive body of `find_locations` on a directory known to exist. */
    method Descend(path: Path, t: Node, levels: int) returns (failure: Option<FsError>)
      requires t.Dir?
      modifies this
      ensures items == old(items) + Locations(path, t, levels).paths
      ensures failure == Locations(path, t, levels).failure
      decreases t, 1
    {
      items := items + [path];
      if levels == 1 {
        failure := None;
      } else if !t.readable {
        failure := Some(PermissionDenied(path));
      } else {
        failure := DescendAmong(path, t, levels - 1);
      }
    }

    /** The loop of rename.py:82-83 over the sub-directories of a listed directory, in listing order. */
    method DescendAmong(path: Path, t: Node, levels: int) returns (failure: Option<FsError>)
      requires t.Dir?
      modifies this
      ensures items == old(items) + LocationsAmong(path, t, |t.children|, levels).paths
      ensures failure == LocationsAmong(path, t, |t.children|, levels).failure
      decreases t, 0
    {
      failure := None;
      var k := 0;
      ghost var w := Walk([], None);
      while k < |t.children|
        invariant 0 <= k <= |t.children|
        invariant w == LocationsAmong(path, t, k, levels) && w.failure.None?
        invariant items == old(items) + w.paths
        invariant failure.None?
      {
        var c := t.children[k];
        AmongStep(path, t, k, levels);
        if c.Dir? {
          ghost var appended := items;
          var f := Descend(Join(path, c.name), c, levels);
          ghost var here := Locations(Join(path, c.name), c, levels);
          assert items == appended + here.paths;
          ConcatAssoc(old(items), w.paths, here.paths);
          w := Walk(w.paths + here.paths, here.failure);
          assert LocationsAmong(path, t, k + 1, levels) == w;
          if f.Some? {
            AmongStaysFailed(path, t, k + 1, levels);
            failure := f;
            return;
          }
        }
        k := k + 1;
      }
    }
  }
}
