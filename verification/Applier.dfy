/**
 * Manifest application, `rename(read_file, action)`: every row after the
 * header either is skipped, removes its original or renames it to its
 * target; a dry run only reports; in a live run the first failing
 * filesystem call aborts the rest.
 *
 * The pure side splits the work in two: `PlanFrom` turns rows into actions,
 * `Run` performs actions on an abstract filesystem.  `ApplyManifest` is the
 * row loop itself, proved to do what the two compose to.
 */
module Applier {
  import opened Common
  import opened Text
  import opened Manifest

  type Content = string

  /** The target that marks a row for deletion. */
  const DeletedMarker: string := "Deleted"

  predicate IsDeleteSpelling(target: string) {
    target == "D" || target == "d" || target == "delete" || target == DeletedMarker
  }

  /** rename.py:105-106: only `D`, `d` and `delete` are rewritten to `Deleted`; everything else is kept verbatim. */
  function NormaliseTarget(target: string): (r: string)
    ensures r == DeletedMarker <==> IsDeleteSpelling(target)
    ensures r != DeletedMarker ==> r == target
  {
    if target == "D" || target == "d" || target == "delete" then DeletedMarker else target
  }

  /** A filesystem call made for one row. */
  datatype Action = Remove(path: Path) | Move(src: Path, dst: Path)

  function Source(a: Action): Path {
    match a
    case Remove(p) => p
    case Move(src, _) => src
  }

  /** How the loop treats one row, given its position. */
  datatype RowKind =
    | Malformed          // fewer than two fields: `line[0]` or `line[1]` raises
    | Skipped            // the header, or a row that mentions the manifest itself
    | Planned(action: Action)

  /** rename.py:96-115 for one row: field access first, then the header flag, the self-reference guard and the delete spellings. */
  function Classify(index: nat, row: Row, readFile: string): (k: RowKind)
    ensures k.Malformed? <==> |row| < 2
    ensures k.Skipped? <==> |row| >= 2 && (index == 0 || Contains(row[0], readFile))
    ensures k.Planned? ==> Source(k.action) == row[0]
    ensures k.Planned? ==> (k.action.Remove? <==> IsDeleteSpelling(row[1]))
    ensures k.Planned? && k.action.Move? ==> k.action.dst == row[1]
  {
    if |row| < 2 then Malformed
    else if index == 0 then Skipped
    else if Contains(row[0], readFile) then Skipped
    else
      var target := NormaliseTarget(row[1]);
      if target == DeletedMarker then Planned(Remove(row[0])) else Planned(Move(row[0], target))
  }

  /** The actions of a manifest, in row order, and the position of the row that raised, if any. */
  datatype Plan = Plan(actions: seq<Action>, malformedAt: Option<nat>)

  /** The plan for `rows`, the first of which sits at position `start` of the manifest. */
  function PlanFrom(rows: seq<Row>, readFile: string, start: nat): (p: Plan)
    ensures p.malformedAt.Some? ==> start <= p.malformedAt.value < start + |rows|
    decreases |rows|
  {
    if rows == [] then Plan([], None)
    else
      match Classify(start, rows[0], readFile)
      case Malformed => Plan([], Some(start))
      case Skipped => PlanFrom(rows[1..], readFile, start + 1)
      case Planned(a) =>
        var rest := PlanFrom(rows[1..], readFile, start + 1);
        Plan([a] + rest.actions, rest.malformedAt)
  }

  /** The action a well-formed, non-header, non-self-referencing row asks for. */
  function RowAction(row: Row): Action
    requires |row| >= 2
  {
    if IsDeleteSpelling(row[1]) then Remove(row[0]) else Move(row[0], row[1])
  }

  /** Reference: the rows whose original does not mention the manifest, in order. */
  function RowsNotMentioning(rows: seq<Row>, readFile: string): (r: seq<Row>)
    requires forall i :: 0 <= i < |rows| ==> |rows[i]| >= 2
    ensures IsSubsequence(r, rows)
    ensures forall row :: row in r <==> row in rows && !Contains(row[0], readFile)
    decreases |rows|
  {
    if rows == [] then []
    else
      var rest := RowsNotMentioning(rows[1..], readFile);
      assert forall row :: row in rows <==> row == rows[0] || row in rows[1..];
      if Contains(rows[0][0], readFile) then
        rest
      else
        assert ([rows[0]] + rest)[1..] == rest;
        [rows[0]] + rest
  }

  function RowActions(rows: seq<Row>): seq<Action>
    requires forall row :: row in rows ==> |row| >= 2
  {
    seq(|rows|, i requires 0 <= i < |rows| => RowAction(rows[i]))
  }

  lemma RowActionsCons(row: Row, rows: seq<Row>)
    requires |row| >= 2 && forall r :: r in rows ==> |r| >= 2
    ensures forall r :: r in [row] + rows ==> |r| >= 2
    ensures RowActions([row] + rows) == [RowAction(row)] + RowActions(rows)
  {
    var all := [row] + rows;
    assert forall i :: 1 <= i < |all| ==> all[i] == rows[i - 1];
  }

  /** One row of a well-formed body: skipped when it mentions the manifest, otherwise planned as `RowAction`. */
  lemma BodyRowStep(rows: seq<Row>, readFile: string, start: nat)
    requires start >= 1 && rows != [] && forall i :: 0 <= i < |rows| ==> |rows[i]| >= 2
    ensures Contains(rows[0][0], readFile) ==>
      && PlanFrom(rows, readFile, start) == PlanFrom(rows[1..], readFile, start + 1)
      && RowsNotMentioning(rows, readFile) == RowsNotMentioning(rows[1..], readFile)
    ensures !Contains(rows[0][0], readFile) ==>
      && PlanFrom(rows, readFile, start).actions == [RowAction(rows[0])] + PlanFrom(rows[1..], readFile, start + 1).actions
      && PlanFrom(rows, readFile, start).malformedAt == PlanFrom(rows[1..], readFile, start + 1).malformedAt
      && RowsNotMentioning(rows, readFile) == [rows[0]] + RowsNotMentioning(rows[1..], readFile)
  {
    if !Contains(rows[0][0], readFile) {
      assert Classify(start, rows[0], readFile) == Planned(RowAction(rows[0]));
    }
  }

  lemma {:induction false} PlanOfBody(rows: seq<Row>, readFile: string, start: nat)
    requires start >= 1 && forall i :: 0 <= i < |rows| ==> |rows[i]| >= 2
    ensures PlanFrom(rows, readFile, start) == Plan(RowActions(RowsNotMentioning(rows, readFile)), None)
    decreases |rows|
  {
    if rows != [] {
      assert forall i :: 0 <= i < |rows[1..]| ==> rows[1..][i] == rows[i + 1];
      PlanOfBody(rows[1..], readFile, start + 1);
      BodyRowStep(rows, readFile, start);
      if !Contains(rows[0][0], readFile) {
        RowActionsCons(rows[0], RowsNotMentioning(rows[1..], readFile));
      }
    }
  }

  /**
   * A manifest whose rows all have two fields plans exactly one action per
   * row after the header whose original does not mention the manifest, in
   * row order: a removal for the delete spellings, a rename otherwise.
   */
  lemma PlanMatchesRows(rows: seq<Row>, readFile: string)
    requires |rows| >= 1 && forall i :: 0 <= i < |rows| ==> |rows[i]| >= 2
    ensures PlanFrom(rows, readFile, 0) == Plan(RowActions(RowsNotMentioning(rows[1..], readFile)), None)
  {
    PlanOfBody(rows[1..], readFile, 1);
  }

  /** The first row is consumed as the header whatever it holds, provided it has two fields. */
  lemma HeaderIsIgnored(header: Row, rows: seq<Row>, readFile: string)
    requires |header| >= 2 && |rows| >= 1 && |rows[0]| >= 2
    ensures PlanFrom([header] + rows[1..], readFile, 0) == PlanFrom(rows, readFile, 0)
  {
  }

  /** No planned action ever touches a path that contains the manifest's own path. */
  lemma {:induction false} PlanNeverTouchesManifest(rows: seq<Row>, readFile: string, start: nat)
    ensures forall a :: a in PlanFrom(rows, readFile, start).actions ==> !Contains(Source(a), readFile)
    decreases |rows|
  {
    if rows != [] {
      PlanNeverTouchesManifest(rows[1..], readFile, start + 1);
    }
  }

  /** Planning stops at the first row with fewer than two fields; the rows before it are planned as if it were the end. */
  lemma {:induction false} PlanStopsAtFirstShortRow(rows: seq<Row>, readFile: string, start: nat)
    ensures PlanFrom(rows, readFile, start).malformedAt.None? <==> forall i :: 0 <= i < |rows| ==> |rows[i]| >= 2
    ensures PlanFrom(rows, readFile, start).malformedAt.Some? ==>
      var k := PlanFrom(rows, readFile, start).malformedAt.value - start;
      && |rows[k]| < 2
      && (forall i :: 0 <= i < k ==> |rows[i]| >= 2)
      && PlanFrom(rows, readFile, start).actions == PlanFrom(rows[..k], readFile, start).actions
    decreases |rows|
  {
    if rows != [] {
      PlanStopsAtFirstShortRow(rows[1..], readFile, start + 1);
      var p := PlanFrom(rows, readFile, start);
      if |rows[0]| >= 2 && p.malformedAt.Some? {
        var k := p.malformedAt.value - start;
        assert rows[..k][1..] == rows[1..][..k - 1];
      }
    }
  }

  /** The outcome of one filesystem call: the new file map, or `None` when the call raises. */
  function Perform(files: map<Path, Content>, locked: set<Path>, a: Action): Option<map<Path, Content>> {
    match a
    case Remove(p) =>
      if |p| > 0 && p in files && p !in locked then Some(files - {p}) else None
    case Move(src, dst) =>
      if |src| > 0 && |dst| > 0 && src in files && src !in locked && dst !in locked && (dst == src || dst !in files)
      then Some((files - {src})[dst := files[src]])
      else None
  }

  /**
   * What one call does: it succeeds exactly under the conditions `os.remove`
   * and `os.rename` impose here, and a call that succeeds touches its source
   * and, for a move, its target, and no other path.
   */
  lemma PerformTouchesOnlyItsPaths(files: map<Path, Content>, locked: set<Path>, a: Action)
    ensures var r := Perform(files, locked, a);
      && (r.Some? <==> (
        && |Source(a)| > 0 && Source(a) in files && Source(a) !in locked
        && (a.Move? ==> |a.dst| > 0 && a.dst !in locked && (a.dst == a.src || a.dst !in files))))
      && (r.Some? ==> forall q :: q != Source(a) && !(a.Move? && q == a.dst) ==>
        (q in r.value <==> q in files) && (q in files ==> r.value[q] == files[q]))
      && (r.Some? && a.Remove? ==> a.path !in r.value)
      && (r.Some? && a.Move? ==> a.dst in r.value && r.value[a.dst] == files[a.src] && (a.src != a.dst ==> a.src !in r.value))
  {
  }

  /** The file map after running actions in order, and the index of the call that raised, if one did. */
  datatype RunResult = RunResult(files: map<Path, Content>, failedAt: Option<nat>)

  function Run(files: map<Path, Content>, locked: set<Path>, actions: seq<Action>): (r: RunResult)
    ensures r.failedAt.Some? ==> r.failedAt.value < |actions|
    decreases |actions|
  {
    if actions == [] then RunResult(files, None)
    else
      match Perform(files, locked, actions[0])
      case None => RunResult(files, Some(0))
      case Some(next) =>
        var rest := Run(next, locked, actions[1..]);
        RunResult(rest.files, if rest.failedAt.Some? then Some(rest.failedAt.value + 1) else None)
  }

  /**
   * Abort on first failure: when action `k` raises, the file map is what the
   * actions before it produced, action `k` fails there, and no later action ran.
   */
  lemma {:induction false} RunStopsAtFirstFailure(files: map<Path, Content>, locked: set<Path>, actions: seq<Action>)
    ensures var r := Run(files, locked, actions);
      r.failedAt.Some? ==>
        && Run(files, locked, actions[..r.failedAt.value]) == RunResult(r.files, None)
        && Perform(r.files, locked, actions[r.failedAt.value]).None?
    decreases |actions|
  {
    if actions != [] {
      var r := Run(files, locked, actions);
      match Perform(files, locked, actions[0])
      case None =>
        assert actions[..0] == [];
      case Some(next) =>
        RunStopsAtFirstFailure(next, locked, actions[1..]);
        if r.failedAt.Some? {
          var k := r.failedAt.value;
          assert actions[..k][1..] == actions[1..][..k - 1];
        }
    }
  }

  /** How a run of the applier ended. */
  datatype Outcome = Completed | MalformedRow(row: nat) | OsFailure(action: Action)

  /** The file map afterwards, how the run ended, and the actions it reported (logged) along the way. */
  datatype ApplyResult = ApplyResult(files: map<Path, Content>, outcome: Outcome, reported: seq<Action>)

  /** Applying `rows` (the first at manifest position `start`) in dry-run or live mode. */
  function AppliedFrom(files: map<Path, Content>, locked: set<Path>, rows: seq<Row>, readFile: string, start: nat, dryRun: bool): ApplyResult {
    var p := PlanFrom(rows, readFile, start);
    var ended := if p.malformedAt.Some? then MalformedRow(p.malformedAt.value) else Completed;
    if dryRun then ApplyResult(files, ended, p.actions)
    else
      var r := Run(files, locked, p.actions);
      if r.failedAt.Some? then ApplyResult(r.files, OsFailure(p.actions[r.failedAt.value]), p.actions[..r.failedAt.value + 1])
      else ApplyResult(r.files, ended, p.actions)
  }

  /** `rename(read_file, action)` over the whole manifest. */
  function Applied(files: map<Path, Content>, locked: set<Path>, rows: seq<Row>, readFile: string, dryRun: bool): ApplyResult {
    AppliedFrom(files, locked, rows, readFile, 0, dryRun)
  }

  function Prepend(done: seq<Action>, r: ApplyResult): ApplyResult {
    r.(reported := done + r.reported)
  }

  /** One turn of the row loop, stated on the composition of plan and run. */
  lemma AppliedStep(files: map<Path, Content>, locked: set<Path>, rows: seq<Row>, readFile: string, start: nat, dryRun: bool)
    requires rows != []
    ensures match Classify(start, rows[0], readFile)
      case Malformed => AppliedFrom(files, locked, rows, readFile, start, dryRun) == ApplyResult(files, MalformedRow(start), [])
      case Skipped => AppliedFrom(files, locked, rows, readFile, start, dryRun) == AppliedFrom(files, locked, rows[1..], readFile, start + 1, dryRun)
      case Planned(a) =>
        if dryRun then
          AppliedFrom(files, locked, rows, readFile, start, dryRun) == Prepend([a], AppliedFrom(files, locked, rows[1..], readFile, start + 1, dryRun))
        else if Perform(files, locked, a).None? then
          AppliedFrom(files, locked, rows, readFile, start, dryRun) == ApplyResult(files, OsFailure(a), [a])
        else
          AppliedFrom(files, locked, rows, readFile, start, dryRun) == Prepend([a], AppliedFrom(Perform(files, locked, a).value, locked, rows[1..], readFile, start + 1, dryRun))
  {
  }

  lemma PrependTwice(a: seq<Action>, b: seq<Action>, r: ApplyResult)
    ensures Prepend(a, Prepend(b, r)) == Prepend(a + b, r)
  {
    assert a + (b + r.reported) == (a + b) + r.reported;
  }

  /** `AppliedStep` for a row that raises on field access. */
  lemma MalformedStep(files: map<Path, Content>, locked: set<Path>, rows: seq<Row>, readFile: string, start: nat, dryRun: bool)
    requires rows != [] && |rows[0]| < 2
    ensures AppliedFrom(files, locked, rows, readFile, start, dryRun) == ApplyResult(files, MalformedRow(start), [])
  {
    AppliedStep(files, locked, rows, readFile, start, dryRun);
  }

  /** `AppliedStep` for the header row and a row that mentions the manifest. */
  lemma SkippedStep(files: map<Path, Content>, locked: set<Path>, rows: seq<Row>, readFile: string, start: nat, dryRun: bool)
    requires rows != [] && |rows[0]| >= 2 && (start == 0 || Contains(rows[0][0], readFile))
    ensures AppliedFrom(files, locked, rows, readFile, start, dryRun) == AppliedFrom(files, locked, rows[1..], readFile, start + 1, dryRun)
  {
    AppliedStep(files, locked, rows, readFile, start, dryRun);
  }

  /** `AppliedStep` for a row that plans action `a`. */
  lemma PlannedStep(files: map<Path, Content>, locked: set<Path>, rows: seq<Row>, readFile: string, start: nat, dryRun: bool, a: Action)
    requires rows != [] && Classify(start, rows[0], readFile) == Planned(a)
    ensures dryRun ==> AppliedFrom(files, locked, rows, readFile, start, dryRun) == Prepend([a], AppliedFrom(files, locked, rows[1..], readFile, start + 1, dryRun))
    ensures !dryRun && Perform(files, locked, a).None? ==> AppliedFrom(files, locked, rows, readFile, start, dryRun) == ApplyResult(files, OsFailure(a), [a])
    ensures !dryRun && Perform(files, locked, a).Some? ==>
      AppliedFrom(files, locked, rows, readFile, start, dryRun) == Prepend([a], AppliedFrom(Perform(files, locked, a).value, locked, rows[1..], readFile, start + 1, dryRun))
  {
    AppliedStep(files, locked, rows, readFile, start, dryRun);
  }

  /** Generated rows, planned after the header: nothing but renames of a file onto itself. */
  lemma {:induction false} PlanOfGeneratedRows(paths: seq<Path>, readFile: string, start: nat)
    requires start >= 1
    requires forall f :: f in paths ==> !IsDeleteSpelling(f)
    ensures PlanFrom(ManifestRows(paths), readFile, start).malformedAt.None?
    ensures forall a :: a in PlanFrom(ManifestRows(paths), readFile, start).actions ==> a.Move? && a.dst == a.src && a.src in paths
    decreases |paths|
  {
    if paths != [] {
      var rows := ManifestRows(paths);
      assert rows[0] == [paths[0], paths[0]];
      assert rows[1..] == ManifestRows(paths[1..]);
      PlanOfGeneratedRows(paths[1..], readFile, start + 1);
    }
  }

  lemma {:induction false} RunOfSelfRenames(files: map<Path, Content>, locked: set<Path>, actions: seq<Action>)
    requires forall a :: a in actions ==> a.Move? && a.dst == a.src && |a.src| > 0 && a.src in files && a.src !in locked
    ensures Run(files, locked, actions) == RunResult(files, None)
    decreases |actions|
  {
    if actions != [] {
      var a := actions[0];
      assert (files - {a.src})[a.src := files[a.src]] == files;
      RunOfSelfRenames(files, locked, actions[1..]);
    }
  }

  /**
   * Apply an unedited manifest of `(f, f)` rows: every row renames a file
   * onto itself, so a live run completes and leaves the filesystem as it
   * was, provided no path is empty or itself one of the delete spellings.
   */
  lemma GeneratedManifestIsNoOp(files: map<Path, Content>, locked: set<Path>, paths: seq<Path>, readFile: string)
    requires forall f :: f in paths ==> |f| > 0 && f in files && f !in locked && !IsDeleteSpelling(f)
    ensures Applied(files, locked, [Columns] + ManifestRows(paths), readFile, false).files == files
    ensures Applied(files, locked, [Columns] + ManifestRows(paths), readFile, false).outcome == Completed
  {
    var rows := [Columns] + ManifestRows(paths);
    assert rows[1..] == ManifestRows(paths);
    PlanOfGeneratedRows(paths, readFile, 1);
    RunOfSelfRenames(files, locked, PlanFrom(rows, readFile, 0).actions);
  }

  /**
   * A hand-written `(d, d)` row is read as a deletion of `d`, not as a
   * rename of `d` onto itself.
   */
  lemma SelfRowForPathDIsDeletion(files: map<Path, Content>, locked: set<Path>, readFile: string)
    requires "d" in files && "d" !in locked && !Contains("d", readFile)
    ensures Applied(files, locked, [Columns] + ManifestRows(["d"]), readFile, false) ==
            ApplyResult(files - {"d"}, Completed, [Remove("d")])
  {
    var rows := [Columns] + ManifestRows(["d"]);
    assert rows == [Columns, ["d", "d"]];
    ShortManifestPlan(Columns, ["d", "d"], readFile);
    assert Run(files - {"d"}, locked, []) == RunResult(files - {"d"}, None);
  }

  lemma ShortManifestPlan(header: Row, row: Row, readFile: string)
    requires |header| >= 2 && |row| >= 2 && !Contains(row[0], readFile)
    ensures PlanFrom([header, row], readFile, 0) == Plan([RowAction(row)], None)
  {
    var rows := [header, row];
    assert rows[1..] == [row];
    assert rows[1..][1..] == [];
    assert PlanFrom([row], readFile, 1) == Plan([RowAction(row)], None);
  }

  /** A live row `(p, "delete")` removes `p` and creates nothing. */
  lemma LiveDeleteRowRemovesOnlyOriginal(files: map<Path, Content>, locked: set<Path>, header: Row, p: Path, target: string, readFile: string)
    requires |header| >= 2 && IsDeleteSpelling(target)
    requires |p| > 0 && p in files && p !in locked && !Contains(p, readFile)
    ensures Applied(files, locked, [header, [p, target]], readFile, false) == ApplyResult(files - {p}, Completed, [Remove(p)])
  {
    ShortManifestPlan(header, [p, target], readFile);
    assert Run(files - {p}, locked, []) == RunResult(files - {p}, None);
  }

  /** A dry run reports every planned action and changes no file, whatever the filesystem holds. */
  lemma DryRunOnlyReports(files: map<Path, Content>, locked: set<Path>, rows: seq<Row>, readFile: string)
    ensures Applied(files, locked, rows, readFile, true).files == files
    ensures Applied(files, locked, rows, readFile, true).reported == PlanFrom(rows, readFile, 0).actions
  {
  }

  /** The filesystem as the applier sees it: files with their contents, and paths it may not touch. */
  class FileSystem {
    var files: map<Path, Content>
    const locked: set<Path>

    constructor (files: map<Path, Content>, locked: set<Path>)
      ensures this.files == files && this.locked == locked
    {
      this.files := files;
      this.locked := locked;
    }

    /** `open(p, 'w')`: creates the file, or empties an existing one; fails on the empty path and on a protected path. */
    method Create(p: Path) returns (ok: bool)
      modifies this
      ensures ok <==> |p| > 0 && p !in locked
      ensures files == if ok then old(files)[p := ""] else old(files)
    {
      ok := |p| > 0 && p !in locked;
      if ok {
        files := files[p := ""];
      }
    }

    /** Writing through a handle `Create` returned: the file then holds `text`. */
    method Store(p: Path, text: Content)
      requires p in files && p !in locked
      modifies this
      ensures files == old(files)[p := text]
    {
      files := files[p := text];
    }

    /** `os.remove(p)`: fails on the empty path and on a missing or protected file. */
    method Remove(p: Path) returns (ok: bool)
      modifies this
      ensures ok <==> |p| > 0 && p in old(files) && p !in locked
      ensures files == if ok then old(files) - {p} else old(files)
    {
      ok := |p| > 0 && p in files && p !in locked;
      if ok {
        files := files - {p};
      }
    }

    /**
     * `os.rename(src, dst)`: fails when either path is empty, on a missing
     * or protected source, a protected target or an existing different
     * target; renaming a file to itself succeeds and changes nothing.
     */
    method Rename(src: Path, dst: Path) returns (ok: bool)
      modifies this
      ensures ok <==> |src| > 0 && |dst| > 0 && src in old(files) && src !in locked && dst !in locked && (dst == src || dst !in old(files))
      ensures files == if ok then (old(files) - {src})[dst := old(files)[src]] else old(files)
    {
      ok := |src| > 0 && |dst| > 0 && src in files && src !in locked && dst !in locked && (dst == src || dst !in files);
      if ok {
        files := (files - {src})[dst := files[src]];
      }
    }
  }

  /**
   * `rename(read_file, action)`: the row loop of rename.py:95-115 with its
   * `read_header` flag and the reassigned target.  A dry run leaves the
   * filesystem alone; a live run stops at the first failing call.
   */
  method ApplyManifest(fs: FileSystem, readFile: string, rows: seq<Row>, dryRun: bool) returns (outcome: Outcome, reported: seq<Action>)
    modifies fs
    ensures var r := Applied(old(fs.files), fs.locked, rows, readFile, dryRun);
      fs.files == r.files && outcome == r.outcome && reported == r.reported
    ensures dryRun ==> fs.files == old(fs.files)
  {
    ghost var goal := Applied(fs.files, fs.locked, rows, readFile, dryRun);
    var readHeader := false;
    reported := [];
    var i := 0;
    while i < |rows|
      invariant 0 <= i <= |rows|
      invariant readHeader <==> i > 0
      invariant dryRun ==> fs.files == old(fs.files)
      invariant goal == Prepend(reported, AppliedFrom(fs.files, fs.locked, rows[i..], readFile, i, dryRun))
    {
      var line := rows[i];
      assert rows[i..][0] == line && rows[i..][1..] == rows[i + 1..];
      if |line| < 2 {
        MalformedStep(fs.files, fs.locked, rows[i..], readFile, i, dryRun);
        outcome := MalformedRow(i);
        return;
      }
      var originalFile := line[0];
      var newFile := line[1];
      if !readHeader {
        SkippedStep(fs.files, fs.locked, rows[i..], readFile, i, dryRun);
        readHeader := true;
        i := i + 1;
        continue;
      }
      if Contains(originalFile, readFile) {
        SkippedStep(fs.files, fs.locked, rows[i..], readFile, i, dryRun);
        i := i + 1;
        continue;
      }
      if newFile == "D" || newFile == "d" || newFile == "delete" {
        newFile := DeletedMarker;
      }
      var action := if newFile == DeletedMarker then Remove(originalFile) else Move(originalFile, newFile);
      PlannedStep(fs.files, fs.locked, rows[i..], readFile, i, dryRun, action);
      ghost var before := fs.files;
      ghost var done := reported;
      reported := reported + [action];
      if !dryRun {
        var ok;
        if newFile == DeletedMarker {
          ok := fs.Remove(originalFile);
        } else {
          ok := fs.Rename(originalFile, newFile);
        }
        if !ok {
          outcome := OsFailure(action);
          return;
        }
        assert fs.files == Perform(before, fs.locked, action).value;
      }
      PrependTwice(done, [action], AppliedFrom(fs.files, fs.locked, rows[i + 1..], readFile, i + 1, dryRun));
      i := i + 1;
    }
    outcome := Completed;
  }
}
