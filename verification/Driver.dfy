/**
 * The script's main block (rename.py:166-206): build the filter chain from
 * the options, resolve the locations, then either generate a manifest or
 * apply one, in dry-run or live mode.
 */
module Driver {
  import opened Common
  import opened FsTree
  import opened Extensions
  import opened Locations
  import opened Manifest
  import opened Applier

  /** The `--action` choices. */
  datatype Command = Generate | Rename | DryRun

  /** The parsed command-line options; an absent string or list option is empty. */
  datatype Options = Options(
    location: Path,
    onlyExtension: string,
    excludeExtensions: seq<string>,
    action: Command,
    levels: int,
    customLocations: seq<Path>,
    fileName: Path,
    readFile: string)

  /** How one run of the script ends. */
  datatype RunOutcome =
    | OutputUnwritable(path: Path) // `open(--file-name, 'w')` raised
    | Generated(files: seq<Path>)  // the manifest was written and flushed
    | ListingFailed(error: FsError) // an `os.listdir` raised while resolving locations or listing files
    | MissingReadFile              // `dry_run` or `rename` without `--read-file`
    | Finished(outcome: Outcome)    // the applier ran; how it ended

  /** rename.py:183-186: `--custom-locations` bypasses the walk; otherwise `find_locations(--location, --levels)`. */
  function ResolveLocations(opts: Options, snap: Snapshot): (r: Result<seq<Path>>)
    ensures opts.customLocations != [] ==> r == Ok(opts.customLocations)
    ensures opts.customLocations == [] ==>
      var w := StartLocations(snap, opts.location, opts.levels);
      && (r.Ok? <==> w.failure.None?)
      && (r.Ok? ==> r.value == w.paths && r.value[0] == opts.location)
      && (r.Err? ==> r.error == w.failure.value && r.error.path == w.paths[|w.paths| - 1])
  {
    if opts.customLocations != [] then Ok(opts.customLocations)
    else
      var w := StartLocations(snap, opts.location, opts.levels);
      if w.failure.Some? then Err(w.failure.value) else Ok(w.paths)
  }

  /** `open(p, 'w')` succeeds. */
  predicate Writable(p: Path, locked: set<Path>) {
    |p| > 0 && p !in locked
  }

  /** rename.py:183-186 on the global list: the custom locations, or what `find_locations` appended. */
  method FindAll(opts: Options, snap: Snapshot) returns (r: Result<seq<Path>>)
    ensures r == ResolveLocations(opts, snap)
  {
    if opts.customLocations != [] {
      r := Ok(opts.customLocations);
    } else {
      var found := new LocationList();
      var failure := found.FindLocations(snap, opts.location, opts.levels);
      assert [] + StartLocations(snap, opts.location, opts.levels).paths == StartLocations(snap, opts.location, opts.levels).paths;
      r := if failure.Some? then Err(failure.value) else Ok(found.items);
    }
  }

  /** How `generate` ends once its output is open, and the rows the file then holds. */
  datatype GenerateEnd = GenerateEnd(outcome: RunOutcome, rows: seq<Row>)

  /**
   * The header, then either a listing error (walk or `get_file_list`) with
   * nothing more written, or one `(f, f)` row per collected file.
   */
  function Generation(opts: Options, snap: Snapshot): GenerateEnd {
    var filters := BuildFilters(opts.onlyExtension, opts.excludeExtensions);
    match ResolveLocations(opts, snap)
    case Err(e) => GenerateEnd(ListingFailed(e), [Columns])
    case Ok(locations) =>
      match Gather(snap, locations, filters)
      case Err(e) => GenerateEnd(ListingFailed(e), [Columns])
      case Ok(files) => GenerateEnd(Generated(files), [Columns] + ManifestRows(files))
  }

  /** Everything `generate` does after opening the writer: resolve the locations, then collect and write the rows. */
  method FillManifest(opts: Options, snap: Snapshot, sink: CsvSink) returns (outcome: RunOutcome)
    requires sink.rows == [Columns] && !sink.closed
    modifies sink
    ensures outcome == Generation(opts, snap).outcome && sink.rows == Generation(opts, snap).rows
  {
    var filters := BuildFilters(opts.onlyExtension, opts.excludeExtensions);
    var locations := FindAll(opts, snap);
    if locations.Err? {
      outcome := ListingFailed(locations.error);
    } else {
      var res := GenerateManifest(snap, locations.value, filters, sink);
      outcome := if res.Ok? then Generated(res.value) else ListingFailed(res.error);
    }
  }

  /**
   * The `generate` action: open `--file-name` for writing (rename.py:172),
   * which creates or empties it before anything else, resolve the
   * locations, then collect and write the manifest.  The file keeps the rows
   * written so far when a listing raises.
   */
  method GenerateRun(opts: Options, snap: Snapshot, fs: FileSystem) returns (outcome: RunOutcome, written: seq<Row>)
    modifies fs
    ensures !Writable(opts.fileName, fs.locked) ==>
      outcome == OutputUnwritable(opts.fileName) && written == [] && fs.files == old(fs.files)
    ensures Writable(opts.fileName, fs.locked) ==>
      fs.files == old(fs.files)[opts.fileName := CsvText(written)]
    ensures Writable(opts.fileName, fs.locked) ==>
      outcome == Generation(opts, snap).outcome && written == Generation(opts, snap).rows
  {
    written := [];
    var created := fs.Create(opts.fileName);
    if !created {
      outcome := OutputUnwritable(opts.fileName);
      return;
    }
    var sink := new CsvSink(Columns, opts.fileName);
    outcome := FillManifest(opts, snap, sink);
    written := sink.rows;
    fs.Store(opts.fileName, CsvText(written));
    assert old(fs.files)[opts.fileName := ""][opts.fileName := CsvText(written)] == old(fs.files)[opts.fileName := CsvText(written)];
  }

  /**
   * One run.  `snap` is the directory tree seen when listing, `fs` the files
   * the applier acts on, and `manifest` the rows read from `--read-file`.
   * `written` is what the CSV file holds at the end (empty when none is opened).
   */
  method Execute(opts: Options, snap: Snapshot, fs: FileSystem, manifest: seq<Row>) returns (outcome: RunOutcome, written: seq<Row>)
    modifies fs
    ensures opts.action == Generate && !Writable(opts.fileName, fs.locked) ==>
      outcome == OutputUnwritable(opts.fileName) && written == [] && fs.files == old(fs.files)
    ensures opts.action == Generate && Writable(opts.fileName, fs.locked) ==>
      fs.files == old(fs.files)[opts.fileName := CsvText(written)]
    ensures opts.action == Generate && Writable(opts.fileName, fs.locked) ==>
      outcome == Generation(opts, snap).outcome && written == Generation(opts, snap).rows
    ensures opts.action != Generate ==> written == []
    ensures opts.action != Generate && ResolveLocations(opts, snap).Err? ==>
      outcome == ListingFailed(ResolveLocations(opts, snap).error) && fs.files == old(fs.files)
    ensures opts.action != Generate && ResolveLocations(opts, snap).Ok? && opts.readFile == [] ==>
      outcome == MissingReadFile && fs.files == old(fs.files)
    ensures opts.action != Generate && ResolveLocations(opts, snap).Ok? && opts.readFile != [] ==>
      var r := Applied(old(fs.files), fs.locked, manifest, opts.readFile, opts.action == DryRun);
      outcome == Finished(r.outcome) && fs.files == r.files
  {
    if opts.action == Generate {
      outcome, written := GenerateRun(opts, snap, fs);
      return;
    }
    written := [];
    var locations := FindAll(opts, snap);
    if locations.Err? {
      outcome := ListingFailed(locations.error);
    } else if opts.readFile == [] {
      outcome := MissingReadFile;
    } else {
      var ended, reported := ApplyManifest(fs, opts.readFile, manifest, opts.action == DryRun);
      outcome := Finished(ended);
    }
  }

  /**
   * Generate, then apply the manifest unedited: every generated path holds a
   * `/`, so none is empty or spelled like a deletion, and a live run over
   * files that are all still present and unprotected completes and changes
   * nothing.
   */
  lemma GenerateThenApplyIsNoOp(snap: Snapshot, locations: seq<Path>, filters: seq<Filter>,
                                files: map<Path, Content>, locked: set<Path>, readFile: string)
    requires Gather(snap, locations, filters).Ok?
    requires forall p :: p in Gather(snap, locations, filters).value ==> p in files && p !in locked
    ensures var r := Applied(files, locked, [Columns] + ManifestRows(Gather(snap, locations, filters).value), readFile, false);
      r.files == files && r.outcome == Completed
  {
    var paths := Gather(snap, locations, filters).value;
    GatheredPathsContainSlash(snap, locations, filters);
    forall f | f in paths
      ensures |f| > 0 && !IsDeleteSpelling(f)
    {
      assert '/' in f;
    }
    GeneratedManifestIsNoOp(files, locked, paths, readFile);
  }
}
