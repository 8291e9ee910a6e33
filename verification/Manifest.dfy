/**
 * The generate pipeline: collecting the file list over all locations
 * (rename.py:191-198), `generate_file`, and the CSV row sink
 * (`OutputWriter` / `CsvOutputWriter`) it writes to.
 */
module Manifest {
  import opened Common
  import opened FsTree
  import opened Extensions
  import opened Listing

  /** One manifest row as the CSV reader hands it over: a list of fields. */
  type Row = seq<string>

  /** The header row written first by `CsvOutputWriter`. */
  const Columns: Row := ["Original Name", "Rename To"]

  /** The rows `generate_file` writes: `(f, f)` for every file, in order. */
  function ManifestRows(files: seq<Path>): seq<Row> {
    seq(|files|, i requires 0 <= i < |files| => [files[i], files[i]])
  }

  /** `acc + files` where evaluating either side may already have raised. */
  function Append(acc: Result<seq<Path>>, files: Result<seq<Path>>): Result<seq<Path>> {
    if acc.Err? then acc else if files.Err? then files else Ok(acc.value + files.value)
  }

  /** Left-to-right accumulation of per-location results: the concatenation, or the first error. */
  function Flatten(rs: seq<Result<seq<Path>>>): Result<seq<Path>>
    decreases |rs|
  {
    if rs == [] then Ok([]) else Append(Flatten(rs[..|rs| - 1]), rs[|rs| - 1])
  }

  /** `get_file_list(location, filters)` for every location, in order. */
  function Listings(snap: Snapshot, locations: seq<Path>, filters: seq<Filter>): seq<Result<seq<Path>>> {
    seq(|locations|, i requires 0 <= i < |locations| => GetFileList(snap, locations[i], filters))
  }

  /**
   * The file list of rename.py:193-196 as a value: the per-location lists
   * concatenated in location order, or the first location's listing error.
   */
  function Gather(snap: Snapshot, locations: seq<Path>, filters: seq<Filter>): Result<seq<Path>> {
    Flatten(Listings(snap, locations, filters))
  }

  lemma {:induction false} FlattenContents(rs: seq<Result<seq<Path>>>)
    ensures Flatten(rs).Ok? <==> forall i :: 0 <= i < |rs| ==> rs[i].Ok?
    ensures Flatten(rs).Ok? ==> forall p :: p in Flatten(rs).value <==> exists i :: 0 <= i < |rs| && p in rs[i].value
    decreases |rs|
  {
    if rs != [] {
      var n := |rs| - 1;
      FlattenContents(rs[..n]);
      assert forall i :: 0 <= i < n ==> rs[..n][i] == rs[i];
    }
  }

  lemma {:induction false} FlattenFirstError(rs: seq<Result<seq<Path>>>)
    requires Flatten(rs).Err?
    ensures exists k :: 0 <= k < |rs| && rs[k] == Flatten(rs) && forall i :: 0 <= i < k ==> rs[i].Ok?
    decreases |rs|
  {
    var n := |rs| - 1;
    assert forall i :: 0 <= i < n ==> rs[..n][i] == rs[i];
    if Flatten(rs[..n]).Err? {
      FlattenFirstError(rs[..n]);
    } else {
      FlattenContents(rs[..n]);
    }
  }

  lemma {:induction false} FlattenKeepsError(rs: seq<Result<seq<Path>>>, k: nat)
    requires k <= |rs| && Flatten(rs[..k]).Err?
    ensures Flatten(rs) == Flatten(rs[..k])
    decreases |rs|
  {
    if k == |rs| {
      assert rs[..k] == rs;
    } else {
      var n := |rs| - 1;
      assert rs[..n][..k] == rs[..k];
      FlattenKeepsError(rs[..n], k);
    }
  }

  lemma {:induction false} FlattenAppend(a: seq<Result<seq<Path>>>, b: seq<Result<seq<Path>>>)
    requires Flatten(a + b).Ok?
    ensures Flatten(a).Ok? && Flatten(b).Ok?
    ensures Flatten(a + b).value == Flatten(a).value + Flatten(b).value
    decreases |b|
  {
    if b == [] {
      assert a + b == a;
    } else {
      var m := |b| - 1;
      var ab := a + b;
      assert ab[..|ab| - 1] == a + b[..m];
      assert ab[|ab| - 1] == b[m];
      FlattenAppend(a, b[..m]);
      var fa, fb := Flatten(a).value, Flatten(b[..m]).value;
      assert (fa + fb) + b[m].value == fa + (fb + b[m].value);
    }
  }

  /**
   * Collecting succeeds exactly when every location can be listed; the list
   * then holds exactly the files the locations yield, and each passes all filters.
   */
  lemma GatherContents(snap: Snapshot, locations: seq<Path>, filters: seq<Filter>)
    ensures Gather(snap, locations, filters).Ok? <==> forall i :: 0 <= i < |locations| ==> GetFileList(snap, locations[i], filters).Ok?
    ensures Gather(snap, locations, filters).Ok? ==>
      && (forall p :: p in Gather(snap, locations, filters).value <==>
            exists i :: 0 <= i < |locations| && p in GetFileList(snap, locations[i], filters).value)
      && (forall p :: p in Gather(snap, locations, filters).value ==> AllHold(filters, snap, p))
  {
    var rs := Listings(snap, locations, filters);
    FlattenContents(rs);
    assert forall i :: 0 <= i < |locations| ==> rs[i] == GetFileList(snap, locations[i], filters);
  }

  /** On failure the error is that of the first location that cannot be listed. */
  lemma GatherFirstError(snap: Snapshot, locations: seq<Path>, filters: seq<Filter>)
    requires Gather(snap, locations, filters).Err?
    ensures exists k :: 0 <= k < |locations| && GetFileList(snap, locations[k], filters) == Gather(snap, locations, filters)
              && forall i :: 0 <= i < k ==> GetFileList(snap, locations[i], filters).Ok?
  {
    var rs := Listings(snap, locations, filters);
    FlattenFirstError(rs);
    assert forall i :: 0 <= i < |locations| ==> rs[i] == GetFileList(snap, locations[i], filters);
  }

  /** Files are grouped by location, in location order: the list splits at any location boundary. */
  lemma GatherSplits(snap: Snapshot, locations: seq<Path>, filters: seq<Filter>, j: nat)
    requires j <= |locations| && Gather(snap, locations, filters).Ok?
    ensures Gather(snap, locations[..j], filters).Ok? && Gather(snap, locations[j..], filters).Ok?
    ensures Gather(snap, locations, filters).value == Gather(snap, locations[..j], filters).value + Gather(snap, locations[j..], filters).value
  {
    var rs := Listings(snap, locations, filters);
    assert rs[..j] == Listings(snap, locations[..j], filters);
    assert rs[j..] == Listings(snap, locations[j..], filters);
    assert rs[..j] + rs[j..] == rs;
    FlattenAppend(rs[..j], rs[j..]);
  }

  /** Every collected path has a `/` in it, since every location that could be listed is non-empty. */
  lemma GatheredPathsContainSlash(snap: Snapshot, locations: seq<Path>, filters: seq<Filter>)
    requires Gather(snap, locations, filters).Ok?
    ensures forall p :: p in Gather(snap, locations, filters).value ==> '/' in p
  {
    GatherContents(snap, locations, filters);
    forall p | p in Gather(snap, locations, filters).value
      ensures '/' in p
    {
      var i :| 0 <= i < |locations| && p in GetFileList(snap, locations[i], filters).value;
      ListedPathsContainSlash(snap, locations[i], filters);
    }
  }

  /** A character that makes the `excel` dialect of Python's `csv` module quote the field holding it. */
  predicate NeedsQuoting(c: char) {
    c == ',' || c == '"' || c == '\r' || c == '\n'
  }

  /** The field with every `"` doubled. */
  function Doubled(f: string): string
    decreases |f|
  {
    if f == [] then [] else (if f[0] == '"' then "\"\"" else [f[0]]) + Doubled(f[1..])
  }

  /** A field as `csv.writer` writes it: verbatim, or quoted with inner quotes doubled when it holds `,`, `"` or a line break. */
  function CsvField(f: string): string {
    if exists i :: 0 <= i < |f| && NeedsQuoting(f[i]) then "\"" + Doubled(f) + "\"" else f
  }

  function CsvFields(row: Row): string
    decreases |row|
  {
    if row == [] then [] else if |row| == 1 then CsvField(row[0]) else CsvField(row[0]) + "," + CsvFields(row[1..])
  }

  /** The text of a CSV file holding `rows`: each row's fields separated by `,` and ended by `\r\n`. */
  function CsvText(rows: seq<Row>): string
    decreases |rows|
  {
    if rows == [] then [] else CsvText(rows[..|rows| - 1]) + CsvFields(rows[|rows| - 1]) + "\r\n"
  }

  /** Writing rows one at a time leaves the same text as writing them all at once. */
  lemma {:induction false} CsvTextAppend(a: seq<Row>, b: seq<Row>)
    ensures CsvText(a + b) == CsvText(a) + CsvText(b)
    decreases |b|
  {
    if b == [] {
      assert a + b == a;
    } else {
      var n := |b| - 1;
      var ab := a + b;
      assert ab[..|ab| - 1] == a + b[..n];
      assert ab[|ab| - 1] == b[n];
      CsvTextAppend(a, b[..n]);
      var line := CsvFields(b[n]) + "\r\n";
      assert CsvText(ab) == CsvText(a + b[..n]) + line;
      assert CsvText(b) == CsvText(b[..n]) + line;
      assert (CsvText(a) + CsvText(b[..n])) + line == CsvText(a) + (CsvText(b[..n]) + line);
    }
  }

  /** `CsvOutputWriter`: the header is written on opening, each `write` appends one row, `flush` closes the file. */
  class CsvSink {
    const fileName: Path
    var rows: seq<Row>
    var closed: bool

    constructor (columns: Row, fileName: Path)
      ensures this.fileName == fileName
      ensures rows == [columns] && !closed
    {
      this.fileName := fileName;
      rows := [columns];
      closed := false;
    }

    /** `write(*row)`; writing to a closed file fails and changes nothing. */
    method Write(row: Row) returns (ok: bool)
      modifies this
      ensures ok == !old(closed) && closed == old(closed)
      ensures rows == if ok then old(rows) + [row] else old(rows)
    {
      ok := !closed;
      if ok {
        rows := rows + [row];
      }
    }

    /** `flush()`: closes the file; the rows written stay as they are. */
    method Flush()
      modifies this
      ensures closed && rows == old(rows)
    {
      closed := true;
    }
  }

  /** `generate_file(files, writer)`: one `(f, f)` row per file, in order. */
  method GenerateFile(files: seq<Path>, sink: CsvSink)
    requires !sink.closed
    modifies sink
    ensures !sink.closed
    ensures sink.rows == old(sink.rows) + ManifestRows(files)
  {
    for i := 0 to |files|
      invariant !sink.closed
      invariant sink.rows == old(sink.rows) + ManifestRows(files[..i])
    {
      var ok := sink.Write([files[i], files[i]]);
      assert ManifestRows(files[..i + 1]) == ManifestRows(files[..i]) + [[files[i], files[i]]];
    }
    assert files[..|files|] == files;
  }

  /** The loop of rename.py:193-196: `file_list = file_list + get_file_list(location, filters)` for each location. */
  method CollectFiles(snap: Snapshot, locations: seq<Path>, filters: seq<Filter>) returns (res: Result<seq<Path>>)
    ensures res == Gather(snap, locations, filters)
  {
    ghost var rs := Listings(snap, locations, filters);
    var fileList: seq<Path> := [];
    var i := 0;
    while i < |locations|
      invariant 0 <= i <= |locations|
      invariant Flatten(rs[..i]) == Ok(fileList)
    {
      assert rs[..i + 1][..i] == rs[..i];
      match GetFileList(snap, locations[i], filters) {
        case Err(e) =>
          FlattenKeepsError(rs, i + 1);
          res := Err(e);
          return;
        case Ok(files) =>
          fileList := fileList + files;
          i := i + 1;
      }
    }
    assert rs[..i] == rs;
    res := Ok(fileList);
  }

  /**
   * The generate branch of rename.py:191-198: collect the file list, write
   * one `(f, f)` row per file and flush.  A listing error aborts before any
   * row is written, leaving only what the sink held already (its header).
   */
  method GenerateManifest(snap: Snapshot, locations: seq<Path>, filters: seq<Filter>, sink: CsvSink) returns (res: Result<seq<Path>>)
    requires !sink.closed
    modifies sink
    ensures res == Gather(snap, locations, filters)
    ensures res.Ok? ==> sink.closed && sink.rows == old(sink.rows) + ManifestRows(res.value)
    ensures res.Err? ==> !sink.closed && sink.rows == old(sink.rows)
  {
    res := CollectFiles(snap, locations, filters);
    if res.Ok? {
      GenerateFile(res.value, sink);
      sink.Flush();
    }
  }
}
