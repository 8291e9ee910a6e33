# rename-script, modelled in Dafny

`rename.py` audits and batch-renames files. In *generate* mode it walks a
start directory to a depth (`--levels`), or takes `--custom-locations`
verbatim. It keeps the directory entries that pass a filter chain: regular
file, `--exclude-extensions`, `--only-extension`. It then writes a CSV
manifest with the header `Original Name,Rename To` and one `(f, f)` row per
file. In *dry_run* and *rename* mode it reads an edited manifest back:

- it skips the header and every row whose original contains the manifest's
  own path;
- it turns the targets `D`, `d` and `delete` into `Deleted`;
- it then either reports each action (dry run) or removes/renames files
  (live), stopping at the first failing call.

The model follows the script's own split between pure and imperative code:

| file | module | what it holds |
|---|---|---|
| Common.dfy | `Common` | `Path`, `Option`, `Result`, the `os.listdir` errors, a subsequence predicate |
| Text.dfy | `Text` | the Python string operations used: ASCII `str.lower`, substring `in`, `os.path.join` |
| FsTree.dfy | `FsTree` | the directory tree seen by `os.listdir` / `isfile` / `isdir`, looked up by joined path, with directories that can be neither listed nor searched |
| Extensions.dfy | `Extensions` | `get_file_ext`, the three filters, `all(...)`, and how the driver builds the chain |
| Listing.dfy | `Listing` | `get_file_list` |
| Locations.dfy | `Locations` | `find_locations`: spec function, a reference walk over the depth-tagged pre-order enumeration, and the class holding the global `locations` list |
| Manifest.dfy | `Manifest` | the generate loop, `generate_file`, `CsvOutputWriter` as a sink holding rows, and the text `csv.writer` produces |
| Applier.dfy | `Applier` | `rename`: a pure plan (rows to actions), a pure run (actions on a file map), and the imperative row loop over a `FileSystem` object |
| Driver.dfy | `Driver` | the main block: opening the output, filter chain, location resolution, dispatch on `--action` |

Behaviours of the script that the model keeps as they are:

- The extension filters compare the configured values verbatim. The path's
  extension is lower-cased, the configured values are not, so
  `--only-extension TXT` matches nothing.
- Only the exact targets `D`, `d` and `delete` mean "delete" (plus a literal
  `Deleted`). `Delete` and `DELETE` are rename targets.
- `levels <= 0` does not stop at any depth: the walk lists every directory
  of the tree.
- `find_locations` runs before the action is dispatched. A listing error
  during the walk therefore aborts dry runs and renames too.
- The walk appends a directory before listing it. When a listing raises
  (a directory that cannot be read), the global list keeps every directory
  appended so far, including the one that raised.
- `generate` opens `--file-name` for writing first. That creates the file,
  or empties an existing one, before any directory is listed.

## Model

| member | source | states |
|---|---|---|
| Extensions.AfterLastDot | rename.py:60 | the result is the suffix of the string after its last `.`: it holds no `.`, and it is either the whole string or preceded by a `.` |
| Extensions.GetFileExt | rename.py:59-60 | the extension is the lower-cased last dot segment of the whole path. It holds no `.` and no upper-case letter. A path without `.` is its own (lower-cased) extension |
| Extensions.ExtIgnoresCase | rename.py:59-60 | the extension of a path equals the extension of its lower-cased form (`A.TXT` and `a.txt` give the same) |
| Extensions.DotlessNameInheritsDirectoryExt | rename.py:74 | filters see the joined path, so an entry name without `.` gets the last dot segment of its directory plus `/name` as its extension |
| Extensions.Holds | rename.py:62-66 | no contract of its own: one filter applied to the full joined path, `isfile` or an extension test against the configured value compared verbatim. `BuildFiltersMeaning` states what the chain of them accepts |
| Extensions.AllHold | rename.py:74 | no contract of its own: `all(...)` over the filter list, left to right with short-circuit. `AllHoldMeansEvery` and `AllHoldIgnoresOrder` state its meaning |
| Extensions.AllHoldMeansEvery | rename.py:74 | the short-circuit `all(...)` over the filter list holds exactly when every filter in it holds |
| Extensions.AllHoldIgnoresOrder | rename.py:74 | two filter lists that are permutations of each other accept exactly the same paths |
| Extensions.BuildFilters | rename.py:166-181 | `isfile` comes first and is always present. `is_excluded` is present exactly when an exclusion list is given, and `is_custom_ext` exactly when an only-extension is given. Nothing else is in the list |
| Extensions.BuildFiltersMeaning | rename.py:62-66 | a path passes the built chain iff it is a regular file, its extension is not in the exclusion list (if given), and its extension equals the only-extension (if given) |
| Extensions.ContradictoryFiltersAcceptNothing | rename.py:175-181 | with `--only-extension e` and `e` among `--exclude-extensions`, no path passes |
| Extensions.UppercaseOnlyExtMatchesNothing | rename.py:62-63 | an only-extension containing an upper-case letter never matches |
| Extensions.UppercaseExclusionsExcludeNothing | rename.py:65-66 | excluded extensions that all contain an upper-case letter exclude no path |
| Listing.KeepIf | rename.py:74 | the filtering part of the comprehension, for any condition: the result is a subsequence of the input whose every element satisfies the condition, and each element that satisfies it is kept as many times as it occurs, while one that does not is dropped |
| Listing.Kept | rename.py:74 | the kept paths are a subsequence of the joined listing (listing order, nothing added). Each kept path passes every filter, and every listed entry that passes every filter is kept, as many times as it is listed; a path that fails is not kept at all. Together these fix the result as the passing paths of the listing in listing order |
| Listing.GetFileList | rename.py:73-74 | fails with the `os.listdir` error exactly when the location cannot be listed: the empty path, a missing path (ENOENT), a path through a directory that cannot be searched or an unreadable directory (EACCES), a path through a regular file or a regular file (ENOTDIR). Otherwise it returns exactly the joined entries passing all filters, each as often as it is listed, in listing order |
| Listing.ListedPathsContainSlash | rename.py:74 | a location that can be listed is non-empty, so every path it yields has a `/` in it |
| Listing.GetFileListBelowBlocked | rename.py:73-74 | for every snapshot whose entry names are non-empty and free of `/`: a location strictly below a regular file fails with ENOTDIR, and one strictly below a directory that can be neither listed nor searched fails with EACCES, whether or not an entry of that name exists there |
| FsTree.ListingBelowBlocked | rename.py:74 | the same law for `os.listdir` itself: every path strictly below a regular file or an unreadable directory raises ENOTDIR or EACCES respectively |
| FsTree.BlockedBelow | rename.py:74 | resolving any path below an entry that blocks the lookup (a regular file, or a directory that cannot be searched) stops at that entry with ENOTDIR or EACCES, in any subtree with proper names |
| FsTree.BlockedAmong | rename.py:74 | the same law for the entries of a directory from a given index on: the entry that blocks the lookup of `q` also blocks every path below `q` |
| FsTree.MissingBelow | rename.py:74 | a path that resolves to nothing has nothing below it: every path below it is missing too (ENOENT) |
| FsTree.MissingAmong | rename.py:74 | the same law for the entries of a directory from a given index on |
| Locations.Locations | rename.py:76-83 | the walk always appends the start directory first, and a walk that raises names the directory it appended last |
| Locations.WalkMatchesEnumeration | rename.py:76-83 | the recursive walk equals a reference walk over the pre-order enumeration of the tree's directories with their depths: append each directory within the limit, stop at the first listed directory that cannot be read |
| Locations.ShallowDirectoriesListed | rename.py:76-83 | for `levels >= 1`, the walk completes iff every directory less than `levels - 1` deep (the ones it lists) is readable. It then appends exactly the directories less than `levels` deep, in pre-order |
| Locations.NonPositiveLevelsListEverything | rename.py:76-83 | for `levels <= 0`, the walk lists every directory: it completes iff all are readable, and then appends every directory of the tree in pre-order |
| Locations.WalkStopsAtFirstUnreadable | rename.py:80-81 | a walk that raises stops at the first directory in pre-order that it lists and cannot read. The error names that directory, and the list holds exactly the directories within the limit up to and including it |
| Locations.StartLocations | rename.py:76-81 | `levels == 1` yields just the start, unlooked-at. Otherwise a start that cannot be listed (missing, a regular file, unreadable, empty) raises `os.listdir`'s error after appending only the start, and a listable start is walked. The result always begins with the start, and an error names the last directory appended |
| Locations.LocationList.constructor | rename.py:18 | the global location list starts empty |
| Locations.LocationList.FindLocations | rename.py:76-83 | appends exactly what the walk appends, including the directories appended before a listing that raised, and returns that listing's error |
| Locations.LocationList.Descend | rename.py:79-83 | appends exactly the walk's directories to the list and returns its error: the directory itself, then, unless `levels == 1`, a failure if it cannot be read, or the walks of its sub-directories |
| Locations.LocationList.DescendAmong | rename.py:81-83 | walks the sub-directories in listing order and stops at the first walk that raises, appending exactly what those walks appended |
| Manifest.GatherContents | rename.py:193-196 | collecting succeeds iff every location can be listed. The result then holds exactly the files the locations yield, and each passes all filters |
| Manifest.GatherFirstError | rename.py:193-196 | a failed collection reports the error of the first location that cannot be listed; all earlier locations listed fine |
| Manifest.GatherSplits | rename.py:193-196 | the collected list is the concatenation of the lists for any prefix and suffix of the locations, i.e. it is grouped in location order |
| Manifest.GatheredPathsContainSlash | rename.py:193-196 | every collected path has a `/` in it |
| Manifest.CollectFiles | rename.py:193-196 | the accumulation loop computes `Gather`: the concatenation, or the first listing error |
| Manifest.CsvSink.constructor | rename.py:47-50 | opening the CSV writer writes the header row |
| Manifest.CsvSink.Write | rename.py:52-53 | one `write` appends exactly one row; a closed file refuses it and keeps its rows |
| Manifest.CsvSink.Flush | rename.py:55-57 | `flush` closes the file and keeps its rows |
| Manifest.CsvTextAppend | rename.py:48-53 | the file text `csv.writer` leaves is the same whether rows are written one at a time or together |
| Manifest.GenerateFile | rename.py:68-71 | appends one `(f, f)` row per file, in order, after what the sink held |
| Manifest.GenerateManifest | rename.py:191-198 | on success the sink holds its previous rows followed by one `(f, f)` row per collected file, and is closed. On a listing error the sink is untouched and still open |
| Applier.NormaliseTarget | rename.py:105-106 | the target becomes `Deleted` iff it is exactly `D`, `d`, `delete` or `Deleted`; any other target is kept verbatim |
| Applier.Classify | rename.py:96-112 | a row with fewer than two fields raises. Position 0 and rows whose original contains the manifest path are skipped. Otherwise the action acts on the original and removes it iff the target is a delete spelling; else it renames to the target |
| Applier.PlanFrom | rename.py:95-106 | a reported malformed row lies within the rows planned |
| Applier.PlanMatchesRows | rename.py:95-115 | for a manifest whose rows all have two fields, the plan is one action per non-header row not mentioning the manifest, in row order |
| Applier.HeaderIsIgnored | rename.py:99-101 | the plan does not depend on what the first row holds, as long as it has two fields |
| Applier.PlanNeverTouchesManifest | rename.py:102-103 | no planned action acts on a path containing the manifest's path |
| Applier.PlanStopsAtFirstShortRow | rename.py:95-97 | planning is complete iff every row has two fields. Otherwise it stops at the first short row, with exactly the actions of the rows before it |
| Applier.Perform | rename.py:111-115 | no contract of its own: one `os.remove` or `os.rename` call on the file map, `None` when it raises. `PerformTouchesOnlyItsPaths` states what it does |
| Applier.PerformTouchesOnlyItsPaths | rename.py:111-115 | a call succeeds iff the source is non-empty, present and unprotected and, for a rename, the target is non-empty, unprotected and the source or absent. A removal then drops the source, a rename moves its content to the target, and no other path changes |
| Applier.Run | rename.py:111-115 | a reported failing action is one of the actions run |
| Applier.RunStopsAtFirstFailure | rename.py:111-115 | when action `k` fails, the file map is the one the first `k` actions produce, action `k` fails on it, and nothing after it ran |
| Applier.AppliedStep | rename.py:95-115 | one turn of the loop, stated for each row kind: a short row ends the run, a skipped row changes nothing, and a planned action is reported and then either fails (live) or continues from the new file map |
| Applier.Applied | rename.py:85-115 | no contract of its own: `rename()` over the whole manifest as the plan of the rows, then, unless dry, the run of that plan. `ApplyManifest` is proved equal to it; `AppliedStep`, `PlanMatchesRows`, `RunStopsAtFirstFailure` and `DryRunOnlyReports` state its meaning |
| Applier.GeneratedManifestIsNoOp | rename.py:105-115 | applying a manifest of `(f, f)` rows live completes and leaves the file map unchanged, for files that are present and writable, with non-empty paths that are not delete spellings |
| Applier.SelfRowForPathDIsDeletion | rename.py:105-113 | a hand-written `(d, d)` row deletes `d` rather than leaving it in place |
| Applier.LiveDeleteRowRemovesOnlyOriginal | rename.py:111-113 | a live `(p, delete)` row removes `p`, creates nothing, and completes |
| Applier.DryRunOnlyReports | rename.py:108-111 | a dry run leaves the file map as it was and reports every planned action |
| Applier.FileSystem.Create | rename.py:48 | `open(p, 'w')` succeeds iff the path is non-empty and may be touched. It then creates the file, or empties an existing one, and changes nothing else |
| Applier.FileSystem.Store | rename.py:50-57 | what is written through the open handle becomes the file's text, and nothing else changes |
| Applier.FileSystem.Remove | rename.py:113 | `os.remove` succeeds iff the path is non-empty, the file exists and may be touched. It then removes that one path |
| Applier.FileSystem.Rename | rename.py:115 | `os.rename` succeeds iff neither path is empty, the source exists, neither path is protected, and the target is the source or absent. The content then moves to the target |
| Applier.ApplyManifest | rename.py:85-115 | the loop with its `read_header` flag ends with the file map, outcome and reported actions of plan-then-run; a dry run leaves the file map unchanged |
| Driver.ResolveLocations | rename.py:183-186 | custom locations are used verbatim. Otherwise the walk from `--location`, which starts with it; when the walk raises, its error, naming the last directory appended |
| Driver.FindAll | rename.py:183-186 | the custom locations, or what `find_locations` appended to the empty global list, or the error it raised |
| Driver.FillManifest | rename.py:183-198 | after the header, the sink holds nothing more when the walk or a listing raises (the run ends with that error), or one `(f, f)` row per collected file |
| Driver.GenerateRun | rename.py:166-198 | `--file-name` is opened first. If that raises, nothing changes. Otherwise the file ends up holding exactly the rows written: the header, plus one row per collected file when every listing succeeds. No other file changes |
| Driver.Execute | rename.py:166-206 | `generate` creates or empties `--file-name` and changes no other file. The file holds the header, then the header plus one row per collected file, or the run stops with the listing error. `dry_run`/`rename` write no CSV. They stop on a location error or a missing `--read-file` without touching files; otherwise they apply the manifest (dry or live) |
| Driver.GenerateThenApplyIsNoOp | rename.py:191-198 | applying a generated manifest unedited (through the loop of rename.py:95-115) completes and changes nothing, provided its files are still present and unprotected. Every generated path holds a `/`, so none is empty or spelled like a deletion |

## Left out

- `TableOutputWriter`, PrettyTable rendering, `print` and logging (rename.py:30-44, the `logger` calls): presentation only. The actions a run would log are returned as `reported`.
- The base `OutputWriter` (rename.py:23-28): its methods do nothing; only the CSV sink is modelled.
- argparse (rename.py:123-164), option defaults and the `--delete-empty-folders` flag, which has no behaviour. Options arrive parsed; an absent string or list option is empty, matching the script's truth tests.
- The "action not found" branch (rename.py:204-205) cannot be reached: `--action` is restricted to the three choices, and `Command` has exactly those.
- CSV quoting and parsing (Python's `csv` module): manifest rows are sequences of fields. Opening or reading `--read-file` failing is not modelled; the rows are given.
- The real operating system. Listing uses a finite tree snapshot, with paths compared as the exact strings `os.path.join` builds. There is no `..`, `//` or symlink resolution, and no special files.
- Permissions when listing are one flag per directory: a directory is either both listable and searchable, or neither (as with mode 000). A path below one that is neither cannot be reached: `os.listdir` raises a permission error for it, whether or not an entry exists there, and `isfile` is false. A directory that can be listed but not searched, or searched but not listed, is not modelled. A lookup takes the first entry of a directory that resolves the path; the laws about paths below a blocked entry are stated for trees whose entry names are non-empty and free of `/`, which every real directory satisfies.
- Applying uses a separate file map plus a set of protected paths. It has no directories, so a rename, or the opening of `--file-name`, into a missing directory or onto a directory is not modelled as a failure, and a row whose original is a directory fails, where `os.rename` would move the directory. The two views are independent inputs of `Execute`.
- The snapshot used for listing is taken after the CSV file was opened. It may therefore list the manifest being written; the applier's self-reference guard is what skips it later.
- `Applier.FileSystem.Rename`: `os.rename` onto an existing, different file is modelled as a failure, as on Windows. POSIX would replace the target.
- `sys.exit` and the exit status: `Execute` returns an outcome instead.
- `str.lower` lower-cases ASCII letters only, as Python 2.7 byte strings do; Unicode case mapping is not modelled.
- `Locations.LocationList.DescendAmong` tests each entry for being a directory inside its loop. The script first builds the `all_folders` list. Over a fixed snapshot the two are the same.
- No-duplicates of the location list is not proved. It needs sibling names to be distinct and free of `/`, which the tree datatype does not enforce.
- `Applier.PlanFrom`: its own contract only bounds the malformed position. What it plans is stated by `PlanMatchesRows`, `PlanStopsAtFirstShortRow`, `HeaderIsIgnored` and `PlanNeverTouchesManifest`.
- `Extensions.Holds`: no contract of its own; what the built chain of filters accepts is `BuildFiltersMeaning`.
- `Extensions.AllHold`: no contract of its own; its meaning is `AllHoldMeansEvery`, and its indifference to order is `AllHoldIgnoresOrder`.
- `Applier.Perform`: no contract of its own; what one call does is `PerformTouchesOnlyItsPaths`.
- `Applier.Applied`: no contract of its own; the loop `ApplyManifest` is proved equal to it, and `AppliedStep`, `PlanMatchesRows`, `RunStopsAtFirstFailure` and `DryRunOnlyReports` state what it does.
- `Applier.Run`: its own contract only bounds the failing index. Its abort-on-first-failure meaning is `RunStopsAtFirstFailure`.
- `Locations.Locations`: its own contract only says the start comes first and what an error names. Its depth and failure meaning is stated by `WalkMatchesEnumeration`, `ShallowDirectoriesListed`, `NonPositiveLevelsListEverything` and `WalkStopsAtFirstUnreadable`.
- `Manifest.CsvText`: `csv.writer` quotes a row made of one empty field as `""`; that case is not modelled. Every row the script writes has two fields.
