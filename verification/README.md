# doppler: duplicate classification, modelled in Dafny

Package `doppler` finds duplicate files by base name and by content hash. A
`Scanner` session holds four maps:

- a write-once name index from a base name to the first path seen with that name;
- a write-once hash index from a content hash to the first path seen with that hash;
- the duplicate map, from such a first path (the *representative*) to the name
  duplicates and hash duplicates attached to it, in discovery order;
- the error map, from a path to the message of the error that path produced.

Each file the directory walk visits is handled as follows:

1. Its path is resolved to absolute form when that option is on, then given forward slashes.
2. Unless names are skipped, it is looked up by base name: a repeat is appended
   to the representative's name sequence, and a new name is indexed.
3. Unless hashes are skipped, it is looked up by content hash in the same way.
   A hashing failure is recorded under the file's raw path, and the walk goes on.

`ScanDirs` scans several roots in order with one session and records a root's
walk error under the root. The queries report whether any error was recorded,
whether any duplicate was found, and the flat set of every attached duplicate.

The model is functional:

- The session is an immutable `Scanner` datatype.
- The walk callback is `Doppler.VisitFile`. A walk is `Doppler.FoldVisits`, a fold
  of that callback over the visited entries.
- The two checks are one generic lookup-or-insert, `Doppler.Classify`, selected
  by `Check = ByName | ByHash`.
- The standard-library and filesystem calls are the total functions of an `Env`
  record: `filepath.Abs`, `filepath.ToSlash`, `filepath.Base`, `hashFile` and
  `filepath.Walk`.

Every walk-level operation is paired with an independent reference definition written
over the visits alone:

- `KeyOf` is the key a visit is filed under.
- `KeysOf` and `ErrorsOf` are what a whole walk contributes.
- `Classified` is, per key, the normalized paths carrying it, in order.
- `Count` is the number of classified files, and `Repeated` holds when two of them share a key.

The lemmas tie the stateful scan to these definitions.

Some behaviours of the code that are easy to misread, and how the model follows them:

- The flat duplicate list (`Scanner.Duplicates()`) holds only attached
  duplicates. A representative appears in it only if it is also attached under
  some key (`Queries.ScanDuplicatePaths`).
- When `filepath.Abs` fails, the callback does not return. It records the
  error and goes on with whatever path `Abs` returned (`AbsOutcome.path`).
- A hashing failure on a file whose absolute resolution also failed overwrites
  that earlier error: both are stored under the same raw path
  (`Queries.VisitHashFailure`).
- The order of `Duplicates()` comes from Go's map iteration, so it is left
  open (`Doppler.FlatDuplicates` takes keys in any order).

Modules:

- `wrappers.dfy`: `Option` and `Result`.
- `scanner.dfy`, module `Doppler`: data model, operations, reference definitions and queries.
- `invariants.dfy`: the state invariant and its preservation.
- `counting.dfy`: the counting law.
- `composition.dfy`: how walks and roots compose.
- `grouping.dfy`: the exact contents of the indexes and records.
- `queries.dfy`: the queries in terms of the visits.
- `scenarios.dfy`: the package's test scenarios over a concrete environment.

## Model

| member | source | states |
|---|---|---|
| Doppler.NewScanner | doppler/doppler.go:27-41 | a new session keeps the three options, has no error and no duplicate, and both indexes are empty |
| Doppler.AddDuplicate | doppler/doppler.go:115-129 | the record of `path` is created if absent, one check's sequence gains exactly `duplPath` at its end, the other check's sequence and every other record are unchanged |
| Doppler.Classify | doppler/doppler.go:76-80 | an unseen key is added to the index, bound to the path, and no record changes; a seen key leaves the index as it is and the path is appended to the record of the path first bound to it, every other record unchanged; the other index and the errors are unchanged |
| Doppler.RecordError | doppler/doppler.go:47-49 | the message is stored under the path, replacing an earlier one; every other path's message, the indexes and the records are unchanged |
| Doppler.RecordAbsError | doppler/doppler.go:60-68 | an error is recorded under the raw path exactly when absolute resolution is on and fails, and it is the resolution's own message; indexes and records are unchanged |
| Doppler.CheckName | doppler/doppler.go:73-81 | the name index gains the file's base name unless names are skipped; the hash index and errors are unchanged |
| Doppler.CheckHash | doppler/doppler.go:83-95 | the hash index gains the file's hash unless hashes are skipped or hashing fails; an error is recorded under the raw path exactly when hashing runs and fails; the name index is unchanged |
| Doppler.VisitFile | doppler/doppler.go:55-97 | a visit adds exactly its errors (a failed resolution or a failed hash, under the raw path) and its keys (none for a directory) |
| Doppler.ClassifyGrows | doppler/doppler.go:76-80 | a classification rebinds no index entry and only appends to records |
| Doppler.VisitFileGrows | doppler/doppler.go:55-97 | a visit rebinds no index entry, only appends to records and loses no error |
| Doppler.FoldVisits | doppler/doppler.go:53-98 | the options are kept (the rest is in the FoldVisits lemmas below) |
| Doppler.FoldVisitsIndexKeys | doppler/doppler.go:53-98 | a walk adds to each index exactly the keys of its visits |
| Doppler.FoldVisitsErrorKeys | doppler/doppler.go:53-98 | a walk adds to the error map exactly its failed visits |
| Doppler.FoldVisitsGrows | doppler/doppler.go:53-98 | a walk rebinds no index entry, only appends to records and loses no error |
| Doppler.ScanDir | doppler/doppler.go:53-98 | the walk's error is handed back; the session gains exactly the errors and keys of the walk's visits |
| Doppler.ScanRoot | doppler/doppler.go:45-50 | one root's scan is its walk plus, if the walk failed, the walk's error stored under the root; every other path's message is the one the walk left |
| Doppler.ScanDirs | doppler/doppler.go:43-51 | the options are kept (the rest is in the lemmas below) |
| Doppler.ScanDirsIndexKeys | doppler/doppler.go:43-51 | after several roots each index holds exactly the old keys plus the keys of every visit of every root |
| Doppler.ScanDirsErrorKeys | doppler/doppler.go:43-51 | after several roots the error map holds exactly the old paths, every failed visit and every root whose walk failed |
| Doppler.ScanDirsGrows | doppler/doppler.go:74-95 | across all roots no index entry is rebound, no record loses or reorders an entry, and no error disappears |
| Doppler.FlatDuplicates | doppler/doppler.go:147-164 | the flat list has no repetition and holds exactly the paths some record lists under either check |
| Invariants.NewScannerValid | doppler/doppler.go:27-41 | a new session satisfies the state invariant |
| Invariants.RecordErrorValid | doppler/doppler.go:47-49 | recording an error keeps the invariant |
| Invariants.ClassifyKeepsOther | doppler/doppler.go:76-80 | classifying under one check keeps the other check's invariant |
| Invariants.ClassifyKeepsOwn | doppler/doppler.go:90-94 | classifying a path under its own key keeps that check's invariant and leaves no record empty |
| Invariants.CheckNameValid | doppler/doppler.go:73-81 | the name check keeps the invariant |
| Invariants.CheckHashValid | doppler/doppler.go:83-95 | the hash check keeps the invariant, whether hashing succeeds or fails |
| Invariants.VisitFileValid | doppler/doppler.go:55-97 | the walk callback keeps the invariant |
| Invariants.FoldVisitsValid | doppler/doppler.go:53-98 | a whole walk keeps the invariant |
| Invariants.ScanDirsValid | doppler/doppler.go:43-51 | a multi-root scan keeps the invariant |
| Invariants.ScanGrouped | doppler/doppler.go:115-129 | after a scan no record is empty, every name duplicate has its representative's base name, every hash duplicate has its representative's (successful) hash, and a representative with name duplicates is the name index's entry for its base name |
| Invariants.ScanSkipped | doppler/doppler.go:74 | a skipped check leaves its index empty and attaches no duplicate of its kind (likewise line 84 for hashes) |
| Counting.AddDuplicateTotals | doppler/doppler.go:115-129 | attaching one duplicate adds exactly one to that check's total and nothing to the other's |
| Counting.ClassifyMeasure | doppler/doppler.go:76-80 | every classification either indexes one new key or attaches one duplicate |
| Counting.CheckNameMeasure | doppler/doppler.go:73-81 | the name check adds one to the name measure exactly when names are checked, and nothing to the hash measure |
| Counting.CheckHashMeasure | doppler/doppler.go:83-95 | the hash check adds one to the hash measure exactly when hashing runs and succeeds, and nothing to the name measure |
| Counting.VisitFileMeasure | doppler/doppler.go:55-97 | a visit adds one to a check's measure exactly when that check classifies it |
| Counting.FoldVisitsMeasure | doppler/doppler.go:53-98 | a walk adds to each measure the number of files the check classified |
| Counting.ScanDirsMeasure | doppler/doppler.go:43-51 | likewise across all roots |
| Counting.RepeatedCons | doppler/doppler.go:76-80 | a walk repeats a key exactly when its tail does or its first file's key recurs in the tail |
| Counting.CountExceedsKeys | doppler/doppler.go:76-80 | a check classifies at least as many files as it sees keys, and strictly more exactly when two files share a key |
| Counting.ScanCounts | doppler/doppler.go:43-51 | after a scan each index holds exactly the keys seen, and a check attached as many duplicates as it classified files minus distinct keys |
| Composition.FoldVisitsAppend | doppler/doppler.go:55-97 | walking two lists of visits is walking the first and carrying on through the second: a failing visit does not stop the walk |
| Composition.FoldVisitsSnoc | doppler/doppler.go:55-97 | the state after a walk is the last visit applied to the state after the rest |
| Composition.ScanDirsAppend | doppler/doppler.go:43-51 | scanning roots in two batches with one session is scanning them all at once |
| Composition.VisitFileStrip | doppler/doppler.go:55-97 | the error map is written by a visit but never read: states that differ only in errors stay so |
| Composition.FoldVisitsStrip | doppler/doppler.go:53-98 | likewise for a whole walk |
| Composition.ScanDirsIsFold | doppler/doppler.go:43-51 | apart from errors, a multi-root scan is one walk over all roots' visits in order, so a failed root does not affect the others |
| Grouping.ClassifyApplied | doppler/doppler.go:76-80 | classification binds an unseen key to the path, or appends the path to exactly its key's representative, and leaves the other check alone |
| Grouping.CheckNameApplied | doppler/doppler.go:73-81 | the name check classifies the normalized path under its base name, or does nothing when names are skipped |
| Grouping.CheckHashApplied | doppler/doppler.go:83-95 | the hash check classifies the path under its hash, or does nothing to the indexes and records when skipped or when hashing fails |
| Grouping.VisitFileApplied | doppler/doppler.go:55-97 | one visit classifies its normalized path under its key for each check and changes nothing else about that check |
| Grouping.GroupStepAt | doppler/doppler.go:76-80 | one more visit extends a key's group by that visit when the visit carries the key, and leaves it alone otherwise |
| Grouping.GroupsStep | doppler/doppler.go:55-97 | one more visit extends the exact per-key grouping by that visit |
| Grouping.FoldVisitsGroups | doppler/doppler.go:53-98 | from an untouched check, a walk leaves exactly the grouping its classified paths determine |
| Grouping.ScanGroups | doppler/doppler.go:43-51 | after a scan a key is indexed iff some visited file carries it, its representative is the first such file, and its record lists the others in visit order |
| Grouping.ScanRecord | doppler/doppler.go:115-129 | after a scan a path's sequence for a check is the rest of its key's group when it heads that group, and empty otherwise |
| Grouping.ChecksIndependent | doppler/doppler.go:74-95 | skipping or running one check does not change the other check's index or sequences |
| Queries.ScanHasErrors | doppler/doppler.go:137-140 | after a scan `HasErrors` holds iff some visit failed to resolve or hash, or some root's walk failed |
| Queries.RecordsNonEmpty | doppler/doppler.go:142-145 | with no empty record, `FoundDuplicates` holds iff some check attached a duplicate |
| Queries.ScanFoundDuplicates | doppler/doppler.go:142-145 | after a scan `FoundDuplicates` holds iff two classified files share a base name or a content hash |
| Queries.ScanDuplicatePaths | doppler/doppler.go:147-164 | after a scan a path is in the flat duplicate set iff, under some check, it came after the first file with its key |
| Queries.FlatEmptyIffNone | doppler/doppler.go:142-164 | the flat duplicate set of a valid session is empty iff no duplicate was found |
| Queries.VisitHashFailure | doppler/doppler.go:84-89 | a file whose hash fails leaves the hash index and every hash sequence unchanged, is still checked by name, and its raw path ends with the hash error |
| Queries.AbsErrorReplaced | doppler/doppler.go:60-68 | an error from resolving a path is replaced by a later error stored under the same raw path |
| Scenarios.ScanSameContent | doppler/doppler_test.go:9-26 | two files with equal contents and different names give one record with one hash duplicate and no name duplicate |
| Scenarios.ScanSameBoth | doppler/doppler_test.go:28-45 | two files with equal names and contents give one record with one duplicate of each kind |
| Scenarios.ScanSameName | doppler/doppler_test.go:47-64 | two files with equal names and different contents give one record with one name duplicate and no hash duplicate |
| Scenarios.ScanTwoRoots | doppler/doppler_test.go:66-93 | two such trees scanned together give one record with two duplicates of each kind, and the flat set of the three later files |
| Scenarios.Tree1Scan | doppler/doppler_test.go:9-26 | the first test's expectations, over the fixture environment |
| Scenarios.Tree2Scan | doppler/doppler_test.go:28-45 | the second test's expectations |
| Scenarios.Tree3Scan | doppler/doppler_test.go:47-64 | the third test's expectations |
| Scenarios.MultipleTreesScan | doppler/doppler_test.go:66-93 | the fourth test's expectations, with the flat list as a set |

## Left out

- Content hashing (`hashFile`, SHA-1 over the file, hex-encoded) is the uninterpreted `Env.hashFile`, which returns a key or an error message. It is a fixed function of the path, and `Env.walk` a fixed function of the root, so the model assumes no file changes during a scan. In Go, a path visited twice (under overlapping roots) is hashed twice, and the two hashes can differ if the file changed in between. The state invariant's claim that an indexed path carries its key, and the hash clause of `Invariants.ScanGrouped`, rest on this assumption.
- `filepath.Abs`, `filepath.ToSlash` and `filepath.Base` are uninterpreted fields of `Env`. Path syntax, the working directory and separator rules are not modelled.
- `filepath.Walk` is `Env.walk`: the entries visited, in order, and the error the walk returns. Traversal order, symlinks and directory reading are not modelled.
- The walk callback's own `err` argument is ignored by the code, so it is absent from `Visit`. The model does not capture that `filepath.Walk` passes a nil `FileInfo` when `lstat` fails; in Go, `f.IsDir()` then panics instead of recording the error.
- The walk callback always returns nil, so no callback outcome stops a walk. The model has no early-exit path.
- `Env.walk` may return errors that Go's `filepath.Walk` never returns with this callback: `filepath.Walk` returns only what its callback returns, and this callback returns nil or panics. The root-error branch of `ScanDirs` (`doppler.go` lines 47-49) is modelled as written, but it is unreachable in Go, where an unreadable subdirectory is skipped with no error recorded.
- `Doppler.FlatDuplicates` leaves the order of the list open. Go's order comes from map iteration, so the fixed order `doppler_test.go` lines 83-92 check is not a property of the code and is not modelled. `Scenarios.MultipleTreesScan` checks the list as a set.
- `Doppler.ScanDirs`: its contract states only that the options are kept. Its index, error and growth properties are the lemmas `ScanDirsIndexKeys`, `ScanDirsErrorKeys` and `ScanDirsGrows`.
- `Doppler.FoldVisits`: its contract states only that the options are kept. Its properties are the lemmas `FoldVisitsIndexKeys`, `FoldVisitsErrorKeys` and `FoldVisitsGrows`.
- `Print` and `PrintJSON` (output formatting, JSON encoding) and the command line in `cmd/root.go` are I/O and are not modelled.
- Concurrency is not an issue: a session is used by one goroutine, and the model is sequential.
- The fixture trees are not part of this model. The `Scenarios` environment is one layout that meets every expectation the tests state; it is not the repository's actual fixture content.
