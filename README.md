# Freya evidence pack and maturity scoring, in Dafny

Freya is a CI tool. It has two halves, and this project models both, plus three helpers from the API template:

- **Evidence pack.** The tool gathers supply-chain evidence (an SBOM, dependency and license snapshots, TRX test results, reproducibility hashes and CI provenance) from an artifacts directory. It copies that evidence into an evidence pack, indexes what it found and writes a manifest.
- **Maturity score.** The tool scores the evidence index against a configuration of controls and levels, and renders the resulting maturity report as Markdown.
- **API helpers.** The template's security-headers middleware, its correlation-id middleware and its auditable entity base class.

The modules follow the source's files:

- **Filesystem and paths.** `FileSystem` models the filesystem as a value: a map from path to bytes plus a set of directories. It also holds `Path.Combine`, `Path.GetFileName` and the existence and size queries. `Text` holds ordinal string tests, the Markdown cell escape, integer formatting and line joining.
- **Collectors.** `ArtifactCopy` is the shared "copy one JSON artifact" logic of the SBOM, Dependency and License collectors. `SbomCollector`, `DependencyCollector`, `LicenseCollector`, `TestResultsCollector`, `ReproducibilityCollector`, `ProvenanceCollector` and `SummaryCollector` model one collector each.
  - Every collector is a method `CollectAsync(ctx, fs) returns (outcome, fs')`.
  - Each also has a declarative `Effect` function.
  - The method is proved equal to the function, and the function's properties are proved as lemmas.
  - `FlatCopy` is the loop that the TRX and hash collectors share: each file goes to `destination/FileName(file)`.
- **Pipeline.** `Collectors` dispatches over the seven collectors. `PackBuilder` holds `EvidencePackBuilder` and its specification `RunAll`.
- **Scoring.** `MaturityCalculator` holds `Calculate` and its control loop. `LevelSelection` holds `GetLevelForScore`. `CheckedArithmetic` models `Enumerable.Sum` on `int`, which throws on overflow. `MarkdownReportWriter` renders the report.
- **API helpers.** `SecurityHeaders` and `HeaderMap` model the middleware and its `TryAdd`. `CorrelationId` models `CorrelationIdMiddleware`. `Http` models the mutable `HttpContext`. `Auditing` models `AuditableEntity`.

What the code takes from the host is a parameter, gathered in the `Environment` datatype:

- the clock;
- the assembly version;
- the recursive `*.trx` enumeration;
- `Paths.GetRelativePath`;
- the JSON serialisers;
- UTF-8 encoding.

The scoring side receives the JSON parsers' results as parameters, and the correlation middleware receives the new GUID as one.

Two facts about the summary index:

- The summary index has exactly the five file entries of `SummaryCollector.cs:21-28`, with no directory aggregates and no entry of its own.
- The fourth entry, `out/../artifacts/release1.sha256`, passes the textual `StartsWith(OutputDirectory)` filter, so it is indexed. `SummaryCollector.ExpectedUnderOutput` states this, and `SummaryCollector.AllExpectedIndexed` states that all five are indexed. Its existence and size are looked up by the path's spelling, not by the file it resolves to (see "## Left out").

Copying a file onto itself fails. `FileCopy.CopyAsync` and the two flat-copy loops open the source for reading with `FileShare.Read`, then `File.Create` the destination with `FileShare.None`. When both are the same file, the second open raises an `IOException` in either mode. The model raises `Exceptions.FileInUse` there. This happens when the artifacts directory is the output directory, or when a hash or TRX file already sits where it would be copied.

## Model

| member | source | states |
|---|---|---|
| FileSystem.DirPrefix | src/Freya.Evidence/Collectors/SbomCollector.cs:17-18 | `Path.Combine` keeps its first argument as a prefix and appends a separator only when the first argument does not already end in one |
| FileSystem.FileName | src/Freya.Evidence/Collectors/TestResultsCollector.cs:43 | `Path.GetFileName` never contains a separator |
| FileSystem.CombineSegment | src/Freya.Evidence/Collectors/SbomCollector.cs:17-18 | combining a directory with a relative name yields the directory, a separator and the name, so the result lies under that directory |
| FileSystem.CombineTwoSegments | src/Freya.Evidence/Collectors/SbomCollector.cs:17-18 | the three-argument `Path.Combine(dir, folder, file)` is `dir/folder/file` and lies under `dir` |
| FileSystem.FileNameOfCombine | src/Freya.Evidence/Collectors/ReproducibilityCollector.cs:38 | the file name of `Combine(dir, name)` is `name` when `name` holds no separator |
| FileSystem.FileNameAfterSeparator | src/Freya.Evidence/Collectors/TestResultsCollector.cs:43 | the file name of any path that ends in a separator followed by a separator-free name is that name |
| FileSystem.CombinedSegmentsDiffer | src/Freya.Evidence/Collectors/ReproducibilityCollector.cs:18-19 | two different names combined with the same directory give different paths |
| FileSystem.CombinedFilesDiffer | src/Freya.Evidence/Collectors/SbomCollector.cs:17-18 | two folder/file paths whose file names differ near the end are different paths, whatever their roots |
| FlatCopy.TargetOfSegment | src/Freya.Evidence/Collectors/ReproducibilityCollector.cs:38 | a file at `folder/name` is copied to `destination/name` |
| FlatCopy.CopyEach | src/Freya.Evidence/Collectors/TestResultsCollector.cs:41-47 | the copy loop only adds files and never touches directories; it stops at a missing source or at a source that is its own target |
| FlatCopy.CopyFiles | src/Freya.Evidence/Collectors/TestResultsCollector.cs:41-47 | the imperative copy loop, with its exits for a missing source and for a copy onto itself, computes exactly `CopyEach` |
| FlatCopy.CopyEachStopsAtFailure | src/Freya.Evidence/Collectors/TestResultsCollector.cs:41-47 | once a copy throws, the later files are not copied and the outcome is that exception |
| FlatCopy.CopyEachCompletes | src/Freya.Evidence/Collectors/TestResultsCollector.cs:41-47 | when every source exists, the loop completes iff no source is its own target; otherwise it throws the `IOException` of such a source |
| FlatCopy.CopyEachFrame | src/Freya.Evidence/Collectors/TestResultsCollector.cs:41-47 | a path that is no file's target is left as it was |
| FlatCopy.CopyEachLastWins | src/Freya.Evidence/Collectors/TestResultsCollector.cs:43-46 | when several sources share a file name, the target holds the bytes of the last of them (`File.Create` overwrites) |
| ArtifactCopy.Effect | src/Freya.Evidence/Collectors/SbomCollector.cs:15-49 | copying one artifact changes at most the destination file and never removes a file or a directory |
| ArtifactCopy.CopyJsonArtifact | src/Freya.Evidence/Collectors/SbomCollector.cs:20-47 | strict mode throws `FileNotFoundException` for a missing source and `InvalidOperationException` for one below `MinimumJsonBytes`; lenient mode skips a missing source and copies an undersized one; a source that is its own destination throws the sharing `IOException` of `FileCopy.CopyAsync` in either mode and changes nothing; on success the destination holds the source's bytes and nothing else changes |
| SbomCollector.CollectAsync | src/Freya.Evidence/Collectors/SbomCollector.cs:15-49 | it throws iff strict mode and the SBOM is missing or undersized, or the SBOM exists and is its own destination (artifacts directory equal to the output directory), which throws the sharing `IOException` and changes nothing; a completed run with a source copies it byte for byte to `out/sbom/bom.json`; no other path and no directory changes |
| DependencyCollector.CollectAsync | src/Freya.Evidence/Collectors/DependencyCollector.cs:15-47 | the same contract for `dependencies/dependencies.json` |
| LicenseCollector.CollectAsync | src/Freya.Evidence/Collectors/LicenseCollector.cs:15-45 | the same contract for `licenses/packages.json` |
| ProvenanceCollector.Effect | src/Freya.Evidence/Collectors/ProvenanceCollector.cs:15-40 | the collector writes at most `out/provenance/provenance.json` and removes nothing |
| ProvenanceCollector.CollectAsync | src/Freya.Evidence/Collectors/ProvenanceCollector.cs:15-40 | the outcome depends on the metadata and the mode only: it throws iff there is no metadata and strict mode is on; with no metadata nothing changes; otherwise exactly the provenance file is written, with the serialised metadata, and its directory is created |
| ReproducibilityCollector.Existing | src/Freya.Evidence/Collectors/ReproducibilityCollector.cs:22 | the `Where(File.Exists)` filter keeps exactly the candidates that exist |
| ReproducibilityCollector.Effect | src/Freya.Evidence/Collectors/ReproducibilityCollector.cs:14-45 | the collector only adds files and directories |
| ReproducibilityCollector.CollectAsync | src/Freya.Evidence/Collectors/ReproducibilityCollector.cs:14-45 | it throws iff strict mode and neither hash file exists, and then throws a `FileNotFoundException` without a file name and changes nothing, or an existing hash file is its own copy target, and then throws that file's sharing `IOException`; with no snapshot nothing changes; with a snapshot it creates `out/reproducibility` |
| ReproducibilityCollector.SnapshotCopied | src/Freya.Evidence/Collectors/ReproducibilityCollector.cs:33-42 | every snapshot that exists ends up, byte for byte, as `out/reproducibility/release1.sha256` or `release2.sha256` |
| ReproducibilityCollector.PairCopied | src/Freya.Evidence/Collectors/ReproducibilityCollector.cs:33-42 | copying the existing members of a pair with distinct targets completes, and each existing member reaches its target |
| ReproducibilityCollector.CopyPairLastWins | src/Freya.Evidence/Collectors/ReproducibilityCollector.cs:36-42 | when both hash files exist, both copies survive |
| ReproducibilityCollector.ExistingOfPair | src/Freya.Evidence/Collectors/ReproducibilityCollector.cs:22 | the filter keeps declaration order: release1 first, then release2 |
| ReproducibilityCollector.SnapshotTargets | src/Freya.Evidence/Collectors/ReproducibilityCollector.cs:38 | the two candidates are copied under their own file names |
| ReproducibilityCollector.SnapshotNamesDiffer | src/Freya.Evidence/Collectors/ReproducibilityCollector.cs:18-19 | the two copies cannot overwrite each other |
| TestResultsCollector.Effect | src/Freya.Evidence/Collectors/TestResultsCollector.cs:14-50 | the collector only adds files and directories |
| TestResultsCollector.CollectAsync | src/Freya.Evidence/Collectors/TestResultsCollector.cs:14-50 | with no source directory or no TRX file, nothing changes and only strict mode throws; otherwise `out/tests` is created whatever the mode; a throw can only be the `NotFound` or the sharing `IOException` of one of the enumerated files; when all of them exist it completes iff none is its own copy target |
| TestResultsCollector.ThrowsOnlyForASource | src/Freya.Evidence/Collectors/TestResultsCollector.cs:41-47 | the copy loop's only exceptions are the missing-source one and the copy-onto-itself one, each naming a file from the list |
| TestResultsCollector.Flattened | src/Freya.Evidence/Collectors/TestResultsCollector.cs:38-47 | the TRX files are flattened into `out/tests/<file name>`, the last file of each name winning |
| SummaryCollector.Classify | src/Freya.Evidence/Collectors/SummaryCollector.cs:41-55 | an item exists iff its file does, and then has the file's size; "missing" iff absent, with size 0; "empty" iff present, below `MinimumJsonBytes` and ending in `.json` (case-insensitively); "ok" otherwise |
| SummaryCollector.IndexItems | src/Freya.Evidence/Collectors/SummaryCollector.cs:30-56 | the indexing loop, with its skip of entries outside the output directory, computes exactly `Indexed` |
| SummaryCollector.AllExpectedIndexed | src/Freya.Evidence/Collectors/SummaryCollector.cs:21-56 | all five expected entries are indexed, in order, each classified from its own path |
| SummaryCollector.ExpectedUnderOutput | src/Freya.Evidence/Collectors/SummaryCollector.cs:36 | every expected path, the `..` one included, starts with the output directory, so the filter skips none |
| SummaryCollector.SbomPathUnderOutput | src/Freya.Evidence/Collectors/SummaryCollector.cs:23 | the SBOM entry lies under the output directory |
| SummaryCollector.DependenciesPathUnderOutput | src/Freya.Evidence/Collectors/SummaryCollector.cs:24 | the dependencies entry lies under the output directory |
| SummaryCollector.LicensesPathUnderOutput | src/Freya.Evidence/Collectors/SummaryCollector.cs:25 | the licenses entry lies under the output directory |
| SummaryCollector.HashPathUnderOutput | src/Freya.Evidence/Collectors/SummaryCollector.cs:26 | the textual `out/../artifacts/release1.sha256` still starts with `out` |
| SummaryCollector.ManifestPathUnderOutput | src/Freya.Evidence/Collectors/SummaryCollector.cs:27 | the manifest entry lies under the output directory |
| SummaryCollector.IndexedWhenAllPass | src/Freya.Evidence/Collectors/SummaryCollector.cs:32-56 | when every entry passes the prefix filter, the index has one item per entry, in order |
| SummaryCollector.Rows | src/Freya.Evidence/Collectors/SummaryCollector.cs:99-102 | one table row per item |
| SummaryCollector.RowsInOrder | src/Freya.Evidence/Collectors/SummaryCollector.cs:99-102 | row `i` renders item `i` |
| SummaryCollector.WriteSummaryMarkdown | src/Freya.Evidence/Collectors/SummaryCollector.cs:85-110 | the string-builder sequence produces exactly `SummaryLines` |
| SummaryCollector.AppendItemRows | src/Freya.Evidence/Collectors/SummaryCollector.cs:99-102 | the row loop appends exactly the item rows, in order |
| SummaryCollector.AppendNotes | src/Freya.Evidence/Collectors/SummaryCollector.cs:104-109 | the notes block is appended as declared |
| SummaryCollector.SummaryShape | src/Freya.Evidence/Collectors/SummaryCollector.cs:89-109 | the summary has 15 fixed lines plus one per item, and line `9 + i` is item `i`'s row |
| SummaryCollector.ItemRowColumns | src/Freya.Evidence/Collectors/SummaryCollector.cs:101 | every item row has exactly six unescaped pipes, so five columns, whatever the names, paths and statuses hold |
| SummaryCollector.Effect | src/Freya.Evidence/Collectors/SummaryCollector.cs:18-71 | the summary always completes, only adds files and leaves the directories alone |
| SummaryCollector.SummaryKeepsOtherFiles | src/Freya.Evidence/Collectors/SummaryCollector.cs:67-68 | only `evidence-index.json` and `EvidenceSummary.md` change |
| SummaryCollector.CollectAsync | src/Freya.Evidence/Collectors/SummaryCollector.cs:18-113 | it completes; both files render the same index, built from the filesystem as it was on entry; exactly those two files change |
| Collectors.Collect | src/Freya.Evidence/Abstractions/EvidencePackBuilder.cs:35 | no collector removes a file or a directory |
| Collectors.RunCollector | src/Freya.Evidence/Abstractions/EvidencePackBuilder.cs:35 | the dispatching method runs exactly the collector's effect |
| Collectors.LenientCollectCompletes | src/Freya.Evidence/EvidenceContext.cs:24-27 | in lenient mode no collector throws, provided the enumerated TRX files exist and no collector would copy a file onto itself |
| Collectors.InFolderIsNotManifest | src/Freya.Evidence/Abstractions/EvidencePackBuilder.cs:46 | a file in a sub-folder of the output directory is never the manifest |
| Collectors.SummaryFilesAreNotManifest | src/Freya.Evidence/Collectors/SummaryCollector.cs:75 | the index and the summary are not the manifest |
| Collectors.CopyIntoFolderKeepsManifest | src/Freya.Evidence/Abstractions/EvidencePackBuilder.cs:46 | a flat copy into an output sub-folder leaves the manifest path alone |
| Collectors.TestResultsKeepManifest | src/Freya.Evidence/Collectors/TestResultsCollector.cs:38-47 | the TRX collector leaves the manifest path alone |
| Collectors.ReproducibilityKeepsManifest | src/Freya.Evidence/Collectors/ReproducibilityCollector.cs:33-42 | the hash collector leaves the manifest path alone |
| Collectors.SbomKeepsManifest | src/Freya.Evidence/Collectors/SbomCollector.cs:18 | the SBOM collector leaves the manifest path alone |
| Collectors.DependencyKeepsManifest | src/Freya.Evidence/Collectors/DependencyCollector.cs:18 | the dependency collector leaves the manifest path alone |
| Collectors.LicenseKeepsManifest | src/Freya.Evidence/Collectors/LicenseCollector.cs:18 | the license collector leaves the manifest path alone |
| Collectors.ProvenanceKeepsManifest | src/Freya.Evidence/Collectors/ProvenanceCollector.cs:27-30 | the provenance collector leaves the manifest path alone |
| Collectors.CollectKeepsManifest | src/Freya.Evidence/Abstractions/EvidencePackBuilder.cs:32-46 | no collector writes the manifest path; only the builder writes it, after the loop |
| PackBuilder.Names | src/Freya.Evidence/Abstractions/EvidencePackBuilder.cs:36 | the recorded names are the collectors' names, in order |
| PackBuilder.RunAll | src/Freya.Evidence/Abstractions/EvidencePackBuilder.cs:32-37 | a completed run records every collector's name in order; a run that throws records fewer names than there are collectors |
| PackBuilder.EvidencePackBuilder.constructor | src/Freya.Evidence/Abstractions/EvidencePackBuilder.cs:16-19 | the builder keeps the collectors in the order given |
| PackBuilder.EvidencePackBuilder.BuildAsync | src/Freya.Evidence/Abstractions/EvidencePackBuilder.cs:26-56 | an empty output directory makes `Directory.CreateDirectory` throw `ArgumentException` before any collector runs, and nothing changes; otherwise the output directory is created first and survives; an exception from a collector propagates with the files written so far, and no manifest is written; otherwise the manifest (context time, tool version or "unknown", all collector names) is written to `evidence-manifest.json` |
| PackBuilder.RunAllStopsAtFailure | src/Freya.Evidence/Abstractions/EvidencePackBuilder.cs:32-37 | once a collector throws, no later collector runs |
| PackBuilder.FailingCollector | src/Freya.Evidence/Abstractions/EvidencePackBuilder.cs:32-37 | a failed run has a first failing collector: all before it completed and were recorded, and the run ends with its exception and filesystem |
| PackBuilder.RunKeepsPath | src/Freya.Evidence/Abstractions/EvidencePackBuilder.cs:32-37 | a path that no collector touches is untouched by the whole loop |
| PackBuilder.RunCompletes | src/Freya.Evidence/Abstractions/EvidencePackBuilder.cs:32-37 | if every collector completes whenever some files are present, and keeps them, the loop completes |
| PackBuilder.RunGrows | src/Freya.Evidence/Abstractions/EvidencePackBuilder.cs:32-37 | the loop never removes a file or a directory |
| PackBuilder.LenientRunCompletes | src/Freya.Evidence/EvidenceContext.cs:24-27 | in lenient mode the collector loop of every pipeline completes, so `BuildAsync` writes the manifest whenever the output directory is not empty, provided the enumerated TRX files exist and no collector would copy a file onto itself |
| PackBuilder.RunKeepsManifest | src/Freya.Evidence/Abstractions/EvidencePackBuilder.cs:32-53 | the collectors never touch the manifest, so the one the builder writes is the only one |
| PackBuilder.SummarySeesNoManifest | tools/Freya.Cli/Program.cs:37-41 | on a fresh pack, the summary, which runs before the manifest is written, indexes "Manifest" as missing with size 0 |
| PackBuilder.SbomCopyIsNotDependencySource | src/Freya.Evidence/Collectors/SbomCollector.cs:18 | copying the SBOM can never overwrite the dependency snapshot that the next collector reads |
| PackBuilder.SecondOfFourThrows | tools/Freya.Cli/Program.cs:35-45 | with four collectors, a throw in the second stops the run with the first one's name recorded |
| PackBuilder.StrictCliStopsAtMissingDependencies | tools/Freya.Cli/Program.cs:26-45 | the strict CLI pipeline with a valid SBOM that is not its own destination and no dependency snapshot copies the SBOM, then stops with the dependency collector's `FileNotFoundException` |
| CheckedArithmetic.CheckedSum | src/Freya.Scoring/MaturityCalculator.cs:80-81 | `Sum` on `int` returns the true sum, and throws iff some running total leaves the 32-bit range |
| CheckedArithmetic.SumBounds | src/Freya.Scoring/MaturityCalculator.cs:80-81 | a sum of non-negative points is non-negative and bounds every running total |
| CheckedArithmetic.SumMonotone | src/Freya.Scoring/MaturityCalculator.cs:80-81 | pointwise smaller points give a smaller sum |
| LevelSelection.Insert | src/Freya.Scoring/MaturityCalculator.cs:106 | inserting is a permutation step |
| LevelSelection.InsertDescending | src/Freya.Scoring/MaturityCalculator.cs:106 | inserting keeps the order descending by `MinScore` |
| LevelSelection.SortDescending | src/Freya.Scoring/MaturityCalculator.cs:106 | `OrderByDescending(MinScore)` gives a permutation of the levels, descending by `MinScore` |
| LevelSelection.FirstReachedInsert | src/Freya.Scoring/MaturityCalculator.cs:105-107 | the first reached level of a stably sorted list is the best reached so far |
| LevelSelection.SelectLevelIsBest | src/Freya.Scoring/MaturityCalculator.cs:104-107 | sorting and then taking the first reached level equals a left-to-right scan for the highest reached `MinScore`, ties going to the earliest declared level |
| LevelSelection.BestCharacterised | src/Freya.Scoring/MaturityCalculator.cs:104-107 | the scan finds nothing iff no level is reached, and otherwise finds a level that is selected |
| LevelSelection.SelectedUnique | src/Freya.Scoring/MaturityCalculator.cs:104 | at most one level is selected: the highest reached `MinScore`, earliest among equals |
| LevelSelection.SelectLevelSpec | src/Freya.Scoring/MaturityCalculator.cs:104-107 | the chosen level is exactly the selected one, and there is none iff no level is reached |
| LevelSelection.GetLevelForScoreSpec | src/Freya.Scoring/MaturityCalculator.cs:102-110 | the level is "Level 1 - Basic CI" when no level is reached, and otherwise the selected level's name |
| LevelSelection.SelectLevelMonotone | src/Freya.Scoring/MaturityCalculator.cs:104-107 | a higher score never selects a level with a lower `MinScore` |
| MaturityCalculator.FirstNamed | src/Freya.Scoring/MaturityCalculator.cs:54 | `FirstOrDefault` finds the first item with the control's evidence name, and finds none iff no item has it |
| MaturityCalculator.Results | src/Freya.Scoring/MaturityCalculator.cs:52-78 | one result per control, in order, each evaluated against the index |
| MaturityCalculator.Report | src/Freya.Scoring/MaturityCalculator.cs:80-94 | the only failure is overflow; a report has score and maximum equal to the sums of awarded and available points, the level for that score, the index's tool version, the time given, the per-control results and the missing required names |
| MaturityCalculator.EvaluateControls | src/Freya.Scoring/MaturityCalculator.cs:49-78 | the control loop, with its two lists, computes exactly the results and the missing required names |
| MaturityCalculator.Calculate | src/Freya.Scoring/MaturityCalculator.cs:16-95 | a missing index, then a missing config, throw `FileNotFoundException` with the path; a malformed index propagates the `JsonException`; a null index or config throws `InvalidOperationException`; a malformed config is wrapped in `InvalidOperationException` with the path and message; otherwise the result is `Report` |
| MaturityCalculator.EvaluateSpec | src/Freya.Scoring/MaturityCalculator.cs:54-60 | a control is achieved iff the first item with its evidence name has status "ok"; with no such item the status is "missing"; it is awarded its points iff achieved, and always has them available |
| MaturityCalculator.MissingRequiredExact | src/Freya.Scoring/MaturityCalculator.cs:62-65 | the missing list names exactly the required, unachieved controls, in order |
| MaturityCalculator.NothingMissingIff | src/Freya.Scoring/MaturityCalculator.cs:62-65 | nothing is missing iff every required control is achieved |
| MaturityCalculator.SumOfNonNegativePrefixes | src/Freya.Scoring/MaturityCalculator.cs:80-81 | for non-negative points, some running total overflows iff the total does |
| MaturityCalculator.NonNegativePointsBounded | src/Freya.Scoring/MaturityCalculator.cs:80-81 | with non-negative points the calculation fails iff the maximum exceeds `int.MaxValue`, and otherwise `0 <= score <= maxScore` |
| MaturityCalculator.PointsNonNegative | src/Freya.Scoring/MaturityCalculator.cs:58-60 | with non-negative points, each control is awarded between 0 and what it makes available |
| MarkdownReportWriter.MissingLines | src/Freya.Scoring/ReportWriters/MarkdownReportWriter.cs:29-32 | one line per missing control |
| MarkdownReportWriter.MissingLinesInOrder | src/Freya.Scoring/ReportWriters/MarkdownReportWriter.cs:29-32 | line `i` names missing control `i` |
| MarkdownReportWriter.ControlRows | src/Freya.Scoring/ReportWriters/MarkdownReportWriter.cs:41-46 | one row per control |
| MarkdownReportWriter.ControlRowsInOrder | src/Freya.Scoring/ReportWriters/MarkdownReportWriter.cs:41-46 | row `i` renders control `i` |
| MarkdownReportWriter.RenderLines | src/Freya.Scoring/ReportWriters/MarkdownReportWriter.cs:13-57 | the string-builder sequence produces exactly `ReportLines` |
| MarkdownReportWriter.AppendBreakdownHeader | src/Freya.Scoring/ReportWriters/MarkdownReportWriter.cs:36-39 | the breakdown heading and table header are appended as declared |
| MarkdownReportWriter.AppendLegend | src/Freya.Scoring/ReportWriters/MarkdownReportWriter.cs:48-54 | the status legend is appended as declared |
| MarkdownReportWriter.AppendMissingSection | src/Freya.Scoring/ReportWriters/MarkdownReportWriter.cs:25-34 | the missing section is appended only when something is missing |
| MarkdownReportWriter.AppendMissingLines | src/Freya.Scoring/ReportWriters/MarkdownReportWriter.cs:29-32 | the loop appends one line per missing control, in order |
| MarkdownReportWriter.AppendControlRows | src/Freya.Scoring/ReportWriters/MarkdownReportWriter.cs:41-46 | the loop appends one row per control, in order |
| MarkdownReportWriter.WriteAsync | src/Freya.Scoring/ReportWriters/MarkdownReportWriter.cs:56 | the file at `path` holds the encoded report lines; nothing else changes |
| MarkdownReportWriter.ReportScoreLines | src/Freya.Scoring/ReportWriters/MarkdownReportWriter.cs:21-22 | lines 4 and 5 are the score line and the level line |
| MarkdownReportWriter.ReportMissingLines | src/Freya.Scoring/ReportWriters/MarkdownReportWriter.cs:25-34 | with missing controls, line 7 is the missing heading and line `9 + i` names missing control `i` |
| MarkdownReportWriter.MissingSectionLines | src/Freya.Scoring/ReportWriters/MarkdownReportWriter.cs:25-34 | the section is the heading, a blank line, then the names in order |
| MarkdownReportWriter.ReportControlRows | src/Freya.Scoring/ReportWriters/MarkdownReportWriter.cs:17-54 | the report has 18 fixed lines plus the missing section plus one row per control; the breakdown heading follows the missing section; row `i` is control `i` |
| MarkdownReportWriter.MissingSectionIff | src/Freya.Scoring/ReportWriters/MarkdownReportWriter.cs:25 | line 7 is the missing heading iff some required control is missing |
| MarkdownReportWriter.ControlRowColumns | src/Freya.Scoring/ReportWriters/MarkdownReportWriter.cs:45 | every control row has exactly six unescaped pipes, so five columns, whatever the names hold |
| MarkdownReportWriter.IntegerHasNoPipe | src/Freya.Scoring/ReportWriters/MarkdownReportWriter.cs:44 | a formatted integer holds neither a pipe nor a slash |
| MarkdownReportWriter.FractionRoundTrip | src/Freya.Scoring/ReportWriters/MarkdownReportWriter.cs:44 | the points cell `awarded/available` parses back to the two numbers |
| Text.EscapeNeverStartsWithPipe | src/Freya.Scoring/ReportWriters/MarkdownReportWriter.cs:59 | an escaped value never starts with a pipe |
| Text.EscapeLength | src/Freya.Scoring/ReportWriters/MarkdownReportWriter.cs:59 | escaping never shortens a value, and empties only the empty value |
| Text.EscapeRoundTrip | src/Freya.Scoring/ReportWriters/MarkdownReportWriter.cs:59 | unescaping undoes the pipe escape |
| Text.EscapeIdentity | src/Freya.Evidence/Collectors/SummaryCollector.cs:115-116 | escaping leaves a value unchanged iff it holds no pipe |
| Text.EscapeHasNoBarePipe | src/Freya.Evidence/Collectors/SummaryCollector.cs:115-116 | an escaped value has no unescaped pipe, so it cannot split a table cell |
| Text.BarePipesConcat | src/Freya.Evidence/Collectors/SummaryCollector.cs:101 | unescaped pipes add up across a row's parts |
| Text.JoinCellsSeparators | src/Freya.Evidence/Collectors/SummaryCollector.cs:101 | joining safe cells with `" \| "` gives one unescaped pipe per separator |
| Text.TableRowColumns | src/Freya.Evidence/Collectors/SummaryCollector.cs:101 | a row of `n` safe cells has `n + 1` unescaped pipes |
| Text.EscapedCellIsSafe | src/Freya.Scoring/ReportWriters/MarkdownReportWriter.cs:45 | an escaped cell, bare or in backticks, is safe |
| Text.NatToString | src/Freya.Evidence/Collectors/SummaryCollector.cs:101 | a natural number is rendered as a non-empty digit string |
| Text.NatToStringValue | src/Freya.Evidence/Collectors/SummaryCollector.cs:101 | the digits read back as the number |
| Text.IntToString | src/Freya.Scoring/ReportWriters/MarkdownReportWriter.cs:44 | a rendered integer is non-empty, holds no slash and does not start with a pipe |
| Text.IntToStringRoundTrip | src/Freya.Scoring/ReportWriters/MarkdownReportWriter.cs:44 | a rendered integer parses back to itself |
| Text.IndexOf | src/Freya.Scoring/ReportWriters/MarkdownReportWriter.cs:44 | the first occurrence of a character, or none iff it does not occur |
| Text.IndexOfAfter | src/Freya.Scoring/ReportWriters/MarkdownReportWriter.cs:44 | the slash of `a/b` is found right after the first number |
| HeaderMap.TryAdd | templates/FreyaTemplate/src/Project.Api/Extensions/SecurityHeadersExtensions.cs:63-66 | after `TryAdd` the header is present and exactly that name was added |
| HeaderMap.AddAllKeys | templates/FreyaTemplate/src/Project.Api/Extensions/SecurityHeadersExtensions.cs:63-66 | a run of `TryAdd`s adds exactly the names it mentions |
| HeaderMap.AddAllKeeps | templates/FreyaTemplate/src/Project.Api/Extensions/SecurityHeadersExtensions.cs:65 | a header already present is never overwritten |
| HeaderMap.AddAllFirstWins | templates/FreyaTemplate/src/Project.Api/Extensions/SecurityHeadersExtensions.cs:65 | for an absent header, the first addition of that name wins |
| HeaderMap.AddAllPresent | templates/FreyaTemplate/src/Project.Api/Extensions/SecurityHeadersExtensions.cs:65 | when every name is present, nothing changes |
| HeaderMap.AddAllIdempotent | templates/FreyaTemplate/src/Project.Api/Extensions/SecurityHeadersExtensions.cs:63-66 | running the same additions twice equals running them once |
| SecurityHeaders.HstsOnlyInProduction | templates/FreyaTemplate/src/Project.Api/Extensions/SecurityHeadersExtensions.cs:17-21 | whatever the `configure` callback does, HSTS is never used outside production; a callback that disables it disables it everywhere; one that leaves it enabled leaves the decision to the environment |
| SecurityHeaders.DefaultHsts | templates/FreyaTemplate/src/Project.Api/Extensions/SecurityHeadersExtensions.cs:17-21 | with no configuration, HSTS is used exactly in production (`EnableHsts` defaults to true) |
| SecurityHeaders.StepwiseIsRun | templates/FreyaTemplate/src/Project.Api/Extensions/SecurityHeadersExtensions.cs:34-61 | the statement-by-statement header sequence equals one run of `TryAdd`s over the additions list |
| SecurityHeaders.AlwaysIsRun | templates/FreyaTemplate/src/Project.Api/Extensions/SecurityHeadersExtensions.cs:38-50 | the five unconditional headers are one run of `TryAdd`s |
| SecurityHeaders.OptionalIsRun | templates/FreyaTemplate/src/Project.Api/Extensions/SecurityHeadersExtensions.cs:53-57 | a conditional `TryAdd` extends the run only when the value is not blank |
| SecurityHeaders.TryAddHeader | templates/FreyaTemplate/src/Project.Api/Extensions/SecurityHeadersExtensions.cs:63-66 | the response headers become `TryAdd` of the old ones |
| SecurityHeaders.ApplySecurityHeaders | templates/FreyaTemplate/src/Project.Api/Extensions/SecurityHeadersExtensions.cs:34-61 | the response headers become `Secured` of the old ones |
| SecurityHeaders.InvokeMiddleware | templates/FreyaTemplate/src/Project.Api/Extensions/SecurityHeadersExtensions.cs:23-29 | a started response is left alone; otherwise its headers are secured; request headers and items are unchanged; `next` runs once, after the headers |
| SecurityHeaders.SecuredNeverOverwrites | templates/FreyaTemplate/src/Project.Api/Extensions/SecurityHeadersExtensions.cs:65 | a header the application already set keeps its value |
| SecurityHeaders.SecuredKeys | templates/FreyaTemplate/src/Project.Api/Extensions/SecurityHeadersExtensions.cs:38-57 | securing adds exactly the five fixed names plus COOP and CORP when configured |
| SecurityHeaders.AdditionNames | templates/FreyaTemplate/src/Project.Api/Extensions/SecurityHeadersExtensions.cs:38-57 | the additions list names exactly those headers |
| SecurityHeaders.NoXssHeaderAdded | templates/FreyaTemplate/src/Project.Api/Extensions/SecurityHeadersExtensions.cs:59-60 | `X-XSS-Protection` is never added |
| SecurityHeaders.OpenerPolicyAddedIff | templates/FreyaTemplate/src/Project.Api/Extensions/SecurityHeadersExtensions.cs:53-54 | an absent COOP header is added iff its option is not blank |
| SecurityHeaders.ResourcePolicyAddedIff | templates/FreyaTemplate/src/Project.Api/Extensions/SecurityHeadersExtensions.cs:56-57 | an absent CORP header is added iff its option is not blank |
| SecurityHeaders.SecuredValues | templates/FreyaTemplate/src/Project.Api/Extensions/SecurityHeadersExtensions.cs:38-50 | each absent fixed header gets its configured value, and `X-Content-Type-Options` gets `nosniff` |
| SecurityHeaders.FirstAdditionWins | templates/FreyaTemplate/src/Project.Api/Extensions/SecurityHeadersExtensions.cs:63-66 | an absent header takes its first addition's value |
| SecurityHeaders.SecuredIdempotent | templates/FreyaTemplate/src/Project.Api/Extensions/SecurityHeadersExtensions.cs:34-61 | a second pass of the middleware changes nothing |
| Http.HttpContext.constructor | src/Project.Api/Middleware/CorrelationIdMiddleware.cs:7 | a context starts with the given headers, no items and no call of `next` |
| Http.HttpContext.Next | src/Project.Api/Middleware/CorrelationIdMiddleware.cs:18 | `next` sees the context as it is and changes nothing the middleware observes |
| CorrelationId.ResolveKeepsCallerId | src/Project.Api/Middleware/CorrelationIdMiddleware.cs:9-13 | the caller's id is kept iff it is present and not blank; otherwise the fresh GUID is used |
| CorrelationId.ResolvedIsNeverBlank | src/Project.Api/Middleware/CorrelationIdMiddleware.cs:9-13 | the resolved id is never blank |
| CorrelationId.InvokeAsync | src/Project.Api/Middleware/CorrelationIdMiddleware.cs:7-19 | the resolved id is set on the request, echoed on the response and stored in the items; a valid caller id leaves the request unchanged; `next` runs once, after all three |
| Auditing.Incremented | src/Project.Domain/Entities/AuditableEntity.cs:56 | `Version++` on a `long` is `v + 1` taken modulo 2^64 into the `long` range, so `long.MaxValue` wraps to `long.MinValue` |
| Auditing.VersionCountsModifications | src/Project.Domain/Entities/AuditableEntity.cs:42-56 | below the wrap, after creation and `n` modifications the version is `1 + n` |
| Auditing.AuditableEntity.constructor | src/Project.Domain/Entities/AuditableEntity.cs:12-31 | a new entity was created by "system" at the default time, is unmodified and has version 0 |
| Auditing.AuditableEntity.MarkCreated | src/Project.Domain/Entities/AuditableEntity.cs:39-44 | creation sets the time, the actor and version 1, and leaves the modification fields alone |
| Auditing.AuditableEntity.MarkModified | src/Project.Domain/Entities/AuditableEntity.cs:52-57 | a modification records the time and actor and increments the version, leaving the creation fields alone |

## Left out

- JSON parsing and serialisation are parameters. Parsing is given as its result (parsed, null or malformed); serialisation is given as functions from the records to bytes.
- Console logging, `async`/`await` and the cancellation tokens are left out. The tokens are never cancelled in the tool, and the logs change no state.
- The clock (`DateTimeOffset.UtcNow`, `TimeProvider`), the assembly version and the new GUID are parameters.
- Text encoding is a parameter function. File sizes are the lengths of byte sequences.
- `Directory.EnumerateFiles(.., "*.trx", AllDirectories)` is a parameter: the list it returns. Its order is whatever the host gives.
- `Paths.GetRelativePath` is a parameter function. Its `..` walking and separator replacement are not modelled.
- Paths use `/` only. `Path.Combine` is modelled without Windows separators, drive roots or `..` resolution.
- SummaryCollector.Classify: lookups are textual. `out/../artifacts/release1.sha256` is a key of its own, so the hash entry is "missing" unless a file was stored under that exact spelling. .NET's `File.Exists` and `FileInfo` resolve `..`, so with the command-line defaults `./artifacts` and `./evidence-pack` the program reports the artifacts' hash file as present. The same holds for every existence check and copy: two spellings of one file are two paths here.
- Text.IntToString renders `-` and ASCII digits. The source's `{int}` interpolation uses the current culture, whose negative sign may differ (ICU cultures can give U+2212). Points and sizes are non-negative in practice, so only a configuration with negative points shows the difference.
- `Environment.testResultFiles` is not tied to the filesystem. The model does not require the listed files to exist, to end in `.trx` or to lie under `artifacts/tests`. A listed file that is missing when opened raises `FileNotFoundException`, which is modelled.
- `FileCopy.CopyAsync` creating the destination's parent directory is not modelled.
  - The SBOM, Dependency and License collectors leave `fs.dirs` unchanged rather than adding `out/sbom`, `out/dependencies` or `out/licenses`.
  - The files themselves are modelled exactly.
- `File.WriteAllTextAsync` into a directory that does not exist would throw. The model writes regardless. The builder creates the output directory first, so this matters only for a report path outside it.
- `StringBuilder.AppendLine` uses `"\n"` as the line terminator. The host's `Environment.NewLine` is not modelled.
- `EndsWith(".json", OrdinalIgnoreCase)` is modelled with ASCII case folding. That is exact for the ASCII suffix `.json`, except for exotic non-ASCII case pairs.
- Header names are compared case-sensitively. ASP.NET's header dictionary is case-insensitive, and a header's value is a single string, not a multi-valued `StringValues`.
- `app.UseHsts()` and `app.Use(...)` registration is modelled as the `UsesHsts` decision and the per-request `InvokeMiddleware`. The HSTS middleware's own header is not modelled.
- What `next` does downstream is not modelled. `Http.HttpContext.Next` only records that it ran and what it saw.
- A JSON `null` for an item's `Status`, or for the `Items`, `Controls` or `Levels` lists, is not modelled. Every parsed record has all its fields.
- `Auditing.AuditableEntity.constructor`: the default `DateTimeOffset` is kept as its round-trip text.
- `MarkdownReportWriter.WriteAsync` does not model the `{GeneratedAt:O}` formatting. Timestamps are kept as their text.
- `JsonReportWriter`, the API `Program.cs` files and `IEvidenceCollector` are not part of this model. They only wire the modelled parts together or serialise records.
