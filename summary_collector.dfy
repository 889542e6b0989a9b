/**
 * Re-inspects the output tree: classifies the five known evidence locations as ok, empty or
 * missing, and writes the resulting index both as `evidence-index.json` and as the Markdown
 * table `EvidenceSummary.md`.
 */
module SummaryCollector {
  import opened Text
  import opened FileSystem
  import opened Evidence

  const Name: string := "Summary Collector"

  function SbomPath(out: Path): Path { Combine(Combine(out, "sbom"), "bom.json") }
  function DependenciesPath(out: Path): Path { Combine(Combine(out, "dependencies"), "dependencies.json") }
  function LicensesPath(out: Path): Path { Combine(Combine(out, "licenses"), "packages.json") }
  /** `Path.Combine(out, "..", "artifacts", "release1.sha256")`: outside the pack once `..` is resolved. */
  function HashPath(out: Path): Path { Combine(Combine(Combine(out, ".."), "artifacts"), "release1.sha256") }

  /** The known evidence locations, by name, in declaration order. */
  function Expected(out: Path): seq<(string, Path)>
  {
    [("SBOM", SbomPath(out)),
     ("Dependencies", DependenciesPath(out)),
     ("Licenses", LicensesPath(out)),
     ("Reproducibility Hash #1", HashPath(out)),
     ("Manifest", ManifestPath(out))]
  }

  /** The item recorded for one location that passed the filter. */
  function Classify(ctx: EvidenceContext, env: Environment, fs: FileSystem, name: string, fullPath: Path): (item: EvidenceItem)
    ensures item.name == name && item.relativePath == env.relativePath(ctx.outputDirectory, fullPath)
    ensures item.fileExists <==> fullPath in fs.files
    ensures item.fileExists ==> item.sizeBytes == |fs.files[fullPath]|
    ensures item.status == "missing" <==> !item.fileExists
    ensures item.status == "missing" ==> item.sizeBytes == 0
    ensures item.status == "empty" <==>
      item.fileExists && item.sizeBytes < ctx.minimumJsonBytes && EndsWithIgnoreCase(fullPath, ".json")
    ensures item.status == "ok" <==>
      item.fileExists && !(item.sizeBytes < ctx.minimumJsonBytes && EndsWithIgnoreCase(fullPath, ".json"))
  {
    var fileExists := FileExists(fs, fullPath);
    var size := if fileExists then SizeOrZero(fs, fullPath) else 0;
    var status :=
      if fileExists then (if size < ctx.minimumJsonBytes && EndsWithIgnoreCase(fullPath, ".json") then "empty" else "ok")
      else "missing";
    EvidenceItem(name, env.relativePath(ctx.outputDirectory, fullPath), fileExists, size, status)
  }

  /** The items of the entries whose full path starts, as text, with the output directory. */
  function Indexed(ctx: EvidenceContext, env: Environment, fs: FileSystem, entries: seq<(string, Path)>): seq<EvidenceItem>
  {
    if entries == [] then []
    else
      var before := Indexed(ctx, env, fs, entries[..|entries| - 1]);
      var (name, fullPath) := entries[|entries| - 1];
      if StartsWith(fullPath, ctx.outputDirectory) then before + [Classify(ctx, env, fs, name, fullPath)] else before
  }

  /** The classification loop, run over the known locations. */
  method IndexItems(ctx: EvidenceContext, env: Environment, fs: FileSystem, expected: seq<(string, Path)>)
    returns (items: seq<EvidenceItem>)
    ensures items == Indexed(ctx, env, fs, expected)
  {
    items := [];
    for k := 0 to |expected|
      invariant items == Indexed(ctx, env, fs, expected[..k])
    {
      assert expected[..k + 1][..k] == expected[..k];
      var (name, fullPath) := expected[k];
      if StartsWith(fullPath, ctx.outputDirectory) {
        items := items + [Classify(ctx, env, fs, name, fullPath)];
      }
    }
    assert expected[..|expected|] == expected;
  }

  /**
   * Every known location passes the prefix filter, the one built with ".." included: the test is
   * on the text of the path, which still starts with the output directory.
   */
  lemma AllExpectedIndexed(ctx: EvidenceContext, env: Environment, fs: FileSystem)
    ensures var expected := Expected(ctx.outputDirectory);
      var items := Indexed(ctx, env, fs, expected);
      |items| == 5 &&
      forall k :: 0 <= k < 5 ==> items[k] == Classify(ctx, env, fs, expected[k].0, expected[k].1)
  {
    ExpectedUnderOutput(ctx.outputDirectory);
    IndexedWhenAllPass(ctx, env, fs, Expected(ctx.outputDirectory));
  }

  /** The path of every known location starts with the output directory. */
  lemma ExpectedUnderOutput(out: Path)
    ensures forall k :: 0 <= k < |Expected(out)| ==> StartsWith(Expected(out)[k].1, out)
  {
    SbomPathUnderOutput(out);
    DependenciesPathUnderOutput(out);
    LicensesPathUnderOutput(out);
    HashPathUnderOutput(out);
    ManifestPathUnderOutput(out);
    EachOfFive(Expected(out), out);
  }

  lemma EachOfFive(entries: seq<(string, Path)>, out: Path)
    requires |entries| == 5
    requires StartsWith(entries[0].1, out) && StartsWith(entries[1].1, out) && StartsWith(entries[2].1, out)
    requires StartsWith(entries[3].1, out) && StartsWith(entries[4].1, out)
    ensures forall k :: 0 <= k < |entries| ==> StartsWith(entries[k].1, out)
  {
  }

  lemma SbomPathUnderOutput(out: Path)
    ensures StartsWith(SbomPath(out), out)
  {
    CombineTwoSegments(out, "sbom", "bom.json");
  }

  lemma DependenciesPathUnderOutput(out: Path)
    ensures StartsWith(DependenciesPath(out), out)
  {
    CombineTwoSegments(out, "dependencies", "dependencies.json");
  }

  lemma LicensesPathUnderOutput(out: Path)
    ensures StartsWith(LicensesPath(out), out)
  {
    CombineTwoSegments(out, "licenses", "packages.json");
  }

  lemma ManifestPathUnderOutput(out: Path)
    ensures StartsWith(ManifestPath(out), out)
  {
    CombineSegment(out, "evidence-manifest.json");
  }

  /** The ".." entry passes the textual prefix test. */
  lemma HashPathUnderOutput(out: Path)
    ensures StartsWith(HashPath(out), out)
  {
    var up := Combine(out, "..");
    CombineSegment(out, "..");
    CombineTwoSegments(up, "artifacts", "release1.sha256");
    PrefixTransitive(out, up, HashPath(out));
  }

  lemma PrefixTransitive(a: string, b: string, c: string)
    requires StartsWith(b, a) && StartsWith(c, b)
    ensures StartsWith(c, a)
  {
    assert c[..|a|] == b[..|a|];
  }

  /** When every entry passes the filter, there is one item per entry, in order. */
  lemma {:induction false} IndexedWhenAllPass(ctx: EvidenceContext, env: Environment, fs: FileSystem, entries: seq<(string, Path)>)
    requires forall k :: 0 <= k < |entries| ==> StartsWith(entries[k].1, ctx.outputDirectory)
    ensures var items := Indexed(ctx, env, fs, entries);
      |items| == |entries| &&
      forall k :: 0 <= k < |entries| ==> items[k] == Classify(ctx, env, fs, entries[k].0, entries[k].1)
  {
    if entries != [] {
      var init := entries[..|entries| - 1];
      IndexedWhenAllPass(ctx, env, fs, init);
      var last := entries[|entries| - 1];
      assert Indexed(ctx, env, fs, entries) == Indexed(ctx, env, fs, init) + [Classify(ctx, env, fs, last.0, last.1)];
    }
  }

  function IndexPath(ctx: EvidenceContext): Path
  {
    Combine(ctx.outputDirectory, "evidence-index.json")
  }

  function MarkdownPath(ctx: EvidenceContext): Path
  {
    Combine(ctx.outputDirectory, "EvidenceSummary.md")
  }

  function BuildIndex(ctx: EvidenceContext, env: Environment, fs: FileSystem): EvidenceIndex
  {
    EvidenceIndex(env.clock, ToolVersion(env), Indexed(ctx, env, fs, Expected(ctx.outputDirectory)))
  }

  // ---------------------------------------------------------------------------------------------
  // The Markdown summary

  function ExistsCell(fileExists: bool): string
  {
    if fileExists then "\U{2705}" else "\U{274C}"
  }

  function ItemRow(item: EvidenceItem): string
  {
    TableRow([Escape(item.name), "`" + Escape(item.relativePath) + "`", ExistsCell(item.fileExists),
              IntToString(item.sizeBytes), "`" + Escape(item.status) + "`"])
  }

  function Rows(items: seq<EvidenceItem>): (rows: seq<string>)
    ensures |rows| == |items|
  {
    if items == [] then [] else Rows(items[..|items| - 1]) + [ItemRow(items[|items| - 1])]
  }

  function SummaryHeader(index: EvidenceIndex): seq<string>
  {
    ["# Freya Evidence Pack Summary",
     "",
     "- GeneratedAt (UTC): `" + index.generatedAt + "`",
     "- ToolVersion: `" + index.toolVersion + "`",
     "",
     "## Evidence Items",
     "",
     "| Name | Path | Exists | Size (bytes) | Status |",
     "|---|---|---:|---:|---|"]
  }

  const Notes: seq<string> :=
    ["",
     "## Notes",
     "",
     "- `ok`: file exists and appears non-empty",
     "- `empty`: file exists but is too small (often `{}`)",
     "- `missing`: file not found in evidence output"]

  /** The lines of `EvidenceSummary.md`, one per AppendLine. */
  function SummaryLines(index: EvidenceIndex): seq<string>
  {
    SummaryHeader(index) + Rows(index.items) + Notes
  }

  /** The StringBuilder loop, its lines kept as a sequence. */
  method WriteSummaryMarkdown(index: EvidenceIndex) returns (lines: seq<string>)
    ensures lines == SummaryLines(index)
  {
    lines := [];
    lines := lines + ["# Freya Evidence Pack Summary"];
    lines := lines + [""];
    lines := lines + ["- GeneratedAt (UTC): `" + index.generatedAt + "`"];
    lines := lines + ["- ToolVersion: `" + index.toolVersion + "`"];
    lines := lines + [""];
    lines := lines + ["## Evidence Items"];
    lines := lines + [""];
    lines := lines + ["| Name | Path | Exists | Size (bytes) | Status |"];
    lines := lines + ["|---|---|---:|---:|---|"];
    assert lines == SummaryHeader(index);
    lines := AppendItemRows(lines, index.items);
    lines := AppendNotes(lines);
  }

  method AppendNotes(before: seq<string>) returns (lines: seq<string>)
    ensures lines == before + Notes
  {
    lines := before;
    lines := lines + [""];
    lines := lines + ["## Notes"];
    lines := lines + [""];
    lines := lines + ["- `ok`: file exists and appears non-empty"];
    lines := lines + ["- `empty`: file exists but is too small (often `{}`)"];
    lines := lines + ["- `missing`: file not found in evidence output"];
  }

  method AppendItemRows(before: seq<string>, items: seq<EvidenceItem>) returns (lines: seq<string>)
    ensures lines == before + Rows(items)
  {
    lines := before;
    for k := 0 to |items|
      invariant lines == before + Rows(items[..k])
    {
      assert items[..k + 1][..k] == items[..k];
      var item := items[k];
      lines := lines + [TableRow([Escape(item.name), "`" + Escape(item.relativePath) + "`", ExistsCell(item.fileExists),
                                  IntToString(item.sizeBytes), "`" + Escape(item.status) + "`"])];
    }
    assert items[..|items|] == items;
  }

  /** Row i of the table renders item i, in index order, between the fixed header and notes. */
  lemma {:induction false} RowsInOrder(items: seq<EvidenceItem>)
    ensures forall i :: 0 <= i < |items| ==> Rows(items)[i] == ItemRow(items[i])
  {
    if items != [] {
      RowsInOrder(items[..|items| - 1]);
    }
  }

  lemma SummaryShape(index: EvidenceIndex)
    ensures |SummaryLines(index)| == 15 + |index.items|
    ensures forall i :: 0 <= i < |index.items| ==> SummaryLines(index)[9 + i] == ItemRow(index.items[i])
  {
    RowsInOrder(index.items);
  }

  /** Every row has the five columns of the header, whatever the item's text holds. */
  lemma ItemRowColumns(item: EvidenceItem)
    ensures BarePipes(ItemRow(item)) == 6
  {
    var cells := [Escape(item.name), "`" + Escape(item.relativePath) + "`", ExistsCell(item.fileExists),
                  IntToString(item.sizeBytes), "`" + Escape(item.status) + "`"];
    EscapedCellIsSafe(item.name);
    EscapedCellIsSafe(item.relativePath);
    EscapedCellIsSafe(item.status);
    NoPipeIsSafe(ExistsCell(item.fileExists));
    NoPipeIsSafe(IntToString(item.sizeBytes));
    TableRowColumns(cells);
  }

  lemma {:induction false} NoPipeIsSafe(s: string)
    requires '|' !in s
    ensures SafeCell(s)
  {
    EscapeIdentity(s);
    EscapeHasNoBarePipe(s);
    EscapeNeverStartsWithPipe(s);
  }

  // ---------------------------------------------------------------------------------------------

  function Effect(ctx: EvidenceContext, env: Environment, fs: FileSystem): (r: Step)
    ensures r.outcome == Completed
    ensures fs.files.Keys <= r.fs.files.Keys && r.fs.dirs == fs.dirs
  {
    var index := BuildIndex(ctx, env, fs);
    var withJson := WriteFile(fs, IndexPath(ctx), env.serializeIndex(index));
    Step(Completed, WriteFile(withJson, MarkdownPath(ctx), env.encodeText(Lines(SummaryLines(index)))))
  }

  /** Only the two summary files change. */
  lemma SummaryKeepsOtherFiles(ctx: EvidenceContext, env: Environment, fs: FileSystem, p: Path)
    requires p != IndexPath(ctx) && p != MarkdownPath(ctx)
    ensures SameAt(fs, Effect(ctx, env, fs).fs, p)
  {
    var index := BuildIndex(ctx, env, fs);
    WritesElsewhere(fs, IndexPath(ctx), env.serializeIndex(index),
                    MarkdownPath(ctx), env.encodeText(Lines(SummaryLines(index))), p);
  }

  lemma WritesElsewhere(fs: FileSystem, a: Path, x: Bytes, b: Path, y: Bytes, p: Path)
    requires p != a && p != b
    ensures SameAt(fs, WriteFile(WriteFile(fs, a, x), b, y), p)
  {
  }

  method CollectAsync(ctx: EvidenceContext, env: Environment, fs: FileSystem) returns (outcome: Outcome, fs': FileSystem)
    ensures Step(outcome, fs') == Effect(ctx, env, fs)
    ensures outcome == Completed
    // both files render the same index, built from the filesystem as it was on entry
    ensures var index := BuildIndex(ctx, env, fs);
      fs'.files == fs.files[IndexPath(ctx) := env.serializeIndex(index)]
                           [MarkdownPath(ctx) := env.encodeText(Lines(SummaryLines(index)))]
    ensures fs'.dirs == fs.dirs
  {
    var items := IndexItems(ctx, env, fs, Expected(ctx.outputDirectory));
    var index := EvidenceIndex(env.clock, ToolVersion(env), items);
    fs' := WriteFile(fs, IndexPath(ctx), env.serializeIndex(index));
    var lines := WriteSummaryMarkdown(index);
    fs' := WriteFile(fs', MarkdownPath(ctx), env.encodeText(Lines(lines)));
    outcome := Completed;
  }
}
