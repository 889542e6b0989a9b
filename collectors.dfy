/**
 * The collectors as a closed set of kinds: each kind's name and the effect of its `CollectAsync`,
 * and the facts about all of them that the builder's lemmas need.
 */
module Collectors {
  import opened Wrappers
  import opened Text
  import opened FileSystem
  import opened Evidence
  import opened FlatCopy
  import SbomCollector
  import DependencyCollector
  import LicenseCollector
  import TestResultsCollector
  import ReproducibilityCollector
  import ProvenanceCollector
  import SummaryCollector

  datatype CollectorKind = Sbom | Dependency | License | TestResults | Reproducibility | Provenance | Summary

  function Name(k: CollectorKind): string
  {
    match k
    case Sbom => SbomCollector.Name
    case Dependency => DependencyCollector.Name
    case License => LicenseCollector.Name
    case TestResults => TestResultsCollector.Name
    case Reproducibility => ReproducibilityCollector.Name
    case Provenance => ProvenanceCollector.Name
    case Summary => SummaryCollector.Name
  }

  function Collect(k: CollectorKind, ctx: EvidenceContext, env: Environment, fs: FileSystem): (r: Step)
    ensures fs.files.Keys <= r.fs.files.Keys && fs.dirs <= r.fs.dirs
  {
    match k
    case Sbom => SbomCollector.Effect(ctx, fs)
    case Dependency => DependencyCollector.Effect(ctx, fs)
    case License => LicenseCollector.Effect(ctx, fs)
    case TestResults => TestResultsCollector.Effect(ctx, fs, env.testResultFiles)
    case Reproducibility => ReproducibilityCollector.Effect(ctx, fs)
    case Provenance => ProvenanceCollector.Effect(ctx, env, fs)
    case Summary => SummaryCollector.Effect(ctx, env, fs)
  }

  /** `collector.CollectAsync(context, ..)`, dispatched on the kind. */
  method RunCollector(k: CollectorKind, ctx: EvidenceContext, env: Environment, fs: FileSystem)
    returns (outcome: Outcome, fs': FileSystem)
    ensures Step(outcome, fs') == Collect(k, ctx, env, fs)
  {
    match k
    case Sbom => outcome, fs' := SbomCollector.CollectAsync(ctx, fs);
    case Dependency => outcome, fs' := DependencyCollector.CollectAsync(ctx, fs);
    case License => outcome, fs' := LicenseCollector.CollectAsync(ctx, fs);
    case TestResults => outcome, fs' := TestResultsCollector.CollectAsync(ctx, fs, env.testResultFiles);
    case Reproducibility => outcome, fs' := ReproducibilityCollector.CollectAsync(ctx, fs);
    case Provenance => outcome, fs' := ProvenanceCollector.CollectAsync(ctx, env, fs);
    case Summary => outcome, fs' := SummaryCollector.CollectAsync(ctx, env, fs);
  }

  /**
   * No collector would copy a file onto itself: the artifacts and output directories are laid out
   * so that every source differs from its destination.
   */
  predicate NoCopyInPlace(ctx: EvidenceContext, env: Environment)
  {
    && SbomCollector.Source(ctx) != SbomCollector.Destination(ctx)
    && DependencyCollector.Source(ctx) != DependencyCollector.Destination(ctx)
    && LicenseCollector.Source(ctx) != LicenseCollector.Destination(ctx)
    && (forall i :: 0 <= i < |env.testResultFiles| ==>
          Target(TestResultsCollector.DestinationDirectory(ctx), env.testResultFiles[i]) != env.testResultFiles[i])
    && (forall p :: p in ReproducibilityCollector.Candidates(ctx) ==>
          Target(ReproducibilityCollector.DestinationDirectory(ctx), p) != p)
  }

  /**
   * In lenient mode no collector throws, as long as the enumerated test results are there and no
   * copy is in place.
   */
  lemma LenientCollectCompletes(k: CollectorKind, ctx: EvidenceContext, env: Environment, fs: FileSystem)
    requires !ctx.failOnMissingRequiredEvidence
    requires forall i :: 0 <= i < |env.testResultFiles| ==> env.testResultFiles[i] in fs.files
    requires NoCopyInPlace(ctx, env)
    ensures Collect(k, ctx, env, fs).outcome == Completed
  {
    match k
    case TestResults =>
      var dir := TestResultsCollector.DestinationDirectory(ctx);
      CopyEachCompletes(CreateDirectory(fs, dir), env.testResultFiles, TargetIn(dir));
    case Reproducibility =>
      var dir := ReproducibilityCollector.DestinationDirectory(ctx);
      var existing := ReproducibilityCollector.Existing(fs, ReproducibilityCollector.Candidates(ctx));
      assert forall i :: 0 <= i < |existing| ==> existing[i] in existing;
      CopyEachCompletes(CreateDirectory(fs, dir), existing, TargetIn(dir));
    case _ =>
  }

  // ---------------------------------------------------------------------------------------------
  // The manifest's path is written by no collector

  /** A file in a sub-folder whose name does not start with 'e' is not the manifest. */
  lemma InFolderIsNotManifest(out: Path, folder: Path, name: Path)
    requires Folder(folder) && folder[0] != 'e'
    requires name == [] || name[0] != '/'
    ensures Combine(Combine(out, folder), name) != ManifestPath(out)
  {
    CombineSegment(out, folder);
    CombineSegment(out, "evidence-manifest.json");
    var prefix := DirPrefix(out);
    if name == [] {
      DistinctAfterPrefix(prefix, folder, "evidence-manifest.json", 0);
    } else {
      CombineTwoSegments(out, folder, name);
      assert Combine(Combine(out, folder), name) == prefix + (folder + "/" + name);
      DistinctAfterPrefix(prefix, folder + "/" + name, "evidence-manifest.json", 0);
    }
  }

  lemma SummaryFilesAreNotManifest(ctx: EvidenceContext)
    ensures SummaryCollector.IndexPath(ctx) != ManifestPath(ctx.outputDirectory)
    ensures SummaryCollector.MarkdownPath(ctx) != ManifestPath(ctx.outputDirectory)
  {
    var prefix := DirPrefix(ctx.outputDirectory);
    CombineSegment(ctx.outputDirectory, "evidence-manifest.json");
    CombineSegment(ctx.outputDirectory, "evidence-index.json");
    CombineSegment(ctx.outputDirectory, "EvidenceSummary.md");
    DistinctAfterPrefix(prefix, "evidence-index.json", "evidence-manifest.json", 9);
    DistinctAfterPrefix(prefix, "EvidenceSummary.md", "evidence-manifest.json", 0);
  }

  /** Copies into a sub-folder leave the manifest's path alone. */
  lemma CopyIntoFolderKeepsManifest(fs: FileSystem, sources: seq<Path>, out: Path, folder: Path)
    requires Folder(folder) && folder[0] != 'e'
    ensures SameAt(fs, CopyEach(fs, sources, TargetIn(Combine(out, folder))).fs, ManifestPath(out))
  {
    forall i | 0 <= i < |sources|
      ensures Target(Combine(out, folder), sources[i]) != ManifestPath(out)
    {
      var name := FileName(sources[i]);
      assert name == [] || name[0] in name;
      InFolderIsNotManifest(out, folder, name);
    }
    CopyEachFrame(fs, sources, TargetIn(Combine(out, folder)), ManifestPath(out));
  }

  lemma TestResultsKeepManifest(ctx: EvidenceContext, env: Environment, fs: FileSystem)
    ensures SameAt(fs, Collect(TestResults, ctx, env, fs).fs, ManifestPath(ctx.outputDirectory))
  {
    var out := ctx.outputDirectory;
    CopyIntoFolderKeepsManifest(CreateDirectory(fs, Combine(out, "tests")), env.testResultFiles, out, "tests");
  }

  lemma ReproducibilityKeepsManifest(ctx: EvidenceContext, env: Environment, fs: FileSystem)
    ensures SameAt(fs, Collect(Reproducibility, ctx, env, fs).fs, ManifestPath(ctx.outputDirectory))
  {
    var out := ctx.outputDirectory;
    var existing := ReproducibilityCollector.Existing(fs, ReproducibilityCollector.Candidates(ctx));
    CopyIntoFolderKeepsManifest(CreateDirectory(fs, Combine(out, "reproducibility")), existing, out, "reproducibility");
  }

  /** Whatever the collector and the filesystem, `<out>/evidence-manifest.json` keeps its state. */
  lemma CollectKeepsManifest(k: CollectorKind, ctx: EvidenceContext, env: Environment, fs: FileSystem)
    ensures SameAt(fs, Collect(k, ctx, env, fs).fs, ManifestPath(ctx.outputDirectory))
  {
    var out := ctx.outputDirectory;
    match k
    case Sbom => SbomKeepsManifest(ctx, fs);
    case Dependency => DependencyKeepsManifest(ctx, fs);
    case License => LicenseKeepsManifest(ctx, fs);
    case TestResults => TestResultsKeepManifest(ctx, env, fs);
    case Reproducibility => ReproducibilityKeepsManifest(ctx, env, fs);
    case Provenance => ProvenanceKeepsManifest(ctx, env, fs);
    case Summary =>
      SummaryFilesAreNotManifest(ctx);
      SummaryCollector.SummaryKeepsOtherFiles(ctx, env, fs, ManifestPath(out));
  }

  lemma SbomKeepsManifest(ctx: EvidenceContext, fs: FileSystem)
    ensures SameAt(fs, SbomCollector.Effect(ctx, fs).fs, ManifestPath(ctx.outputDirectory))
  {
    InFolderIsNotManifest(ctx.outputDirectory, "sbom", "bom.json");
  }

  lemma DependencyKeepsManifest(ctx: EvidenceContext, fs: FileSystem)
    ensures SameAt(fs, DependencyCollector.Effect(ctx, fs).fs, ManifestPath(ctx.outputDirectory))
  {
    InFolderIsNotManifest(ctx.outputDirectory, "dependencies", "dependencies.json");
  }

  lemma LicenseKeepsManifest(ctx: EvidenceContext, fs: FileSystem)
    ensures SameAt(fs, LicenseCollector.Effect(ctx, fs).fs, ManifestPath(ctx.outputDirectory))
  {
    InFolderIsNotManifest(ctx.outputDirectory, "licenses", "packages.json");
  }

  lemma ProvenanceKeepsManifest(ctx: EvidenceContext, env: Environment, fs: FileSystem)
    ensures SameAt(fs, ProvenanceCollector.Effect(ctx, env, fs).fs, ManifestPath(ctx.outputDirectory))
  {
    InFolderIsNotManifest(ctx.outputDirectory, "provenance", "provenance.json");
  }
}
