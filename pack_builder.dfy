/**
 * The evidence pack builder: creates the output directory, runs its collectors once each in
 * order, stops at the first one that throws, and only when all have returned writes the
 * manifest naming them.
 */
module PackBuilder {
  import opened Wrappers
  import opened Text
  import opened FileSystem
  import opened Exceptions
  import opened Evidence
  import opened Collectors
  import SbomCollector
  import DependencyCollector
  import SummaryCollector

  /** Where a run of the collector list stands: how it ended, the filesystem, the names recorded. */
  datatype Run = Run(outcome: Outcome, fs: FileSystem, executed: seq<string>)

  function Names(kinds: seq<CollectorKind>): (names: seq<string>)
    ensures |names| == |kinds|
    ensures forall i :: 0 <= i < |kinds| ==> names[i] == Name(kinds[i])
  {
    if kinds == [] then [] else Names(kinds[..|kinds| - 1]) + [Name(kinds[|kinds| - 1])]
  }

  /** What running one collector does: its outcome and the filesystem it leaves. */
  type StepFunction = (CollectorKind, FileSystem) -> Step

  /** The collectors' `CollectAsync` for one context and environment. */
  function Pipeline(ctx: EvidenceContext, env: Environment): StepFunction
  {
    (k: CollectorKind, fs: FileSystem) => Collect(k, ctx, env, fs)
  }

  /** The collector loop: each collector runs on the filesystem the previous one left. */
  function RunAll(kinds: seq<CollectorKind>, collect: StepFunction, fs: FileSystem): (r: Run)
    // on success the names recorded are those of all the collectors, in order
    ensures r.outcome.Completed? ==> r.executed == Names(kinds)
    ensures r.outcome.Threw? ==> |r.executed| < |kinds|
    decreases |kinds|
  {
    if kinds == [] then Run(Completed, fs, [])
    else
      var init := kinds[..|kinds| - 1];
      var before := RunAll(init, collect, fs);
      if before.outcome.Threw? then before
      else
        var k := kinds[|kinds| - 1];
        var step := collect(k, before.fs);
        if step.outcome.Threw? then Run(step.outcome, step.fs, before.executed)
        else Run(Completed, step.fs, before.executed + [Name(k)])
  }

  class EvidencePackBuilder {
    const collectors: seq<CollectorKind>

    /** The list is copied: the builder keeps the collectors it was given. */
    constructor(collectors: seq<CollectorKind>)
      ensures this.collectors == collectors
    {
      this.collectors := collectors;
    }

    method BuildAsync(ctx: EvidenceContext, env: Environment, fs: FileSystem)
      returns (result: Result<EvidenceManifest, Exception>, fs': FileSystem)
      // `Directory.CreateDirectory("")` throws before any collector runs
      ensures ctx.outputDirectory == [] ==> result == Failure(EmptyPath("path")) && fs' == fs
      ensures ctx.outputDirectory != [] ==>
        var run := RunAll(collectors, Pipeline(ctx, env), CreateDirectory(fs, ctx.outputDirectory));
        (run.outcome.Threw? ==> result == Failure(run.outcome.error) && fs' == run.fs) &&
        (run.outcome.Completed? ==>
          result == Success(EvidenceManifest(ctx.generatedAt, ToolVersion(env), Names(collectors))) &&
          fs' == WriteFile(run.fs, ManifestPath(ctx.outputDirectory), env.serializeManifest(result.value)))
      // the output directory exists whatever happens afterwards
      ensures ctx.outputDirectory != [] ==> ctx.outputDirectory in fs'.dirs
    {
      if ctx.outputDirectory == [] {
        return Failure(EmptyPath("path")), fs;
      }
      var start := CreateDirectory(fs, ctx.outputDirectory);
      fs' := start;
      var executed: seq<string> := [];
      var i := 0;
      while i < |collectors|
        invariant 0 <= i <= |collectors|
        invariant RunAll(collectors[..i], Pipeline(ctx, env), start) == Run(Completed, fs', executed)
      {
        var k := collectors[i];
        assert collectors[..i + 1][..i] == collectors[..i];
        var outcome;
        outcome, fs' := RunCollector(k, ctx, env, fs');
        if outcome.Threw? {
          RunAllStopsAtFailure(collectors, Pipeline(ctx, env), start, i + 1);
          RunGrows(collectors, ctx, env, start);
          return Failure(outcome.error), fs';
        }
        executed := executed + [Name(k)];
        i := i + 1;
      }
      assert collectors[..i] == collectors;
      RunGrows(collectors, ctx, env, start);
      var manifest := EvidenceManifest(ctx.generatedAt, ToolVersion(env), executed);
      fs' := WriteFile(fs', ManifestPath(ctx.outputDirectory), env.serializeManifest(manifest));
      result := Success(manifest);
    }
  }

  /** Once a collector has thrown, the later ones never run. */
  lemma {:induction false} RunAllStopsAtFailure(kinds: seq<CollectorKind>, collect: StepFunction, fs: FileSystem, k: nat)
    requires k <= |kinds|
    requires RunAll(kinds[..k], collect, fs).outcome.Threw?
    ensures RunAll(kinds, collect, fs) == RunAll(kinds[..k], collect, fs)
    decreases |kinds| - k
  {
    if k < |kinds| {
      var init := kinds[..|kinds| - 1];
      assert init[..k] == kinds[..k];
      RunAllStopsAtFailure(init, collect, fs, k);
    } else {
      assert kinds[..k] == kinds;
    }
  }

  /**
   * A failed run is the run of the collectors before the failing one, followed by the failing
   * one: its exception and its filesystem are the run's, and nothing ran after it.
   */
  lemma {:induction false} FailingCollector(kinds: seq<CollectorKind>, collect: StepFunction, fs: FileSystem)
    returns (k: nat)
    requires RunAll(kinds, collect, fs).outcome.Threw?
    ensures k < |kinds|
    ensures var before := RunAll(kinds[..k], collect, fs);
      var r := RunAll(kinds, collect, fs);
      before.outcome == Completed && r.executed == before.executed &&
      collect(kinds[k], before.fs) == Step(r.outcome, r.fs)
    decreases |kinds|
  {
    var init := kinds[..|kinds| - 1];
    var before := RunAll(init, collect, fs);
    if before.outcome.Threw? {
      assert RunAll(kinds, collect, fs) == before;
      k := FailingCollector(init, collect, fs);
      assert init[..k] == kinds[..k];
      assert kinds[k] == init[k];
    } else {
      k := |kinds| - 1;
      var step := collect(kinds[k], before.fs);
      assert RunAll(kinds, collect, fs) == Run(step.outcome, step.fs, before.executed);
      assert kinds[..k] == init;
    }
  }

  /** A run keeps every path that no single collector step changes. */
  lemma {:induction false} RunKeepsPath(kinds: seq<CollectorKind>, collect: StepFunction, fs: FileSystem, p: Path)
    requires forall k: CollectorKind, f: FileSystem :: SameAt(f, collect(k, f).fs, p)
    ensures SameAt(fs, RunAll(kinds, collect, fs).fs, p)
    decreases |kinds|
  {
    if kinds != [] {
      RunKeepsPath(kinds[..|kinds| - 1], collect, fs, p);
    }
  }

  /** A run completes when every step from a filesystem holding the given files completes and keeps them. */
  lemma {:induction false} RunCompletes(kinds: seq<CollectorKind>, collect: StepFunction, fs: FileSystem, needed: set<Path>)
    requires needed <= fs.files.Keys
    requires forall k: CollectorKind, f: FileSystem :: needed <= f.files.Keys ==>
      collect(k, f).outcome == Completed && needed <= collect(k, f).fs.files.Keys
    ensures RunAll(kinds, collect, fs).outcome == Completed
    ensures needed <= RunAll(kinds, collect, fs).fs.files.Keys
    decreases |kinds|
  {
    if kinds != [] {
      RunCompletes(kinds[..|kinds| - 1], collect, fs, needed);
    }
  }

  /** Runs of the real collectors never remove a file or a directory. */
  lemma {:induction false} RunGrows(kinds: seq<CollectorKind>, ctx: EvidenceContext, env: Environment, fs: FileSystem)
    ensures var r := RunAll(kinds, Pipeline(ctx, env), fs);
      fs.files.Keys <= r.fs.files.Keys && fs.dirs <= r.fs.dirs
    decreases |kinds|
  {
    if kinds != [] {
      var init := kinds[..|kinds| - 1];
      RunGrows(init, ctx, env, fs);
      var before := RunAll(init, Pipeline(ctx, env), fs);
      assert Pipeline(ctx, env)(kinds[|kinds| - 1], before.fs) == Collect(kinds[|kinds| - 1], ctx, env, before.fs);
    }
  }

  /** In lenient mode the run completes, provided the enumerated test results exist and no copy is in place. */
  lemma LenientRunCompletes(kinds: seq<CollectorKind>, ctx: EvidenceContext, env: Environment, fs: FileSystem)
    requires !ctx.failOnMissingRequiredEvidence
    requires forall i :: 0 <= i < |env.testResultFiles| ==> env.testResultFiles[i] in fs.files
    requires NoCopyInPlace(ctx, env)
    ensures RunAll(kinds, Pipeline(ctx, env), fs).outcome == Completed
  {
    var needed := set i | 0 <= i < |env.testResultFiles| :: env.testResultFiles[i];
    forall k: CollectorKind, f: FileSystem | needed <= f.files.Keys
      ensures Pipeline(ctx, env)(k, f).outcome == Completed && needed <= Pipeline(ctx, env)(k, f).fs.files.Keys
    {
      LenientCollectCompletes(k, ctx, env, f);
    }
    RunCompletes(kinds, Pipeline(ctx, env), fs, needed);
  }

  /** No collector writes `<out>/evidence-manifest.json`: a run leaves it as it found it. */
  lemma RunKeepsManifest(kinds: seq<CollectorKind>, ctx: EvidenceContext, env: Environment, fs: FileSystem)
    ensures SameAt(fs, RunAll(kinds, Pipeline(ctx, env), fs).fs, ManifestPath(ctx.outputDirectory))
  {
    forall k: CollectorKind, f: FileSystem
      ensures SameAt(f, Pipeline(ctx, env)(k, f).fs, ManifestPath(ctx.outputDirectory))
    {
      CollectKeepsManifest(k, ctx, env, f);
    }
    RunKeepsPath(kinds, Pipeline(ctx, env), fs, ManifestPath(ctx.outputDirectory));
  }

  /**
   * The manifest is written after the loop, so a summary collector in the list, running on a
   * fresh output directory, records the manifest as missing.
   */
  lemma SummarySeesNoManifest(kinds: seq<CollectorKind>, ctx: EvidenceContext, env: Environment, fs: FileSystem, i: nat)
    requires i < |kinds| && kinds[i] == Summary
    requires ManifestPath(ctx.outputDirectory) !in fs.files
    ensures var index := SummaryCollector.BuildIndex(ctx, env, RunAll(kinds[..i], Pipeline(ctx, env), fs).fs);
      |index.items| == 5 && index.items[4].name == "Manifest" &&
      index.items[4].status == "missing" && !index.items[4].fileExists && index.items[4].sizeBytes == 0
  {
    var before := RunAll(kinds[..i], Pipeline(ctx, env), fs);
    RunKeepsManifest(kinds[..i], ctx, env, fs);
    SummaryCollector.AllExpectedIndexed(ctx, env, before.fs);
  }

  // ---------------------------------------------------------------------------------------------
  // The command-line tool's pipeline

  /** The collectors the command-line tool runs, the summary last. */
  const CliCollectors: seq<CollectorKind> := [Sbom, Dependency, License, Summary]

  /** The dependency snapshot's source is never the SBOM's destination: their names differ. */
  lemma SbomCopyIsNotDependencySource(ctx: EvidenceContext)
    ensures SbomCollector.Destination(ctx) != DependencyCollector.Source(ctx)
  {
    CombinedFilesDiffer(ctx.outputDirectory, "sbom", "bom.json",
                        ctx.artifactsDirectory, "dependencies", "dependencies.json", 6);
  }

  /** A run of four collectors whose second one throws stops there, with the first one recorded. */
  lemma SecondOfFourThrows(kinds: seq<CollectorKind>, collect: StepFunction, fs: FileSystem)
    requires |kinds| == 4
    requires collect(kinds[0], fs).outcome == Completed
    requires collect(kinds[1], collect(kinds[0], fs).fs).outcome.Threw?
    ensures var second := collect(kinds[1], collect(kinds[0], fs).fs);
      RunAll(kinds, collect, fs) == Run(second.outcome, second.fs, [Name(kinds[0])])
  {
    var first := collect(kinds[0], fs);
    var second := collect(kinds[1], first.fs);
    assert kinds[..1][..0] == [];
    assert RunAll(kinds[..1], collect, fs) == Run(Completed, first.fs, [Name(kinds[0])]);
    assert kinds[..2][..1] == kinds[..1];
    assert RunAll(kinds[..2], collect, fs) == Run(second.outcome, second.fs, [Name(kinds[0])]);
    RunAllStopsAtFailure(kinds, collect, fs, 2);
  }

  /**
   * In strict mode with a valid SBOM that is copied elsewhere (not onto itself) and no
   * dependency snapshot, the command-line pipeline
   * throws the dependency collector's exception, with only the SBOM collector recorded and the
   * SBOM copy the only change: the licence and summary collectors never run.
   */
  lemma StrictCliStopsAtMissingDependencies(ctx: EvidenceContext, env: Environment, fs: FileSystem)
    requires ctx.failOnMissingRequiredEvidence
    requires SbomCollector.Source(ctx) in fs.files
    requires |fs.files[SbomCollector.Source(ctx)]| >= ctx.minimumJsonBytes
    requires SbomCollector.Source(ctx) != SbomCollector.Destination(ctx)
    requires DependencyCollector.Source(ctx) !in fs.files
    ensures RunAll(CliCollectors, Pipeline(ctx, env), fs) ==
      Run(Threw(FileNotFound(DependencyCollector.MissingMessage, Some(DependencyCollector.Source(ctx)))),
          SbomCollector.Effect(ctx, fs).fs, [SbomCollector.Name])
  {
    var afterSbom := SbomCollector.Effect(ctx, fs);
    SbomCopyIsNotDependencySource(ctx);
    assert DependencyCollector.Source(ctx) !in afterSbom.fs.files;
    SecondOfFourThrows(CliCollectors, Pipeline(ctx, env), fs);
  }
}
