/**
 * Copies the TRX test results found under `test-results` (at any depth) into the flat `tests`
 * directory of the evidence pack.
 */
module TestResultsCollector {
  import opened FileSystem
  import opened Exceptions
  import opened Evidence
  import opened FlatCopy

  const Name: string := "TestResults Collector"
  const NoTrxMessage: string := "Required test results are missing (.trx not found)."

  function SourceDirectory(ctx: EvidenceContext): Path
  {
    Combine(ctx.artifactsDirectory, "test-results")
  }

  function DestinationDirectory(ctx: EvidenceContext): Path
  {
    Combine(ctx.outputDirectory, "tests")
  }

  function Effect(ctx: EvidenceContext, fs: FileSystem, trxFiles: seq<Path>): (r: Step)
    ensures fs.files.Keys <= r.fs.files.Keys && fs.dirs <= r.fs.dirs
  {
    if !DirectoryExists(fs, SourceDirectory(ctx)) then
      Step(if ctx.failOnMissingRequiredEvidence
           then Threw(DirectoryNotFound("Required test results directory not found: " + SourceDirectory(ctx)))
           else Completed, fs)
    else if trxFiles == [] then
      Step(if ctx.failOnMissingRequiredEvidence then Threw(InvalidOperation(NoTrxMessage)) else Completed, fs)
    else
      CopyEach(CreateDirectory(fs, DestinationDirectory(ctx)), trxFiles, TargetIn(DestinationDirectory(ctx)))
  }

  /** `trxFiles` is what the recursive enumeration of the source directory returns. */
  method CollectAsync(ctx: EvidenceContext, fs: FileSystem, trxFiles: seq<Path>) returns (outcome: Outcome, fs': FileSystem)
    ensures Step(outcome, fs') == Effect(ctx, fs, trxFiles)
    // with nothing to copy, nothing changes, and only strict mode fails
    ensures !DirectoryExists(fs, SourceDirectory(ctx)) || trxFiles == [] ==>
      fs' == fs && (outcome.Threw? <==> ctx.failOnMissingRequiredEvidence)
    // with files to copy, the destination directory is created and the mode plays no part
    ensures DirectoryExists(fs, SourceDirectory(ctx)) && trxFiles != [] ==>
      DestinationDirectory(ctx) in fs'.dirs &&
      (outcome.Threw? ==> exists i :: 0 <= i < |trxFiles| && CopyFailure(trxFiles[i], outcome.error)) &&
      // when every file is there, the copies fail only for a file that would be copied onto itself
      ((forall i :: 0 <= i < |trxFiles| ==> trxFiles[i] in fs.files) ==>
        (outcome.Completed? <==>
          forall i :: 0 <= i < |trxFiles| ==> Target(DestinationDirectory(ctx), trxFiles[i]) != trxFiles[i]))
  {
    var sourceDir := SourceDirectory(ctx);
    if !DirectoryExists(fs, sourceDir) {
      if ctx.failOnMissingRequiredEvidence {
        return Threw(DirectoryNotFound("Required test results directory not found: " + sourceDir)), fs;
      }
      return Completed, fs;
    }
    if |trxFiles| == 0 {
      if ctx.failOnMissingRequiredEvidence {
        return Threw(InvalidOperation(NoTrxMessage)), fs;
      }
      return Completed, fs;
    }
    var destinationDir := DestinationDirectory(ctx);
    var created := CreateDirectory(fs, destinationDir);
    outcome, fs' := CopyFiles(created, trxFiles, destinationDir);
    ThrowsOnlyForASource(created, trxFiles, TargetIn(destinationDir));
    if forall i :: 0 <= i < |trxFiles| ==> trxFiles[i] in fs.files {
      CopyEachCompletes(created, trxFiles, TargetIn(destinationDir));
    }
  }

  /** The two ways copying `source` can fail: it is gone, or it is open while being re-created. */
  predicate CopyFailure(source: Path, error: Exception)
  {
    error == NotFound(source) || error == FileInUse(source)
  }

  /** A failing copy loop fails with one of the two exceptions of one of its sources. */
  lemma {:induction false} ThrowsOnlyForASource(fs: FileSystem, sources: seq<Path>, target: Path -> Path)
    ensures var r := CopyEach(fs, sources, target);
      r.outcome.Threw? ==> exists i :: 0 <= i < |sources| && CopyFailure(sources[i], r.outcome.error)
    decreases |sources|
  {
    if sources != [] {
      var init := sources[..|sources| - 1];
      ThrowsOnlyForASource(fs, init, target);
      var r := CopyEach(fs, init, target);
      if r.outcome.Threw? {
        var i :| 0 <= i < |init| && CopyFailure(init[i], r.outcome.error);
        assert sources[i] == init[i];
      } else {
        assert sources[|sources| - 1] == sources[|sources| - 1];
      }
    }
  }

  /**
   * Two result files with the same name in different folders: the pack keeps one copy, holding
   * the bytes of the one enumerated last, and every other file name is copied as it is.
   */
  lemma Flattened(ctx: EvidenceContext, fs: FileSystem, trxFiles: seq<Path>, i: nat)
    requires DirectoryExists(fs, SourceDirectory(ctx)) && trxFiles != []
    requires forall k :: 0 <= k < |trxFiles| ==> trxFiles[k] in fs.files
    requires SourcesAreNotTargets(trxFiles, TargetIn(DestinationDirectory(ctx)))
    requires i < |trxFiles| && LastWithItsName(trxFiles, TargetIn(DestinationDirectory(ctx)), i)
    ensures var r := Effect(ctx, fs, trxFiles);
      r.outcome == Completed &&
      Target(DestinationDirectory(ctx), trxFiles[i]) in r.fs.files &&
      r.fs.files[Target(DestinationDirectory(ctx), trxFiles[i])] == fs.files[trxFiles[i]]
  {
    var created := CreateDirectory(fs, DestinationDirectory(ctx));
    CopyEachCompletes(created, trxFiles, TargetIn(DestinationDirectory(ctx)));
    CopyEachLastWins(created, trxFiles, TargetIn(DestinationDirectory(ctx)), i);
  }
}
