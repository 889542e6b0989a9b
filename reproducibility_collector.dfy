/** Copies the release hash snapshots `release1.sha256` and `release2.sha256` that exist. */
module ReproducibilityCollector {
  import opened Wrappers
  import opened FileSystem
  import opened Exceptions
  import opened Evidence
  import opened FlatCopy

  const Name: string := "Reproducibility Collector"
  const NotFoundMessage: string := "Required reproducibility evidence not found (release1.sha256/release2.sha256)."

  function Candidates(ctx: EvidenceContext): seq<Path>
  {
    [Combine(ctx.artifactsDirectory, "release1.sha256"), Combine(ctx.artifactsDirectory, "release2.sha256")]
  }

  /** `Where(File.Exists)`: the paths that exist, in their order. */
  function Existing(fs: FileSystem, paths: seq<Path>): (r: seq<Path>)
    ensures forall p :: p in r <==> p in paths && p in fs.files
    ensures |r| <= |paths|
  {
    if paths == [] then []
    else
      var init := Existing(fs, paths[..|paths| - 1]);
      var last := paths[|paths| - 1];
      assert paths == paths[..|paths| - 1] + [last];
      if last in fs.files then init + [last] else init
  }

  function DestinationDirectory(ctx: EvidenceContext): Path
  {
    Combine(ctx.outputDirectory, "reproducibility")
  }

  function Effect(ctx: EvidenceContext, fs: FileSystem): (r: Step)
    ensures fs.files.Keys <= r.fs.files.Keys && fs.dirs <= r.fs.dirs
  {
    var existing := Existing(fs, Candidates(ctx));
    if existing == [] then
      Step(if ctx.failOnMissingRequiredEvidence then Threw(FileNotFound(NotFoundMessage, None)) else Completed, fs)
    else
      CopyEach(CreateDirectory(fs, DestinationDirectory(ctx)), existing, TargetIn(DestinationDirectory(ctx)))
  }

  method CollectAsync(ctx: EvidenceContext, fs: FileSystem) returns (outcome: Outcome, fs': FileSystem)
    ensures Step(outcome, fs') == Effect(ctx, fs)
    // fails in strict mode when neither snapshot exists, and in either mode when an existing
    // snapshot would be copied onto itself (the artifacts directory is `<out>/reproducibility`)
    ensures outcome.Threw? <==>
      (ctx.failOnMissingRequiredEvidence && forall p :: p in Candidates(ctx) ==> p !in fs.files)
      || (exists p :: p in Candidates(ctx) && p in fs.files && Target(DestinationDirectory(ctx), p) == p)
    // with no snapshot nothing changes, and the only failure is the strict one
    ensures (forall p :: p in Candidates(ctx) ==> p !in fs.files) ==>
      fs' == fs && (outcome.Threw? ==> outcome.error == FileNotFound(NotFoundMessage, None))
    // with a snapshot the destination directory is created, and a failure is a sharing violation
    ensures (exists p :: p in Candidates(ctx) && p in fs.files) ==>
      DestinationDirectory(ctx) in fs'.dirs &&
      (outcome.Threw? ==> exists p :: p in Candidates(ctx) && p in fs.files && outcome == Threw(FileInUse(p)))
  {
    var existing := Existing(fs, Candidates(ctx));
    if |existing| == 0 {
      if ctx.failOnMissingRequiredEvidence {
        return Threw(FileNotFound(NotFoundMessage, None)), fs;
      }
      return Completed, fs;
    }
    var destinationDir := DestinationDirectory(ctx);
    var created := CreateDirectory(fs, destinationDir);
    outcome, fs' := CopyFiles(created, existing, destinationDir);
    assert existing[0] in Candidates(ctx);
    CopyEachCompletes(created, existing, TargetIn(destinationDir));
    assert forall i :: 0 <= i < |existing| ==> existing[i] in existing;
  }

  /**
   * Each snapshot that exists arrives under its own name in the `reproducibility` directory,
   * provided the copies do not overwrite the snapshots themselves.
   */
  lemma SnapshotCopied(ctx: EvidenceContext, fs: FileSystem, n: nat)
    requires n < 2 && Candidates(ctx)[n] in fs.files
    requires SourcesAreNotTargets(Candidates(ctx), TargetIn(DestinationDirectory(ctx)))
    ensures var name := if n == 0 then "release1.sha256" else "release2.sha256";
      var r := Effect(ctx, fs);
      r.outcome == Completed &&
      Combine(DestinationDirectory(ctx), name) in r.fs.files &&
      r.fs.files[Combine(DestinationDirectory(ctx), name)] == fs.files[Candidates(ctx)[n]]
  {
    var dir := DestinationDirectory(ctx);
    var candidates := Candidates(ctx);
    SnapshotTargets(ctx);
    SnapshotNamesDiffer(dir);
    PairCopied(fs, candidates[0], candidates[1], dir, TargetIn(dir), n);
  }

  /** Copying the existing ones of two sources with distinct targets places each that exists. */
  lemma PairCopied(fs: FileSystem, a: Path, b: Path, dir: Path, target: Path -> Path, n: nat)
    requires n < 2 && [a, b][n] in fs.files
    requires SourcesAreNotTargets([a, b], target) && target(a) != target(b)
    ensures var r := CopyEach(CreateDirectory(fs, dir), Existing(fs, [a, b]), target);
      Existing(fs, [a, b]) != [] && r.outcome == Completed &&
      target([a, b][n]) in r.fs.files && r.fs.files[target([a, b][n])] == fs.files[[a, b][n]]
  {
    var existing := Existing(fs, [a, b]);
    var created := CreateDirectory(fs, dir);
    ExistingOfPair(fs, a, b);
    if a in fs.files && b in fs.files {
      assert existing == [a, b];
      CopyEachCompletes(created, [a, b], target);
      CopyPairLastWins(created, a, b, target, n);
    } else {
      var x := [a, b][n];
      assert existing == [x];
      assert x != target(x) by {
        assert [a, b][n] != target([a, b][n]);
      }
      CopyEachCompletes(created, [x], target);
      CopyEachLastWins(created, [x], target, 0);
    }
  }

  lemma CopyPairLastWins(fs: FileSystem, a: Path, b: Path, target: Path -> Path, n: nat)
    requires n < 2 && a in fs.files && b in fs.files
    requires SourcesAreNotTargets([a, b], target) && target(a) != target(b)
    ensures var r := CopyEach(fs, [a, b], target);
      target([a, b][n]) in r.fs.files && r.fs.files[target([a, b][n])] == fs.files[[a, b][n]]
  {
    CopyEachLastWins(fs, [a, b], target, n);
  }

  lemma ExistingOfPair(fs: FileSystem, a: Path, b: Path)
    ensures Existing(fs, [a, b]) == (if a in fs.files then [a] else []) + (if b in fs.files then [b] else [])
  {
    assert [a, b][..1] == [a];
    assert [a][..0] == [];
  }

  /** Each snapshot keeps its own name in the pack. */
  lemma SnapshotTargets(ctx: EvidenceContext)
    ensures Target(DestinationDirectory(ctx), Candidates(ctx)[0]) == Combine(DestinationDirectory(ctx), "release1.sha256")
    ensures Target(DestinationDirectory(ctx), Candidates(ctx)[1]) == Combine(DestinationDirectory(ctx), "release2.sha256")
  {
    TargetOfSegment(DestinationDirectory(ctx), ctx.artifactsDirectory, "release1.sha256");
    TargetOfSegment(DestinationDirectory(ctx), ctx.artifactsDirectory, "release2.sha256");
  }

  /** The two snapshots' names are distinct in any directory. */
  lemma SnapshotNamesDiffer(dir: Path)
    ensures Combine(dir, "release1.sha256") != Combine(dir, "release2.sha256")
  {
    CombinedSegmentsDiffer(dir, "release1.sha256", "release2.sha256", 7);
  }
}
