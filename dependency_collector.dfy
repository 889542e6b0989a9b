/** Copies the dependency snapshot, `dependencies/dependencies.json` under the artifacts directory, into the evidence pack. */
module DependencyCollector {
  import opened FileSystem
  import opened Evidence
  import ArtifactCopy

  const Name: string := "Dependency Collector"
  const MissingMessage: string := "Required dependency snapshot file was not found."
  const EmptyMessage: string := "Required dependency snapshot appears empty."

  function Source(ctx: EvidenceContext): Path
  {
    Combine(Combine(ctx.artifactsDirectory, "dependencies"), "dependencies.json")
  }

  function Destination(ctx: EvidenceContext): Path
  {
    Combine(Combine(ctx.outputDirectory, "dependencies"), "dependencies.json")
  }

  function Effect(ctx: EvidenceContext, fs: FileSystem): Step
  {
    ArtifactCopy.Effect(ctx, fs, Source(ctx), Destination(ctx), MissingMessage, EmptyMessage)
  }

  method CollectAsync(ctx: EvidenceContext, fs: FileSystem) returns (outcome: Outcome, fs': FileSystem)
    ensures Step(outcome, fs') == Effect(ctx, fs)
    ensures outcome.Threw? <==>
      (ctx.failOnMissingRequiredEvidence && (Source(ctx) !in fs.files || |fs.files[Source(ctx)]| < ctx.minimumJsonBytes))
      || (Source(ctx) in fs.files && Source(ctx) == Destination(ctx))
    ensures outcome.Completed? && Source(ctx) in fs.files ==>
      Destination(ctx) in fs'.files && fs'.files[Destination(ctx)] == fs.files[Source(ctx)]
    ensures forall p :: p != Destination(ctx) ==> SameAt(fs, fs', p)
    // with the artifacts directory as the output directory the copy would be in place, and fails
    ensures Source(ctx) == Destination(ctx) ==> fs' == fs
    ensures fs'.dirs == fs.dirs
  {
    outcome, fs' := ArtifactCopy.CopyJsonArtifact(ctx, fs, Source(ctx), Destination(ctx), MissingMessage, EmptyMessage);
  }
}
