/**
 * The guard-then-copy policy that the SBOM, dependency and licence collectors each apply to their
 * one JSON artifact: a missing source is skipped or, in strict mode, fails; a source smaller than
 * the threshold fails in strict mode and is still copied otherwise. The copy itself fails, in
 * either mode, when the destination is the source.
 */
module ArtifactCopy {
  import opened Wrappers
  import opened FileSystem
  import opened Exceptions
  import opened Evidence

  /** The policy as a function of the context and the filesystem. */
  function Effect(ctx: EvidenceContext, fs: FileSystem, source: Path, destination: Path,
                  missingMessage: string, emptyMessage: string): (r: Step)
    ensures forall p :: p != destination ==> SameAt(fs, r.fs, p)
    ensures fs.files.Keys <= r.fs.files.Keys && r.fs.dirs == fs.dirs
  {
    if !FileExists(fs, source) then
      Step(if ctx.failOnMissingRequiredEvidence then Threw(FileNotFound(missingMessage, Some(source))) else Completed, fs)
    else if SizeOrZero(fs, source) < ctx.minimumJsonBytes && ctx.failOnMissingRequiredEvidence then
      Step(Threw(InvalidOperation(emptyMessage)), fs)
    else if source == destination then
      Step(Threw(FileInUse(source)), fs)
    else
      Step(Completed, CopyFile(fs, source, destination))
  }

  method CopyJsonArtifact(ctx: EvidenceContext, fs: FileSystem, source: Path, destination: Path,
                          missingMessage: string, emptyMessage: string)
    returns (outcome: Outcome, fs': FileSystem)
    ensures Step(outcome, fs') == Effect(ctx, fs, source, destination, missingMessage, emptyMessage)
    // strict mode fails when the source is absent or below the threshold; either mode fails when
    // an existing source would be copied onto itself
    ensures outcome.Threw? <==>
      (ctx.failOnMissingRequiredEvidence && (source !in fs.files || |fs.files[source]| < ctx.minimumJsonBytes))
      || (source in fs.files && source == destination)
    ensures source !in fs.files && ctx.failOnMissingRequiredEvidence ==>
      outcome == Threw(FileNotFound(missingMessage, Some(source)))
    ensures source in fs.files && |fs.files[source]| < ctx.minimumJsonBytes && ctx.failOnMissingRequiredEvidence ==>
      outcome == Threw(InvalidOperation(emptyMessage))
    ensures source in fs.files && source == destination &&
            !(|fs.files[source]| < ctx.minimumJsonBytes && ctx.failOnMissingRequiredEvidence) ==>
      outcome == Threw(FileInUse(source))
    // nothing is written on a failure or when there is nothing to copy
    ensures outcome.Threw? || source !in fs.files ==> fs' == fs
    // otherwise exactly the destination changes, to the source's bytes, whatever their size
    ensures outcome.Completed? && source in fs.files ==>
      fs' == fs.(files := fs.files[destination := fs.files[source]])
  {
    if !FileExists(fs, source) {
      if ctx.failOnMissingRequiredEvidence {
        return Threw(FileNotFound(missingMessage, Some(source))), fs;
      }
      return Completed, fs;
    }
    var size := SizeOrZero(fs, source);
    if size < ctx.minimumJsonBytes {
      if ctx.failOnMissingRequiredEvidence {
        return Threw(InvalidOperation(emptyMessage)), fs;
      }
      // still copied, degraded evidence being better than none
    }
    if source == destination {
      return Threw(FileInUse(source)), fs;
    }
    fs' := CopyFile(fs, source, destination);
    outcome := Completed;
  }
}
