/** Writes the CI provenance metadata of the context as `provenance/provenance.json`. */
module ProvenanceCollector {
  import opened FileSystem
  import opened Exceptions
  import opened Evidence

  const Name: string := "Provenance Collector"
  const NotProvidedMessage: string := "Required provenance metadata was not provided."

  function DestinationDirectory(ctx: EvidenceContext): Path
  {
    Combine(ctx.outputDirectory, "provenance")
  }

  function Destination(ctx: EvidenceContext): Path
  {
    Combine(DestinationDirectory(ctx), "provenance.json")
  }

  function Effect(ctx: EvidenceContext, env: Environment, fs: FileSystem): (r: Step)
    ensures forall p :: p != Destination(ctx) ==> SameAt(fs, r.fs, p)
    ensures fs.files.Keys <= r.fs.files.Keys && fs.dirs <= r.fs.dirs
  {
    if |ctx.provenance| == 0 then
      Step(if ctx.failOnMissingRequiredEvidence then Threw(InvalidOperation(NotProvidedMessage)) else Completed, fs)
    else
      Step(Completed, WriteFile(CreateDirectory(fs, DestinationDirectory(ctx)), Destination(ctx),
                                env.serializeProvenance(ctx.provenance)))
  }

  method CollectAsync(ctx: EvidenceContext, env: Environment, fs: FileSystem) returns (outcome: Outcome, fs': FileSystem)
    ensures Step(outcome, fs') == Effect(ctx, env, fs)
    // the outcome depends on the metadata and the mode only, never on the filesystem
    ensures outcome == (if |ctx.provenance| == 0 && ctx.failOnMissingRequiredEvidence
                        then Threw(InvalidOperation(NotProvidedMessage)) else Completed)
    ensures |ctx.provenance| == 0 ==> fs' == fs
    // otherwise exactly one file is written, holding the serialised metadata
    ensures |ctx.provenance| > 0 ==>
      fs'.files == fs.files[Destination(ctx) := env.serializeProvenance(ctx.provenance)] &&
      fs'.dirs == fs.dirs + {DestinationDirectory(ctx)}
  {
    if |ctx.provenance| == 0 {
      if ctx.failOnMissingRequiredEvidence {
        return Threw(InvalidOperation(NotProvidedMessage)), fs;
      }
      return Completed, fs;
    }
    fs' := CreateDirectory(fs, DestinationDirectory(ctx));
    var json := env.serializeProvenance(ctx.provenance);
    fs' := WriteFile(fs', Destination(ctx), json);
    outcome := Completed;
  }
}
