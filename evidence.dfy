/**
 * The records the evidence pipeline passes around: the run's context, the items of the evidence
 * index, the index itself and the manifest, plus the outcome of running one collector and the
 * environment that stands in for what the code takes from the host (clock, assembly version,
 * directory enumeration, relative paths, JSON serialisation and text encoding).
 */
module Evidence {
  import opened Wrappers
  import opened FileSystem
  import opened Exceptions

  /** A DateTimeOffset, kept as its round-trip ("O") text. */
  type Timestamp = string

  datatype EvidenceContext = EvidenceContext(
    artifactsDirectory: Path,
    outputDirectory: Path,
    generatedAt: Timestamp,
    failOnMissingRequiredEvidence: bool,  // strict mode
    minimumJsonBytes: int,
    provenance: map<string, string>)

  /** A context with only the required properties set: lenient, 3 bytes, no provenance. */
  function DefaultContext(artifactsDirectory: Path, outputDirectory: Path, now: Timestamp): EvidenceContext
  {
    EvidenceContext(artifactsDirectory, outputDirectory, now, false, 3, map[])
  }

  datatype EvidenceItem = EvidenceItem(
    name: string,
    relativePath: string,
    fileExists: bool,  // Exists
    sizeBytes: int,
    status: string)

  datatype EvidenceIndex = EvidenceIndex(generatedAt: Timestamp, toolVersion: string, items: seq<EvidenceItem>)

  datatype EvidenceManifest = EvidenceManifest(generatedAt: Timestamp, toolVersion: string, collectors: seq<string>)

  /** How a call of `CollectAsync` ends: it returns, or it throws. */
  datatype Outcome = Completed | Threw(error: Exception)

  /** The outcome of a collector together with the filesystem it leaves behind. */
  datatype Step = Step(outcome: Outcome, fs: FileSystem)

  /** What the code takes from the host, given as values and functions. */
  datatype Environment = Environment(
    assemblyVersion: Option<string>,               // Assembly.GetName().Version?.ToString()
    clock: Timestamp,                              // DateTimeOffset.UtcNow when the index is built
    testResultFiles: seq<Path>,                    // Directory.EnumerateFiles(.., "*.trx", AllDirectories)
    relativePath: (Path, Path) -> string,          // Paths.GetRelativePath
    serializeManifest: EvidenceManifest -> Bytes,  // JsonSerializer.Serialize + UTF-8
    serializeIndex: EvidenceIndex -> Bytes,
    serializeProvenance: map<string, string> -> Bytes,
    encodeText: string -> Bytes)                   // File.WriteAllText's UTF-8 encoding

  /** The version recorded in the manifest and the index; "unknown" when the assembly has none. */
  function ToolVersion(env: Environment): string
  {
    env.assemblyVersion.GetOr("unknown")
  }

  /** Where the builder writes the manifest, and where the summary looks for it. */
  function ManifestPath(outputDirectory: Path): Path
  {
    Combine(outputDirectory, "evidence-manifest.json")
  }
}
