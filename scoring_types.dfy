/** The rubric and the report of the maturity scoring engine. */
module ScoringTypes {
  import opened Evidence

  const MinInt32: int := -0x8000_0000
  const MaxInt32: int := 0x7FFF_FFFF

  /** A C# `int`. */
  type Int32 = x: int | MinInt32 <= x <= MaxInt32

  datatype LevelDefinition = LevelDefinition(name: string, minScore: Int32)

  datatype ControlDefinition = ControlDefinition(
    id: string,
    name: string,
    evidenceName: string,
    required: bool,
    points: Int32)

  datatype MaturityConfig = MaturityConfig(levels: seq<LevelDefinition>, controls: seq<ControlDefinition>)

  datatype ControlResult = ControlResult(
    id: string,
    name: string,
    evidenceName: string,
    required: bool,
    pointsAvailable: Int32,
    pointsAwarded: Int32,
    status: string,
    achieved: bool)

  datatype MaturityReport = MaturityReport(
    generatedAt: Timestamp,
    toolVersion: string,
    score: Int32,
    maxScore: Int32,
    level: string,
    controls: seq<ControlResult>,
    missingRequiredControls: seq<string>)
}
