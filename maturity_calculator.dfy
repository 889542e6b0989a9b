/**
 * `MaturityCalculator.Calculate`: scores an evidence index against a rubric of
 * controls and levels.
 */
module MaturityCalculator {
  import opened Wrappers
  import opened Exceptions
  import opened FileSystem
  import opened Evidence
  import opened ScoringTypes
  import opened CheckedArithmetic
  import opened LevelSelection

  /** What `JsonSerializer.Deserialize` gives back: a value, `null`, or a `JsonException`. */
  datatype Deserialized<+T> = Parsed(value: T) | Null | Malformed(message: string)

  const IndexNotFoundMessage := "Evidence index not found."
  const ConfigNotFoundMessage := "Maturity config not found."
  const IndexNullMessage := "Failed to deserialize evidence index."
  const ConfigNullMessage := "Failed to deserialize maturity config."
  const MissingStatus := "missing"
  const OkStatus := "ok"

  function ConfigParseMessage(configPath: Path, jsonMessage: string): string
  {
    "Unable to parse maturity config '" + configPath + "': " + jsonMessage
  }

  /** The position of the first item whose name equals `evidenceName` ordinally. */
  function FirstNamed(items: seq<EvidenceItem>, evidenceName: string): (r: Option<nat>)
    ensures r.Some? ==> r.value < |items| && items[r.value].name == evidenceName
    ensures r.Some? ==> forall j :: 0 <= j < r.value ==> items[j].name != evidenceName
    ensures r.None? ==> forall j :: 0 <= j < |items| ==> items[j].name != evidenceName
  {
    if items == [] then None
    else if items[0].name == evidenceName then Some(0)
    else match FirstNamed(items[1..], evidenceName)
      case None => None
      case Some(i) => Some(i + 1)
  }

  /** `evidence?.Status ?? "missing"`. */
  function StatusOf(items: seq<EvidenceItem>, evidenceName: string): string
  {
    match FirstNamed(items, evidenceName)
    case Some(i) => items[i].status
    case None => MissingStatus
  }

  /** The result for one control: only "ok" is achieved, and only achieved controls earn points. */
  function Evaluate(items: seq<EvidenceItem>, control: ControlDefinition): ControlResult
  {
    var status := StatusOf(items, control.evidenceName);
    var achieved := status == OkStatus;
    ControlResult(
      control.id, control.name, control.evidenceName, control.required,
      control.points, if achieved then control.points else 0, status, achieved)
  }

  /** One result per control, in rubric order. */
  function Results(items: seq<EvidenceItem>, controls: seq<ControlDefinition>): (r: seq<ControlResult>)
    ensures |r| == |controls|
    ensures forall i :: 0 <= i < |controls| ==> r[i] == Evaluate(items, controls[i])
  {
    if controls == [] then []
    else Results(items, controls[..|controls| - 1]) + [Evaluate(items, controls[|controls| - 1])]
  }

  predicate MissesRequired(result: ControlResult)
  {
    result.required && !result.achieved
  }

  /** The names of the required controls that were not achieved, in order. */
  function MissingRequired(results: seq<ControlResult>): seq<string>
  {
    if results == [] then []
    else
      var last := results[|results| - 1];
      MissingRequired(results[..|results| - 1]) + if MissesRequired(last) then [last.name] else []
  }

  function Awarded(results: seq<ControlResult>): seq<Int32>
  {
    seq(|results|, i requires 0 <= i < |results| => results[i].pointsAwarded)
  }

  function Available(results: seq<ControlResult>): seq<Int32>
  {
    seq(|results|, i requires 0 <= i < |results| => results[i].pointsAvailable)
  }

  /** The report for a parsed index and rubric; the two checked sums may overflow. */
  function Report(index: EvidenceIndex, cfg: MaturityConfig, now: Timestamp): (r: Result<MaturityReport, Exception>)
    ensures r.Failure? ==> r.error == Overflow
    ensures r.Success? ==>
      && r.value.score == Sum(Awarded(r.value.controls))
      && r.value.maxScore == Sum(Available(r.value.controls))
      && r.value.level == GetLevelForScore(cfg.levels, r.value.score)
      && r.value.toolVersion == index.toolVersion
      && r.value.generatedAt == now
      && r.value.controls == Results(index.items, cfg.controls)
      && r.value.missingRequiredControls == MissingRequired(r.value.controls)
  {
    var results := Results(index.items, cfg.controls);
    match CheckedSum(Awarded(results))
    case None => Failure(Overflow)
    case Some(score) =>
      match CheckedSum(Available(results))
      case None => Failure(Overflow)
      case Some(max) =>
        Success(MaturityReport(
          now, index.toolVersion, score, max, GetLevelForScore(cfg.levels, score),
          results, MissingRequired(results)))
  }

  /** The `foreach` over the rubric's controls. */
  method EvaluateControls(items: seq<EvidenceItem>, controls: seq<ControlDefinition>)
    returns (results: seq<ControlResult>, missingRequired: seq<string>)
    ensures results == Results(items, controls)
    ensures missingRequired == MissingRequired(results)
  {
    results := [];
    missingRequired := [];
    for i := 0 to |controls|
      invariant results == Results(items, controls[..i])
      invariant missingRequired == MissingRequired(results)
    {
      var control := controls[i];
      var status := StatusOf(items, control.evidenceName);
      var achieved := status == OkStatus;
      var awarded := if achieved then control.points else 0;
      if control.required && !achieved {
        missingRequired := missingRequired + [control.name];
      }
      var result := ControlResult(
        control.id, control.name, control.evidenceName, control.required,
        control.points, awarded, status, achieved);
      assert controls[..i + 1][..i] == controls[..i];
      assert results + [result] == Results(items, controls[..i + 1]);
      assert (results + [result])[..|results|] == results;
      results := results + [result];
    }
    assert controls[..|controls|] == controls;
  }

  /**
   * `Calculate`. The files are read from `fs`, `parseIndex` and `parseConfig`
   * stand for the JSON deserialiser and `now` for the clock.
   */
  method Calculate(
    fs: FileSystem, evidenceIndexPath: Path, configPath: Path,
    parseIndex: Bytes -> Deserialized<EvidenceIndex>,
    parseConfig: Bytes -> Deserialized<MaturityConfig>,
    now: Timestamp)
    returns (r: Result<MaturityReport, Exception>)
    ensures !FileExists(fs, evidenceIndexPath) ==>
      r == Failure(FileNotFound(IndexNotFoundMessage, Some(evidenceIndexPath)))
    ensures FileExists(fs, evidenceIndexPath) && !FileExists(fs, configPath) ==>
      r == Failure(FileNotFound(ConfigNotFoundMessage, Some(configPath)))
    ensures FileExists(fs, evidenceIndexPath) && FileExists(fs, configPath) ==>
      match parseIndex(fs.files[evidenceIndexPath])
      case Malformed(m) => r == Failure(Json(m))
      case Null => r == Failure(InvalidOperation(IndexNullMessage))
      case Parsed(index) =>
        match parseConfig(fs.files[configPath])
        case Malformed(m) => r == Failure(InvalidOperation(ConfigParseMessage(configPath, m)))
        case Null => r == Failure(InvalidOperation(ConfigNullMessage))
        case Parsed(cfg) => r == Report(index, cfg, now)
  {
    if !FileExists(fs, evidenceIndexPath) {
      return Failure(FileNotFound(IndexNotFoundMessage, Some(evidenceIndexPath)));
    }
    if !FileExists(fs, configPath) {
      return Failure(FileNotFound(ConfigNotFoundMessage, Some(configPath)));
    }
    var index: EvidenceIndex;
    match parseIndex(fs.files[evidenceIndexPath])
    case Malformed(m) => return Failure(Json(m));
    case Null => return Failure(InvalidOperation(IndexNullMessage));
    case Parsed(v) => index := v;
    var cfg: MaturityConfig;
    match parseConfig(fs.files[configPath])
    case Malformed(m) => return Failure(InvalidOperation(ConfigParseMessage(configPath, m)));
    case Null => return Failure(InvalidOperation(ConfigNullMessage));
    case Parsed(v) => cfg := v;

    var results, missingRequired := EvaluateControls(index.items, cfg.controls);
    var score := CheckedSum(Awarded(results));
    if score.None? {
      return Failure(Overflow);
    }
    var max := CheckedSum(Available(results));
    if max.None? {
      return Failure(Overflow);
    }
    var level := GetLevelForScore(cfg.levels, score.value);
    r := Success(MaturityReport(now, index.toolVersion, score.value, max.value, level, results, missingRequired));
  }

  /**
   * A control is achieved exactly when the first index item carrying its
   * evidence name has status "ok"; with no such item its status is "missing".
   */
  lemma EvaluateSpec(items: seq<EvidenceItem>, control: ControlDefinition)
    ensures Evaluate(items, control).achieved <==>
      exists i :: 0 <= i < |items| && items[i].name == control.evidenceName && items[i].status == OkStatus
        && forall j :: 0 <= j < i ==> items[j].name != control.evidenceName
    ensures (forall i :: 0 <= i < |items| ==> items[i].name != control.evidenceName) ==>
      Evaluate(items, control).status == MissingStatus && !Evaluate(items, control).achieved
    ensures Evaluate(items, control).pointsAwarded == (if Evaluate(items, control).achieved then control.points else 0)
    ensures Evaluate(items, control).pointsAvailable == control.points
  {
    var r := Evaluate(items, control);
    if r.achieved {
      var i := FirstNamed(items, control.evidenceName).value;
      assert items[i].status == OkStatus;
    }
  }

  /**
   * The missing-required list is exactly the names of the required,
   * non-achieved results, in order: `idx` lists their positions.
   */
  lemma {:induction false} MissingRequiredExact(results: seq<ControlResult>) returns (idx: seq<int>)
    ensures |idx| == |MissingRequired(results)|
    ensures forall j :: 0 <= j < |idx| ==>
      0 <= idx[j] < |results| && MissesRequired(results[idx[j]]) && MissingRequired(results)[j] == results[idx[j]].name
    ensures forall j, k :: 0 <= j < k < |idx| ==> idx[j] < idx[k]
    ensures forall i :: 0 <= i < |results| && MissesRequired(results[i]) ==> i in idx
  {
    if results == [] {
      idx := [];
    } else {
      var n := |results| - 1;
      var init := results[..n];
      var prior := MissingRequiredExact(init);
      assert forall i :: 0 <= i < n ==> init[i] == results[i];
      if MissesRequired(results[n]) {
        idx := prior + [n];
        assert MissingRequired(results) == MissingRequired(init) + [results[n].name];
      } else {
        idx := prior;
        assert MissingRequired(results) == MissingRequired(init);
      }
    }
  }

  /** Nothing is missing exactly when every required control is achieved. */
  lemma NothingMissingIff(results: seq<ControlResult>)
    ensures MissingRequired(results) == [] <==> forall i :: 0 <= i < |results| ==> !MissesRequired(results[i])
  {
    var idx := MissingRequiredExact(results);
    if MissingRequired(results) != [] {
      assert MissesRequired(results[idx[0]]);
    }
  }

  lemma {:induction false} SumOfNonNegativePrefixes(xs: seq<int>)
    requires forall i :: 0 <= i < |xs| ==> 0 <= xs[i]
    ensures (exists k :: 0 < k <= |xs| && !InInt32(Sum(xs[..k]))) <==> Sum(xs) > MaxInt32
  {
    SumBounds(xs);
    assert forall k :: 0 < k <= |xs| ==> 0 <= Sum(xs[..k]) by {
      forall k | 0 < k <= |xs| ensures 0 <= Sum(xs[..k]) {
        SumBounds(xs[..k]);
      }
    }
    if Sum(xs) > MaxInt32 {
      assert xs[..|xs|] == xs;
    }
  }

  /**
   * With non-negative points the score is between 0 and the maximum, and the
   * calculation overflows exactly when the available points exceed `int.MaxValue`.
   */
  lemma NonNegativePointsBounded(index: EvidenceIndex, cfg: MaturityConfig, now: Timestamp)
    requires forall i :: 0 <= i < |cfg.controls| ==> 0 <= cfg.controls[i].points
    ensures var results := Results(index.items, cfg.controls);
      Report(index, cfg, now).Failure? <==> Sum(Available(results)) > MaxInt32
    ensures Report(index, cfg, now).Success? ==>
      0 <= Report(index, cfg, now).value.score <= Report(index, cfg, now).value.maxScore
  {
    var results := Results(index.items, cfg.controls);
    var awarded, available := Awarded(results), Available(results);
    PointsNonNegative(index.items, cfg.controls);
    SumOfNonNegativePrefixes(awarded);
    SumOfNonNegativePrefixes(available);
    SumMonotone(awarded, available);
    SumBounds(awarded);
  }

  /** With non-negative points, no control is awarded less than 0 or more than it makes available. */
  lemma PointsNonNegative(items: seq<EvidenceItem>, controls: seq<ControlDefinition>)
    requires forall i :: 0 <= i < |controls| ==> 0 <= controls[i].points
    ensures var results := Results(items, controls);
      forall i :: 0 <= i < |results| ==>
        0 <= Awarded(results)[i] <= Available(results)[i] && 0 <= Available(results)[i]
  {
  }
}
