/** `MarkdownReportWriter.WriteAsync`: the maturity report rendered as Markdown. */
module MarkdownReportWriter {
  import opened Wrappers
  import opened Text
  import opened FileSystem
  import opened ScoringTypes

  const Title := "# Freya Maturity Summary"

  function GeneratedAtLine(report: MaturityReport): string
  {
    "- GeneratedAt (UTC): `" + report.generatedAt + "`"
  }

  function ToolVersionLine(report: MaturityReport): string
  {
    "- ToolVersion: `" + report.toolVersion + "`"
  }

  function ScoreLine(report: MaturityReport): string
  {
    "- Score: **" + Fraction(report.score, report.maxScore) + "**"
  }

  function LevelLine(report: MaturityReport): string
  {
    "- Level: **" + report.level + "**"
  }

  function ReportHeader(report: MaturityReport): seq<string>
  {
    [Title, "", GeneratedAtLine(report), ToolVersionLine(report), ScoreLine(report), LevelLine(report), ""]
  }

  /** `$"{a}/{b}"`, used for the score line and for each points cell. */
  function Fraction(a: int, b: int): string
  {
    IntToString(a) + "/" + IntToString(b)
  }

  /** Missing-control names are written as they are, without escaping. */
  function MissingLine(name: string): string
  {
    "- \U{274C} " + name
  }

  function MissingLines(names: seq<string>): (r: seq<string>)
    ensures |r| == |names|
  {
    if names == [] then [] else MissingLines(names[..|names| - 1]) + [MissingLine(names[|names| - 1])]
  }

  const MissingHeading := "## Missing Required Controls"

  /** The section listing the missing required controls, written only when there is one. */
  function MissingSection(names: seq<string>): seq<string>
  {
    if |names| > 0 then [MissingHeading, ""] + MissingLines(names) + [""] else []
  }

  const BreakdownHeading := "## Control Breakdown"
  const TableHead := "| Control | Required | Evidence | Status | Points |"
  const TableRule := "|---|---:|---|---|---:|"

  const BreakdownHeader: seq<string> := [BreakdownHeading, "", TableHead, TableRule]

  function RequiredCell(required: bool): string
  {
    if required then "\U{2705}" else "\U{2014}"
  }

  /** A cell in backticks. */
  function Code(s: string): string
  {
    "`" + s + "`"
  }

  function ControlRow(c: ControlResult): string
  {
    TableRow([Escape(c.name), RequiredCell(c.required), Code(Escape(c.evidenceName)),
              Code(Escape(c.status)), Fraction(c.pointsAwarded, c.pointsAvailable)])
  }

  function ControlRows(controls: seq<ControlResult>): (r: seq<string>)
    ensures |r| == |controls|
  {
    Mapped(controls, ControlRow)
  }

  /** `f` applied to each element, in order, one element at a time as a loop would. */
  function Mapped<T, U>(xs: seq<T>, f: T -> U): (r: seq<U>)
    ensures |r| == |xs|
  {
    if xs == [] then [] else Mapped(xs[..|xs| - 1], f) + [f(xs[|xs| - 1])]
  }

  const LegendHeading := "### Status meaning"
  const OkMeaning := "- `ok`: evidence exists and appears non-empty"
  const EmptyMeaning := "- `empty`: evidence exists but is too small (often `{}`)"
  const MissingMeaning := "- `missing`: evidence not found"
  const WarningMeaning := "- `warning`: evidence exists but needs attention"

  const Legend: seq<string> := ["", LegendHeading, "", OkMeaning, EmptyMeaning, MissingMeaning, WarningMeaning]

  /** The lines of the report, one per AppendLine. */
  function ReportLines(report: MaturityReport): seq<string>
  {
    ReportHeader(report) + MissingSection(report.missingRequiredControls)
      + BreakdownHeader + ControlRows(report.controls) + Legend
  }

  /** The StringBuilder loops, the lines kept as a sequence. */
  method RenderLines(report: MaturityReport) returns (lines: seq<string>)
    ensures lines == ReportLines(report)
  {
    lines := [];
    lines := lines + [Title];
    lines := lines + [""];
    lines := lines + [GeneratedAtLine(report)];
    lines := lines + [ToolVersionLine(report)];
    lines := lines + [ScoreLine(report)];
    lines := lines + [LevelLine(report)];
    lines := lines + [""];
    assert lines == ReportHeader(report);
    lines := AppendMissingSection(lines, report.missingRequiredControls);
    lines := AppendBreakdownHeader(lines);
    lines := AppendControlRows(lines, report.controls);
    lines := AppendLegend(lines);
  }

  method AppendBreakdownHeader(before: seq<string>) returns (lines: seq<string>)
    ensures lines == before + BreakdownHeader
  {
    lines := before;
    lines := lines + [BreakdownHeading];
    lines := lines + [""];
    lines := lines + [TableHead];
    lines := lines + [TableRule];
  }

  method AppendLegend(before: seq<string>) returns (lines: seq<string>)
    ensures lines == before + Legend
  {
    lines := before;
    lines := lines + [""];
    lines := lines + [LegendHeading];
    lines := lines + [""];
    lines := lines + [OkMeaning];
    lines := lines + [EmptyMeaning];
    lines := lines + [MissingMeaning];
    lines := lines + [WarningMeaning];
  }

  method AppendMissingSection(before: seq<string>, missing: seq<string>) returns (lines: seq<string>)
    ensures lines == before + MissingSection(missing)
  {
    lines := before;
    if |missing| > 0 {
      lines := lines + [MissingHeading];
      lines := lines + [""];
      lines := AppendMissingLines(lines, missing);
      lines := lines + [""];
      SectionParts(before, missing);
    }
  }

  lemma SectionParts(before: seq<string>, names: seq<string>)
    requires |names| > 0
    ensures before + [MissingHeading] + [""] + MissingLines(names) + [""] == before + MissingSection(names)
  {
    Regroup(before, MissingHeading, "", MissingLines(names));
  }

  lemma Regroup<T>(before: seq<T>, heading: T, blank: T, middle: seq<T>)
    ensures before + [heading] + [blank] + middle + [blank] == before + ([heading, blank] + middle + [blank])
  {
  }

  method AppendMissingLines(before: seq<string>, missing: seq<string>) returns (lines: seq<string>)
    ensures lines == before + MissingLines(missing)
  {
    lines := before;
    for k := 0 to |missing|
      invariant lines == before + MissingLines(missing[..k])
    {
      assert missing[..k + 1][..k] == missing[..k];
      lines := lines + [MissingLine(missing[k])];
    }
    assert missing[..|missing|] == missing;
  }

  method AppendControlRows(before: seq<string>, controls: seq<ControlResult>) returns (lines: seq<string>)
    ensures lines == before + ControlRows(controls)
  {
    lines := before;
    for k := 0 to |controls|
      invariant lines == before + ControlRows(controls[..k])
    {
      assert controls[..k + 1][..k] == controls[..k];
      var c := controls[k];
      var req := RequiredCell(c.required);
      var pts := Fraction(c.pointsAwarded, c.pointsAvailable);
      lines := lines + [TableRow([Escape(c.name), req, Code(Escape(c.evidenceName)), Code(Escape(c.status)), pts])];
    }
    assert controls[..|controls|] == controls;
  }

  /** `WriteAsync`: the rendered text, encoded by `encodeText`, replaces the file at `path`. */
  method WriteAsync(fs: FileSystem, path: Path, report: MaturityReport, encodeText: string -> Bytes)
    returns (fs': FileSystem)
    ensures fs' == WriteFile(fs, path, encodeText(Lines(ReportLines(report))))
  {
    var lines := RenderLines(report);
    fs' := WriteFile(fs, path, encodeText(Lines(lines)));
  }

  // ---------------------------------------------------------------------------------------------
  // Properties of the rendered report

  lemma {:induction false} MissingLinesInOrder(names: seq<string>)
    ensures forall i :: 0 <= i < |names| ==> MissingLines(names)[i] == MissingLine(names[i])
  {
    if names != [] {
      MissingLinesInOrder(names[..|names| - 1]);
    }
  }

  lemma ControlRowsInOrder(controls: seq<ControlResult>)
    ensures forall i :: 0 <= i < |controls| ==> ControlRows(controls)[i] == ControlRow(controls[i])
  {
    MappedInOrder(controls, ControlRow);
  }

  lemma {:induction false} MappedInOrder<T, U>(xs: seq<T>, f: T -> U)
    ensures forall i :: 0 <= i < |xs| ==> Mapped(xs, f)[i] == f(xs[i])
  {
    if xs != [] {
      MappedInOrder(xs[..|xs| - 1], f);
    }
  }

  /** Where each part lands: `off` is the height of the missing-controls section. */
  function MissingHeight(report: MaturityReport): nat
  {
    if |report.missingRequiredControls| > 0 then |report.missingRequiredControls| + 3 else 0
  }

  /**
   * After the fixed header comes one "- \U{274C} name" line per missing required
   * control, in order, under its heading, only when there is one.
   */
  lemma ReportMissingLines(report: MaturityReport)
    ensures |report.missingRequiredControls| > 0 ==>
      && ReportLines(report)[7] == MissingHeading
      && forall i :: 0 <= i < |report.missingRequiredControls| ==>
        ReportLines(report)[9 + i] == MissingLine(report.missingRequiredControls[i])
  {
    var m := report.missingRequiredControls;
    Placement(ReportHeader(report), MissingSection(m), BreakdownHeader, ControlRows(report.controls), Legend);
    MissingSectionLines(m);
  }

  lemma MissingSectionLines(names: seq<string>)
    ensures |names| > 0 ==>
      && MissingSection(names)[0] == MissingHeading
      && forall i :: 0 <= i < |names| ==> MissingSection(names)[2 + i] == MissingLine(names[i])
  {
    if |names| > 0 {
      MissingLinesInOrder(names);
      var section := [MissingHeading, ""] + MissingLines(names) + [""];
      assert forall i :: 0 <= i < |names| ==> section[2 + i] == MissingLines(names)[i];
    }
  }

  /** Then the table: its heading, and one row per control in order; then the legend. */
  lemma ReportControlRows(report: MaturityReport)
    ensures |ReportLines(report)| == 18 + MissingHeight(report) + |report.controls|
    ensures ReportLines(report)[7 + MissingHeight(report)] == BreakdownHeading
    ensures forall i :: 0 <= i < |report.controls| ==>
      ReportLines(report)[11 + MissingHeight(report) + i] == ControlRow(report.controls[i])
  {
    ControlRowsInOrder(report.controls);
    Placement(ReportHeader(report), MissingSection(report.missingRequiredControls), BreakdownHeader,
              ControlRows(report.controls), Legend);
  }

  /** The score line shows "score/max" and the level line the level, both in bold. */
  lemma ReportScoreLines(report: MaturityReport)
    ensures ReportLines(report)[4] == ScoreLine(report)
    ensures ReportLines(report)[5] == LevelLine(report)
  {
    Placement(ReportHeader(report), MissingSection(report.missingRequiredControls), BreakdownHeader,
              ControlRows(report.controls), Legend);
  }

  /** Positions in a report made of five consecutive parts. */
  lemma Placement(header: seq<string>, section: seq<string>, table: seq<string>, rows: seq<string>, legend: seq<string>)
    requires |header| == 7 && |table| == 4
    ensures var lines := header + section + table + rows + legend;
      && |lines| == 11 + |section| + |rows| + |legend|
      && lines[4] == header[4] && lines[5] == header[5]
      && (forall i :: 0 <= i < |section| ==> lines[7 + i] == section[i])
      && lines[7 + |section|] == table[0]
      && (forall i :: 0 <= i < |rows| ==> lines[11 + |section| + i] == rows[i])
  {
  }

  /** The missing-controls heading is there exactly when some required control is missing. */
  lemma MissingSectionIff(report: MaturityReport)
    ensures ReportLines(report)[7] == MissingHeading <==> |report.missingRequiredControls| > 0
  {
    ReportMissingLines(report);
    ReportControlRows(report);
  }

  lemma DigitsHaveNoPipe(s: string)
    requires AllDigits(s)
    ensures '|' !in s && '/' !in s
  {
  }

  lemma IntegerHasNoPipe(i: int)
    ensures '|' !in IntToString(i) && '/' !in IntToString(i)
  {
    DigitsHaveNoPipe(NatToString(if i < 0 then -i else i));
  }

  /** Every control row has the five columns of the header, whatever the names hold. */
  lemma ControlRowColumns(c: ControlResult)
    ensures BarePipes(ControlRow(c)) == 6
  {
    EscapedCellIsSafe(c.name);
    EscapedCellIsSafe(c.evidenceName);
    EscapedCellIsSafe(c.status);
    IntegerHasNoPipe(c.pointsAwarded);
    IntegerHasNoPipe(c.pointsAvailable);
    var f := Fraction(c.pointsAwarded, c.pointsAvailable);
    assert '|' !in f;
    PipelessIsSafe(f);
    PipelessIsSafe(RequiredCell(c.required));
    TableRowColumns([Escape(c.name), RequiredCell(c.required), Code(Escape(c.evidenceName)),
                     Code(Escape(c.status)), f]);
  }

  lemma {:induction false} PipelessIsSafe(s: string)
    requires '|' !in s
    ensures SafeCell(s)
  {
    EscapeIdentity(s);
    EscapeHasNoBarePipe(s);
    EscapeNeverStartsWithPipe(s);
  }

  /** Reads "a/b" back: split at the first `/`, then read both integers. */
  function ParseFraction(s: string): Option<(int, int)>
  {
    match IndexOf(s, '/')
    case None => None
    case Some(k) =>
      match (ParseInt(s[..k]), ParseInt(s[k + 1..]))
      case (Some(a), Some(b)) => Some((a, b))
      case _ => None
  }

  /** The score line and the points cells keep both numbers recoverable. */
  lemma FractionRoundTrip(a: int, b: int)
    ensures ParseFraction(Fraction(a, b)) == Some((a, b))
  {
    var x, y := IntToString(a), IntToString(b);
    IndexOfAfter(x, '/', y);
    var s := x + ['/'] + y;
    assert s == Fraction(a, b);
    assert s[..|x|] == x;
    assert s[|x| + 1..] == y;
    IntToStringRoundTrip(a);
    IntToStringRoundTrip(b);
  }
}
