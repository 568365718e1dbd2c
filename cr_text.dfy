/**
 * Change-request texts: the severity breakdown line and the twelve-line STAGE
 * and PROD summaries built from a patch event and its fixed vulnerabilities.
 */
module CrText {
  import opened Text
  import opened Models

  /** `severity_counts.get(severity, 0)`. */
  function CountOrZero(counts: map<Severity, int>, s: Severity): int
  {
    if s in counts then counts[s] else 0
  }

  /** `f"{severity.value.title()}: {count}"`. */
  function SeverityPart(counts: map<Severity, int>, s: Severity): string
  {
    s.Title() + ": " + IntToString(CountOrZero(counts, s))
  }

  /** One part per severity, most severe first. */
  function SeverityParts(counts: map<Severity, int>): (parts: seq<string>)
    ensures |parts| == |AllSeverities|
    ensures forall k :: 0 <= k < |parts| ==> parts[k] == SeverityPart(counts, AllSeverities[k])
  {
    [SeverityPart(counts, Critical), SeverityPart(counts, High), SeverityPart(counts, Medium), SeverityPart(counts, Low)]
  }

  /** The breakdown text `_format_severity_counts` returns. */
  function SeverityBreakdown(counts: map<Severity, int>): string
  {
    Join(SeverityParts(counts), ", ")
  }

  /** `_format_severity_counts`: the loop over the four severities, then `", ".join`. */
  method FormatSeverityCounts(counts: map<Severity, int>) returns (text: string)
    ensures text == SeverityBreakdown(counts)
  {
    var parts: seq<string> := [];
    for k := 0 to |AllSeverities|
      invariant parts == SeverityParts(counts)[..k]
    {
      parts := parts + [SeverityPart(counts, AllSeverities[k])];
    }
    assert parts == SeverityParts(counts);
    text := Join(parts, ", ");
  }

  lemma IntTextHasOnly(i: int, c: char)
    requires c != '-' && !IsDigit(c)
    ensures c !in IntToString(i)
  {
  }

  /** The count in a severity part reads back from the text after "<Title>: ". */
  lemma SeverityPartReadsBack(counts: map<Severity, int>, s: Severity)
    ensures var part := SeverityPart(counts, s);
            && |part| > |s.Title()| + 2
            && part[..|s.Title()| + 2] == s.Title() + ": "
            && IsIntText(part[|s.Title()| + 2..])
            && ParseInt(part[|s.Title()| + 2..]) == CountOrZero(counts, s)
  {
    var part := SeverityPart(counts, s);
    assert part[|s.Title()| + 2..] == IntToString(CountOrZero(counts, s));
    ParseIntToString(CountOrZero(counts, s));
  }

  /** Joining four parts with ", " is joining them with "," after putting a space in front of the last three. */
  lemma JoinFourWithSpace(a: string, b: string, c: string, d: string)
    ensures Join([a, b, c, d], ", ") == Join([a, " " + b, " " + c, " " + d], [','])
  {
    var spaced := [a, " " + b, " " + c, " " + d];
    var plain := [a, b, c, d];
    assert Join(plain[3..], ", ") == d;
    assert Join(plain[2..], ", ") == c + ", " + d;
    assert Join(plain[1..], ", ") == b + ", " + (c + ", " + d);
    assert Join(spaced[3..], [',']) == " " + d;
    assert Join(spaced[2..], [',']) == " " + c + "," + (" " + d);
    assert Join(spaced[1..], [',']) == " " + b + "," + (" " + c + "," + (" " + d));
  }

  /**
   * Splitting the breakdown at commas gives the four parts in severity order,
   * each after the space that follows its comma.
   */
  lemma BreakdownSplitsIntoParts(counts: map<Severity, int>)
    ensures var pieces := Split(SeverityBreakdown(counts), ',');
            && |pieces| == |AllSeverities|
            && pieces[0] == SeverityPart(counts, AllSeverities[0])
            && forall k :: 1 <= k < |pieces| ==> pieces[k] == " " + SeverityPart(counts, AllSeverities[k])
  {
    var parts := SeverityParts(counts);
    var spaced := [parts[0], " " + parts[1], " " + parts[2], " " + parts[3]];
    assert parts == [parts[0], parts[1], parts[2], parts[3]];
    JoinFourWithSpace(parts[0], parts[1], parts[2], parts[3]);
    forall k | 0 <= k < 4 ensures ',' !in spaced[k] {
      IntTextHasOnly(CountOrZero(counts, AllSeverities[k]), ',');
      assert ',' !in AllSeverities[k].Title() + ": ";
    }
    SplitJoin(spaced, ',');
  }

  /** No part of the breakdown holds a line break. */
  lemma BreakdownIsOneLine(counts: map<Severity, int>)
    ensures '\n' !in SeverityBreakdown(counts)
  {
    var parts := SeverityParts(counts);
    forall k | 0 <= k < |parts| ensures '\n' !in parts[k] {
      IntTextHasOnly(CountOrZero(counts, AllSeverities[k]), '\n');
      assert '\n' !in AllSeverities[k].Title() + ": ";
    }
    JoinAvoids(parts, ", ", '\n');
  }

  // The two change-request texts.

  // The fixed paragraphs. Each is written as a concatenation of short pieces so
  // that the solver can see, piece by piece, that it holds no line break.

  const Disclaimer: string :=
    "Note: This summary is generated " + "from synthetic, non-production " + "data and does not reflect any "
    + "real systems, scans, or " + "vulnerabilities."

  const StageSummary: string :=
    "This change promotes a synthetic " + "AMI patch from DEV to STAGE. The " + "DEV run demonstrated remediation "
    + "of the vulnerabilities listed above."

  const ProdSummary: string :=
    "This change promotes a synthetic " + "AMI patch from STAGE to PROD, " + "based on DEV evidence that the "
    + "vulnerabilities above were remediated."

  const StageTotalLabel: string := "Total fixed vulnerabilities in DEV: "
  const ProdTotalLabel: string := "Total fixed vulnerabilities " + "validated in DEV: "
  const BreakdownLabel: string := "Breakdown by severity: "

  function StageCrLines(serviceName: string, amiId: string, patchDate: string, totalFixed: nat, breakdown: string): seq<string>
  {
    [ "Service: " + serviceName,
      "Environment promotion: DEV -> STAGE",
      "AMI ID: " + amiId,
      "DEV patch date: " + patchDate,
      "",
      StageTotalLabel + NatToString(totalFixed),
      BreakdownLabel + breakdown,
      "",
      "Summary:",
      StageSummary,
      "",
      Disclaimer ]
  }

  function ProdCrLines(serviceName: string, amiId: string, stateCode: string, totalFixed: nat, breakdown: string): seq<string>
  {
    [ "Service: " + serviceName,
      "Environment promotion: STAGE -> PROD",
      "AMI ID: " + amiId,
      "Current lifecycle state: " + stateCode,
      "",
      ProdTotalLabel + NatToString(totalFixed),
      BreakdownLabel + breakdown,
      "",
      "Summary:",
      ProdSummary,
      "",
      Disclaimer ]
  }

  /** `"\n".join(lines)`. */
  function Lines(lines: seq<string>): string
  {
    Join(lines, "\n")
  }

  /**
   * `build_stage_cr_text`: the count of fixed vulnerabilities, the breakdown of
   * the counts given, and the event's service, AMI and DEV patch date.
   */
  method BuildStageCrText(event: PatchEvent, fixed: seq<Vulnerability>, counts: map<Severity, int>) returns (text: string)
    ensures text == Lines(StageCrLines(event.serviceName, event.amiId, event.patchDate, |fixed|, SeverityBreakdown(counts)))
  {
    var summary := FormatSeverityCounts(counts);
    text := Lines(StageCrLines(event.serviceName, event.amiId, event.patchDate, |fixed|, summary));
  }

  /** `build_prod_cr_text`: as the STAGE text, with the current state code in place of the patch date. */
  method BuildProdCrText(event: PatchEvent, fixed: seq<Vulnerability>, counts: map<Severity, int>) returns (text: string)
    ensures text == Lines(ProdCrLines(event.serviceName, event.amiId, event.currentStateCode, |fixed|, SeverityBreakdown(counts)))
  {
    var summary := FormatSeverityCounts(counts);
    text := Lines(ProdCrLines(event.serviceName, event.amiId, event.currentStateCode, |fixed|, summary));
  }

  // One lemma per constant: asking the solver about all the long texts in one
  // query is too expensive, so `FixedLinesAreOneLine` gathers these small facts
  // for the callers instead of proving them afresh.

  lemma DisclaimerIsOneLine()
    ensures '\n' !in Disclaimer
  {
  }

  lemma StageSummaryIsOneLine()
    ensures '\n' !in StageSummary
  {
  }

  lemma ProdSummaryIsOneLine()
    ensures '\n' !in ProdSummary
  {
  }

  lemma LabelsAreOneLine()
    ensures '\n' !in "Service: " && '\n' !in "AMI ID: " && '\n' !in "DEV patch date: "
    ensures '\n' !in "Current lifecycle state: " && '\n' !in "Summary:"
  {
  }

  lemma CountLabelsAreOneLine()
    ensures '\n' !in StageTotalLabel && '\n' !in ProdTotalLabel && '\n' !in BreakdownLabel
  {
  }

  lemma PromotionLinesAreOneLine()
    ensures '\n' !in "Environment promotion: DEV -> STAGE" && '\n' !in "Environment promotion: STAGE -> PROD"
  {
  }

  /** None of the fixed lines and labels holds a line break. */
  lemma FixedLinesAreOneLine()
    ensures '\n' !in "Service: " && '\n' !in "AMI ID: " && '\n' !in "DEV patch date: "
    ensures '\n' !in "Current lifecycle state: " && '\n' !in "Summary:"
    ensures '\n' !in "Environment promotion: DEV -> STAGE" && '\n' !in "Environment promotion: STAGE -> PROD"
    ensures '\n' !in StageTotalLabel && '\n' !in ProdTotalLabel && '\n' !in BreakdownLabel
    ensures '\n' !in StageSummary && '\n' !in ProdSummary && '\n' !in Disclaimer
  {
    LabelsAreOneLine();
    CountLabelsAreOneLine();
    PromotionLinesAreOneLine();
    DisclaimerIsOneLine();
    StageSummaryIsOneLine();
    ProdSummaryIsOneLine();
  }

  lemma NatTextHasNoBreak(n: nat)
    ensures '\n' !in NatToString(n)
  {
    IntTextHasOnly(n, '\n');
  }

  /**
   * A STAGE text splits back into its twelve lines whenever the free-text
   * fields hold no line break; the fixed count reads back from line 6.
   */
  lemma StageCrTextReadsBack(serviceName: string, amiId: string, patchDate: string, totalFixed: nat, counts: map<Severity, int>)
    requires '\n' !in serviceName && '\n' !in amiId && '\n' !in patchDate
    ensures var lines := Split(Lines(StageCrLines(serviceName, amiId, patchDate, totalFixed, SeverityBreakdown(counts))), '\n');
            && lines == StageCrLines(serviceName, amiId, patchDate, totalFixed, SeverityBreakdown(counts))
            && |lines| == 12
            && AllDigits(lines[5][|StageTotalLabel|..]) && ParseDigits(lines[5][|StageTotalLabel|..]) == totalFixed
            && lines[6] == BreakdownLabel + SeverityBreakdown(counts)
            && lines[11] == Disclaimer
  {
    var breakdown := SeverityBreakdown(counts);
    var lines := StageCrLines(serviceName, amiId, patchDate, totalFixed, breakdown);
    BreakdownIsOneLine(counts);
    NatTextHasNoBreak(totalFixed);
    FixedLinesAreOneLine();
    forall k | 0 <= k < |lines| ensures '\n' !in lines[k] {
    }
    SplitJoin(lines, '\n');
    assert lines[5][|StageTotalLabel|..] == NatToString(totalFixed);
    ParseNatToString(totalFixed);
  }

  /** The same for a PROD text, the state code taking the place of the patch date. */
  lemma ProdCrTextReadsBack(serviceName: string, amiId: string, stateCode: string, totalFixed: nat, counts: map<Severity, int>)
    requires '\n' !in serviceName && '\n' !in amiId && '\n' !in stateCode
    ensures var lines := Split(Lines(ProdCrLines(serviceName, amiId, stateCode, totalFixed, SeverityBreakdown(counts))), '\n');
            && lines == ProdCrLines(serviceName, amiId, stateCode, totalFixed, SeverityBreakdown(counts))
            && |lines| == 12
            && AllDigits(lines[5][|ProdTotalLabel|..]) && ParseDigits(lines[5][|ProdTotalLabel|..]) == totalFixed
            && lines[6] == BreakdownLabel + SeverityBreakdown(counts)
            && lines[11] == Disclaimer
  {
    var breakdown := SeverityBreakdown(counts);
    var lines := ProdCrLines(serviceName, amiId, stateCode, totalFixed, breakdown);
    BreakdownIsOneLine(counts);
    NatTextHasNoBreak(totalFixed);
    FixedLinesAreOneLine();
    forall k | 0 <= k < |lines| ensures '\n' !in lines[k] {
    }
    SplitJoin(lines, '\n');
    assert lines[5][|ProdTotalLabel|..] == NatToString(totalFixed);
    ParseNatToString(totalFixed);
  }

  /**
   * The two texts share their layout: they differ only in the promotion line,
   * the fourth line (patch date or state code), the label of the fixed count
   * and the summary paragraph.
   */
  lemma StageAndProdDifferOnlyIn(serviceName: string, amiId: string, patchDate: string, stateCode: string,
                                 totalFixed: nat, breakdown: string)
    ensures var s := StageCrLines(serviceName, amiId, patchDate, totalFixed, breakdown);
            var p := ProdCrLines(serviceName, amiId, stateCode, totalFixed, breakdown);
            && |s| == |p| == 12
            && (forall k :: 0 <= k < 12 && k !in {1, 3, 5, 9} ==> s[k] == p[k])
            && s[1] != p[1] && s[5] != p[5] && s[9] != p[9]
  {
    var s := StageCrLines(serviceName, amiId, patchDate, totalFixed, breakdown);
    var p := ProdCrLines(serviceName, amiId, stateCode, totalFixed, breakdown);
    assert s[1][23] != p[1][23];
    assert s[5][29] != p[5][29];
    assert s[9][48] != p[9][48];
  }
}
