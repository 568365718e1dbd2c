/**
 * The decisions the request handlers take before they change a patch event:
 * when the evidence flag is set, when the two change-request texts are
 * written, when AFTER generation is refused, how a transition request ends,
 * what the detail view shows, and the dashboard's environment tallies.
 * Request parsing, redirects and rendering are not modelled; each handler
 * returns the feedback message it would put in the redirect.
 */
module Routes {
  import opened Wrappers
  import opened Models
  import opened State
  import opened Diff
  import opened SyntheticData
  import opened CrText

  /** Both buckets of the event's snapshots hold vulnerabilities. */
  predicate HasBothBuckets(snapshots: seq<ScanSnapshot>)
  {
    Bucket(snapshots, Before) != [] && Bucket(snapshots, After) != []
  }

  /** The fixed vulnerabilities of an event: BEFORE minus AFTER. */
  function EventFixed(snapshots: seq<ScanSnapshot>): seq<Vulnerability>
  {
    ComputeFixedVulnerabilities(Bucket(snapshots, Before), Bucket(snapshots, After))
  }

  // compute_evidence

  const EvidenceMissingSnapshots: string :=
    "Cannot compute fixed vulnerabilities: synthetic BEFORE and AFTER snapshots are required."
  const EvidenceComputed: string := "DEV evidence computed from synthetic snapshots."

  /**
   * `compute_evidence`: the flag is set exactly when both buckets are non-empty;
   * otherwise nothing changes.  The flag is never cleared.
   */
  method ComputeEvidence(event: PatchEvent) returns (message: string)
    modifies event`devEvidenceAvailable
    ensures event.devEvidenceAvailable == (old(event.devEvidenceAvailable) || HasBothBuckets(event.snapshots))
    ensures message == if HasBothBuckets(event.snapshots) then EvidenceComputed else EvidenceMissingSnapshots
  {
    var split := ExtractBeforeAfterVulnerabilities(event.snapshots);
    if split[Before] == [] || split[After] == [] {
      message := EvidenceMissingSnapshots;
    } else {
      event.devEvidenceAvailable := true;
      message := EvidenceComputed;
    }
  }

  // generate_stage_cr

  const StageCrNeedsEvidence: string := "DEV evidence must be computed before generating a STAGE CR summary."
  const StageCrNeedsSnapshots: string :=
    "Synthetic BEFORE and AFTER snapshots are required to build a STAGE CR summary."
  const StageCrGenerated: string := "STAGE CR summary generated from synthetic DEV evidence."

  /** The STAGE text the handler writes for the event's current snapshots. */
  function StageCrFor(event: PatchEvent, snapshots: seq<ScanSnapshot>): string
  {
    var fixed := EventFixed(snapshots);
    Lines(StageCrLines(event.serviceName, event.amiId, event.patchDate, |fixed|, SeverityBreakdown(CountBySeverity(fixed))))
  }

  /**
   * `generate_stage_cr`: without the evidence flag, or without both buckets,
   * the summary stays as it was; otherwise it becomes the STAGE text built
   * from the fixed list and its severity counts.
   */
  method GenerateStageCr(event: PatchEvent) returns (message: string)
    modifies event`stageCrSummary
    ensures !event.devEvidenceAvailable ==>
              event.stageCrSummary == old(event.stageCrSummary) && message == StageCrNeedsEvidence
    ensures event.devEvidenceAvailable && !HasBothBuckets(event.snapshots) ==>
              event.stageCrSummary == old(event.stageCrSummary) && message == StageCrNeedsSnapshots
    ensures event.devEvidenceAvailable && HasBothBuckets(event.snapshots) ==>
              event.stageCrSummary == Some(StageCrFor(event, event.snapshots)) && message == StageCrGenerated
  {
    if !event.devEvidenceAvailable {
      message := StageCrNeedsEvidence;
    } else {
      var split := ExtractBeforeAfterVulnerabilities(event.snapshots);
      var beforeVulns, afterVulns := split[Before], split[After];
      if beforeVulns == [] || afterVulns == [] {
        message := StageCrNeedsSnapshots;
      } else {
        var fixed := ComputeFixedVulnerabilities(beforeVulns, afterVulns);
        var counts := CountBySeverity(fixed);
        var text := BuildStageCrText(event, fixed, counts);
        event.stageCrSummary := Some(text);
        message := StageCrGenerated;
      }
    }
  }

  // generate_prod_cr

  /** The codes from which a PROD text may be generated. */
  const ProdCrStates: set<string> := {"STAGE_PATCHED", "PROD_CR_READY", "PROD_PATCHED", "CLOSED"}

  /** `prod_cr_allowed`: the stored code is STAGE_PATCHED or a later one. */
  predicate ProdCrAllowed(code: string)
  {
    code in ProdCrStates
  }

  /** The allowed codes are exactly the constants of STAGE_PATCHED and the states after it. */
  lemma ProdCrAllowedFromStagePatched(code: string)
    ensures ProdCrAllowed(code) <==>
              ParseStateCode(code).Some? && ParseStateCode(code).value.Position() >= StagePatched.Position()
  {
  }

  const ProdCrNeedsState: string :=
    "Patch event must be at least in STAGE_PATCHED state before generating a PROD CR summary."
  const ProdCrNeedsSnapshots: string :=
    "Synthetic BEFORE and AFTER snapshots are required to build a PROD CR summary."
  const ProdCrGenerated: string := "PROD CR summary generated from synthetic evidence."

  /** The PROD text the handler writes for the event's current snapshots and code. */
  function ProdCrFor(event: PatchEvent, stateCode: string, snapshots: seq<ScanSnapshot>): string
  {
    var fixed := EventFixed(snapshots);
    Lines(ProdCrLines(event.serviceName, event.amiId, stateCode, |fixed|, SeverityBreakdown(CountBySeverity(fixed))))
  }

  /**
   * `generate_prod_cr`: the stored code must be STAGE_PATCHED or later and both
   * buckets must be non-empty; the evidence flag is not consulted.
   */
  method GenerateProdCr(event: PatchEvent) returns (message: string)
    modifies event`prodCrSummary
    ensures !ProdCrAllowed(event.currentStateCode) ==>
              event.prodCrSummary == old(event.prodCrSummary) && message == ProdCrNeedsState
    ensures ProdCrAllowed(event.currentStateCode) && !HasBothBuckets(event.snapshots) ==>
              event.prodCrSummary == old(event.prodCrSummary) && message == ProdCrNeedsSnapshots
    ensures ProdCrAllowed(event.currentStateCode) && HasBothBuckets(event.snapshots) ==>
              && event.prodCrSummary == Some(ProdCrFor(event, event.currentStateCode, event.snapshots))
              && message == ProdCrGenerated
  {
    if event.currentStateCode !in ProdCrStates {
      message := ProdCrNeedsState;
    } else {
      var split := ExtractBeforeAfterVulnerabilities(event.snapshots);
      var beforeVulns, afterVulns := split[Before], split[After];
      if beforeVulns == [] || afterVulns == [] {
        message := ProdCrNeedsSnapshots;
      } else {
        var fixed := ComputeFixedVulnerabilities(beforeVulns, afterVulns);
        var counts := CountBySeverity(fixed);
        var text := BuildProdCrText(event, fixed, counts);
        event.prodCrSummary := Some(text);
        message := ProdCrGenerated;
      }
    }
  }

  // generate_before

  const BeforeGenerated: string := "Synthetic BEFORE snapshot generated with vulnerabilities."

  /**
   * `generate_before`: the generator runs with its default count, so the event
   * ends with exactly one BEFORE snapshot of 20 fresh vulnerabilities, the AFTER
   * data untouched.
   */
  method GenerateBefore(event: PatchEvent, snapshotId: nat) returns (created: ScanSnapshot, message: string)
    modifies event`snapshots
    ensures created.snapshotType == Before && |created.vulnerabilities| == DefaultVulnerabilityCount
    ensures FreshSet(created.vulnerabilities, snapshotId, event.environment)
    ensures event.snapshots == RemoveTag(old(event.snapshots), Before) + [created]
    ensures Bucket(event.snapshots, Before) == created.vulnerabilities
    ensures Bucket(event.snapshots, After) == Bucket(old(event.snapshots), After)
    ensures message == BeforeGenerated
  {
    created := GenerateBeforeSnapshot(event, snapshotId, DefaultVulnerabilityCount);
    ReplaceTagLeavesOne(old(event.snapshots), created, Before, After);
    message := BeforeGenerated;
  }

  // generate_after

  const AfterNeedsBefore: string := "Generate BEFORE snapshot first for this event."
  const AfterGenerated: string := "Synthetic AFTER snapshot generated with vulnerabilities."

  /** `any(snapshot.snapshot_type == BEFORE for snapshot in patch_event.snapshots)`. */
  predicate HasBeforeSnapshot(snapshots: seq<ScanSnapshot>)
  {
    exists i :: 0 <= i < |snapshots| && snapshots[i].snapshotType == Before
  }

  /**
   * `generate_after`: refused, with nothing changed, when the event has no
   * BEFORE snapshot at all; otherwise the generator runs with the default
   * ratios, which never refuse, so a new AFTER snapshot always results (the
   * fallback set when the BEFORE snapshot is empty).
   */
  method GenerateAfter(event: PatchEvent, snapshotId: nat) returns (created: Option<ScanSnapshot>, message: string)
    modifies event`snapshots
    ensures created.None? <==> !HasBeforeSnapshot(old(event.snapshots))
    ensures created.None? ==> event.snapshots == old(event.snapshots) && message == AfterNeedsBefore
    ensures created.Some? ==>
              && GeneratedAfter(created.value, RemoveTag(old(event.snapshots), After), snapshotId, event.id,
                                event.environment, DefaultMinRemainingRatio, DefaultMaxRemainingRatio)
              && event.snapshots == RemoveTag(old(event.snapshots), After) + [created.value]
              && message == AfterGenerated
  {
    if !HasBeforeSnapshot(event.snapshots) {
      return None, AfterNeedsBefore;
    }
    DefaultRatiosNeverRefuse(RemoveTag(event.snapshots, After));
    var result := GenerateAfterSnapshot(event, snapshotId, DefaultMinRemainingRatio, DefaultMaxRemainingRatio);
    return Some(result.value), AfterGenerated;
  }

  // transition_state

  /** The message a transition request ends with. */
  function TransitionMessage(targetCode: string, outcome: Outcome<TransitionError>): string
  {
    match outcome
    case Pass => "State updated to " + targetCode + "."
    case Fail(error) => error.Message()
  }

  /**
   * `transition_state`: the code becomes the target when the transition passes;
   * a refused one is rolled back and the code stays as it was.
   */
  method TransitionState(event: PatchEvent, targetCode: string) returns (message: string)
    modifies event`currentStateCode
    ensures var outcome := TransitionCheck(old(event.currentStateCode), targetCode, event.devEvidenceAvailable);
            && event.currentStateCode == (if outcome.Pass? then targetCode else old(event.currentStateCode))
            && message == TransitionMessage(targetCode, outcome)
  {
    var outcome := TransitionPatchEvent(event, targetCode);
    message := TransitionMessage(targetCode, outcome);
  }

  // get_patch_event_detail

  /** The evidence and lifecycle parts of the detail page. */
  datatype DetailView = DetailView(
    beforeCount: nat,
    afterCount: nat,
    fixed: seq<Vulnerability>,
    severityCounts: map<Severity, nat>,
    allowedNextStates: seq<StateCode>,
    prodCrAllowed: bool)

  /**
   * The evidence shown on the detail page: the fixed list and its counts when
   * the flag is set and both buckets are non-empty, nothing otherwise.
   */
  method PatchEventDetail(event: PatchEvent) returns (view: DetailView)
    ensures view.beforeCount == |Bucket(event.snapshots, Before)|
    ensures view.afterCount == |Bucket(event.snapshots, After)|
    ensures event.devEvidenceAvailable && HasBothBuckets(event.snapshots) ==>
              view.fixed == EventFixed(event.snapshots) && view.severityCounts == CountBySeverity(view.fixed)
    ensures view.severityCounts != map[] <==> event.devEvidenceAvailable && HasBothBuckets(event.snapshots)
    ensures view.fixed != [] ==> event.devEvidenceAvailable && HasBothBuckets(event.snapshots)
    ensures view.allowedNextStates
              == AllowedTransitions(GetStateForEvent(event.currentStateCode), event.devEvidenceAvailable)
    ensures view.prodCrAllowed <==> ProdCrAllowed(event.currentStateCode)
  {
    var split := ExtractBeforeAfterVulnerabilities(event.snapshots);
    var beforeVulns, afterVulns := split[Before], split[After];
    var fixed: seq<Vulnerability> := [];
    var counts: map<Severity, nat> := map[];
    if event.devEvidenceAvailable && beforeVulns != [] && afterVulns != [] {
      fixed := ComputeFixedVulnerabilities(beforeVulns, afterVulns);
      counts := CountBySeverity(fixed);
      assert Critical in counts;
    }
    var state := GetStateForEvent(event.currentStateCode);
    view := DetailView(|beforeVulns|, |afterVulns|, fixed, counts,
                       AllowedTransitions(state, event.devEvidenceAvailable),
                       event.currentStateCode in ProdCrStates);
  }

  // Dashboard tallies

  /** `sum(1 for e in patch_events if e.environment == env)`. */
  function CountInEnvironment(events: seq<PatchEvent>, env: Environment): (n: nat)
    ensures n <= |events|
  {
    if events == [] then 0
    else CountInEnvironment(events[..|events| - 1], env) + (if events[|events| - 1].environment == env then 1 else 0)
  }

  /** Every event lies in exactly one environment, so the three tallies add up to the total. */
  lemma {:induction false} EnvironmentTalliesSum(events: seq<PatchEvent>)
    ensures CountInEnvironment(events, Dev) + CountInEnvironment(events, Stage) + CountInEnvironment(events, Prod)
            == |events|
  {
    if events != [] {
      EnvironmentTalliesSum(events[..|events| - 1]);
    }
  }

  // End to end

  /**
   * After a BEFORE snapshot has been generated and an AFTER snapshot sampled
   * from it, the fixed count the change-request texts report is the BEFORE
   * size minus the AFTER size.
   */
  lemma SampledEvidenceReportsDifference(snapshots: seq<ScanSnapshot>, before: ScanSnapshot, after: ScanSnapshot,
                                         env: Environment, lo: nat, hi: nat)
    requires before.snapshotType == Before && after.snapshotType == After
    requires FreshSet(before.vulnerabilities, before.id, env)
    requires SampledFrom(after.vulnerabilities, before.vulnerabilities, after.id, lo, hi)
    requires snapshots == [before, after]
    ensures |EventFixed(snapshots)| == |before.vulnerabilities| - |after.vulnerabilities|
  {
    BucketOfOnly(snapshots, 0, Before);
    BucketOfOnly(snapshots, 1, After);
    GeneratedIdsDistinct(before.vulnerabilities, before.id, env);
    SampledCopiesKeepIds(after.vulnerabilities, before.vulnerabilities, after.id, lo, hi);
  }
}
