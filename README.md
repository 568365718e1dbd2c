# Patch promotion engine, modelled in Dafny

This project models the core of a small web application that tracks a
synthetic AMI patch as it is promoted from DEV to STAGE to PROD. Each
promotion is gated on evidence that vulnerabilities were fixed. The model has
five parts:

- the **lifecycle state machine** (`state.dfy`): seven state codes in a fixed
  forward chain, each state's allowed transitions, the fallback of an unknown
  code to the initial state, and the one operation that writes a patch event's
  state code;
- the **evidence diff engine** (`diff.dfy`): the BEFORE-minus-AFTER difference
  keyed on the synthetic id, the four-key severity histogram, and the split of
  an event's snapshots into BEFORE and AFTER buckets;
- the **synthetic snapshot generator** (`synthetic_data.dfy`): the identifier
  formats, the random draws behind them, regeneration of the BEFORE snapshot,
  and derivation of the AFTER snapshot from a sample of BEFORE;
- the **change-request composer** (`cr_text.dfy`): the severity breakdown line
  and the twelve-line STAGE and PROD texts;
- the **operation guards** of the request handlers (`routes.dfy`): when the
  evidence flag is set, when each change-request text is written, when AFTER
  generation is refused, how a transition request ends, what the detail page
  shows, and the dashboard's environment tallies.

Supporting files:

- `models.dfy` holds the enumerations, the vulnerability and snapshot records,
  and the `PatchEvent` class whose fields the engine updates in place.
- `text.dfy` models the Python string operations the core uses, each beside
  the parser that undoes it: `str(n)`, `{n:0Wd}`, `join` and `split`.
- `wrappers.dfy` holds `Option`, `Outcome` and `Result`.

Modelling choices:

- **Ownership.** A patch event holds its snapshots as values in a `seq`, and
  a snapshot holds its vulnerabilities the same way. Deleting a snapshot
  therefore removes its vulnerabilities with it, which is the relationship
  cascade of `app/models.py:70-74` and `app/models.py:91-95`.
- **Randomness.** Every call to `random` is a nondeterministic choice
  (`:|`), restricted to the range the code draws from. Every contract holds for
  every possible draw.
- **Database keys.** A new snapshot's key, which the database assigns at
  flush, is a method parameter.
- **Ratios.** The float remaining-ratios are rationals `num/den`. `int()` of
  a non-negative product is then its floor.

Two behaviours of the code worth knowing:

- **Closing is not evidence-guarded.** Only the steps out of DEV_VERIFIED
  through PROD_CR_READY need DEV evidence. PROD_PATCHED → CLOSED is allowed
  without evidence (`app/state.py:101-103`); see
  `State.CloseOnlyFromProdPatched`.
- **AFTER generation can fail.** A remaining ratio above 1 can draw a
  remaining count larger than the BEFORE total, and `random.sample` then
  raises (`app/services/synthetic_data.py:160-162`).
  - The model returns `Failure(SampleLargerThanPopulation)`.
  - The snapshots are left as they were, because the exception escapes before
    the session commits and the pending deletion of the old AFTER snapshot is
    never made durable. `app/database.py`, which closes the session, is not
    part of this model.
  - With the default ratios, and so from the request handler, generation never
    fails: `SyntheticData.DefaultRatiosNeverRefuse`.

## Model

| member | source | states |
|---|---|---|
| Models.SeverityIsExact | app/models.py:23-27 | Severity has exactly CRITICAL, HIGH, MEDIUM, LOW, with distinct persisted values |
| Models.EnvironmentIsExact | app/models.py:12-15 | Environment has exactly DEV, STAGE, PROD, with distinct persisted values |
| Models.SnapshotTypeIsExact | app/models.py:18-20 | SnapshotType has exactly BEFORE and AFTER |
| Models.PatchEvent.constructor | app/models.py:53-60 | a new event has no evidence, no STAGE or PROD summary (both optional), state code DEV_EVIDENCE_CAPTURED, and no snapshots |
| State.StateCode.Position | app/state.py:8-14 | every state has a place in the seven-code chain, and the chain at that place is the state |
| State.ParseStateCode | app/state.py:120-128 | a code maps to a state only if it is exactly that state's constant |
| State.ParseCode | app/state.py:120-128 | every state's constant maps back to that state |
| State.AllowedTransitions | app/state.py:44-112 | each state allows its chain successor, except that a guarded state without evidence allows nothing |
| State.CanTransitionTo | app/state.py:29-30 | a target may be taken iff it is the constant of a state in the allowed set |
| State.GetStateForEvent | app/state.py:115-132 | the stored code's state, or DEV_EVIDENCE_CAPTURED when the code is empty or unknown |
| State.TransitionPatchEvent | app/state.py:135-156 | the outcome is the close rule first and then the allowed-set check; the code becomes the target exactly on success and is unchanged on refusal |
| State.AllowedFromInitial | app/state.py:48-50 | from DEV_EVIDENCE_CAPTURED the allowed set is exactly [DEV_VERIFIED], whatever the flag |
| State.GuardedStates | app/state.py:57-94 | DEV_VERIFIED, STAGE_CR_READY, STAGE_PATCHED and PROD_CR_READY allow nothing without evidence, and exactly their successor with it |
| State.CloseAndTerminal | app/state.py:101-112 | PROD_PATCHED allows exactly [CLOSED] whatever the flag; CLOSED allows nothing |
| State.AllowedIsChainStep | app/state.py:44-112 | every allowed set has at most one member, one chain position further on |
| State.NoEvidenceBlocksStageAndProd | app/state.py:57-94 | without evidence no state allows a target from STAGE_CR_READY to PROD_PATCHED |
| State.OnlyProdPatchedAllowsClose | app/state.py:97-112 | CLOSED is in a state's allowed set iff the state is PROD_PATCHED |
| State.TransitionPassesIffAllowed | app/state.py:143-147 | the close rule is redundant: a transition passes iff the looked-up state allows the target |
| State.TransitionIsChainStep | app/state.py:147-155 | a passing transition targets the chain successor of the looked-up state |
| State.PromotionNeedsEvidence | app/state.py:57-94 | a passing transition into STAGE_CR_READY up to PROD_PATCHED implies the evidence flag is set |
| State.CloseOnlyFromProdPatched | app/state.py:144-145 | closing passes iff the stored code is exactly PROD_PATCHED, whatever the flag |
| State.RefusalReportsFallbackCode | app/state.py:147-153 | a refusal from an unrecognised stored code names DEV_EVIDENCE_CAPTURED, not the stored string, as the current state |
| Diff.WithoutIds | app/services/diff.py:21-25 | the filter keeps exactly the records whose id is not excluded, in their order: each record occurs in the result exactly as often as in the input when its id is not excluded and never otherwise, and the result is a subsequence of the input |
| Diff.ComputeFixedVulnerabilities | app/services/diff.py:9-25 | fixed = the BEFORE records whose id is absent from AFTER, in BEFORE order, each as often as in BEFORE; a subsequence of BEFORE, no longer than it |
| Diff.FixedOfEmptySide | app/services/diff.py:20-25 | an empty AFTER gives all of BEFORE; an empty BEFORE gives nothing |
| Diff.FixedIsNotSymmetric | app/services/diff.py:20-25 | the difference is one-sided: swapping the arguments changes the result |
| Diff.FixedAndKeptPartition | app/services/diff.py:20-25 | the fixed and the remaining BEFORE records together are exactly BEFORE, as a multiset |
| Diff.FixedCountOfSubset | app/services/diff.py:20-25 | with distinct ids and AFTER ids among BEFORE ids, the fixed count is BEFORE size minus AFTER size |
| Diff.CountBySeverity | app/services/diff.py:28-37 | the histogram has exactly the four severity keys, each the number of records of that severity, summing to the input size |
| Diff.SeverityCountsSum | app/services/diff.py:36-37 | the four severity counts sum to the number of records |
| Diff.ExtractBeforeAfterVulnerabilities | app/services/diff.py:40-56 | the split always has both keys, each the in-order concatenation of the vulnerabilities of the snapshots with that tag |
| Diff.BucketOfAppended | app/services/diff.py:53-55 | a further snapshot extends only the bucket of its own tag |
| Diff.BucketOfOnly | app/services/diff.py:53-55 | with exactly one snapshot of a tag, that tag's bucket is that snapshot's vulnerabilities |
| Diff.BucketEmptyWithoutTag | app/services/diff.py:53-55 | with no snapshot of a tag, that tag's bucket is empty |
| Diff.BucketsCoverAll | app/services/diff.py:49-56 | every vulnerability of the event lands in exactly one bucket: the BEFORE and AFTER buckets together are all the snapshots' vulnerabilities as a multiset, so their sizes add up to the event's vulnerability count |
| SyntheticData.CveShape | app/services/synthetic_data.py:18-21 | a synthetic CVE is 14 characters, "CVE-", a four-digit year and a five-digit ident that read back as the numbers drawn |
| SyntheticData.PluginIdShape | app/services/synthetic_data.py:24-25 | a synthetic plugin id is "PLUG-" and five digits that read back as the number drawn |
| SyntheticData.HostShape | app/services/synthetic_data.py:28-31 | a synthetic host is the lower-case environment name, "-synthetic-0" and one digit |
| SyntheticData.SyntheticIdInjective | app/services/synthetic_data.py:56 | the synthetic id determines the snapshot key and the index it was built from |
| SyntheticData.GenerateSyntheticCve | app/services/synthetic_data.py:18-21 | the CVE is CVE-year-ident for some year in 2090..2099 and ident in 1000..99999 |
| SyntheticData.GenerateSyntheticPluginId | app/services/synthetic_data.py:24-25 | the plugin id is PLUG-n for some n in 10000..99999 |
| SyntheticData.GenerateSyntheticHost | app/services/synthetic_data.py:28-31 | the host is the environment prefix, "-synthetic-" and a two-digit index in 1..9 |
| SyntheticData.ChooseSeverity | app/services/synthetic_data.py:34-46 | the severity is an entry of the eight-entry pool (every Severity is, so this does not constrain the result) |
| SyntheticData.BuildVulnerability | app/services/synthetic_data.py:49-65 | the record carries the snapshot key, the VULN id for its index, a synthetic CVE, plugin id and host, and the fixed description |
| SyntheticData.BuildVulnerabilities | app/services/synthetic_data.py:104-106 | max(0, count) records, the one at position i built for index i + 1 |
| SyntheticData.GeneratedIdsDistinct | app/services/synthetic_data.py:56 | the ids of one generated set are pairwise distinct |
| SyntheticData.GeneratedSetsDisjoint | app/services/synthetic_data.py:56 | sets generated for two different snapshot keys share no id |
| SyntheticData.RemoveTag | app/services/synthetic_data.py:68-82 | the snapshots kept are exactly those of the other tag |
| SyntheticData.DeleteExistingSnapshots | app/services/synthetic_data.py:68-82 | the event's snapshots become those without the tag, in their order |
| SyntheticData.FirstOfType | app/services/synthetic_data.py:127-134 | the first snapshot of the tag in list order (no earlier snapshot has that tag), and none exactly when the event has no snapshot of that tag |
| SyntheticData.GenerateBeforeSnapshot | app/services/synthetic_data.py:85-110 | the old BEFORE snapshots are replaced by one new BEFORE snapshot of max(0, count) fresh records; the other snapshots stay |
| SyntheticData.ReplaceTagLeavesOne | app/services/synthetic_data.py:95-108 | after regeneration the tag's bucket is the new snapshot's set, it is the first of its tag, and the other tag's bucket is unchanged |
| SyntheticData.RemoveTagKeepsOtherBucket | app/services/synthetic_data.py:125 | deleting AFTER snapshots leaves the BEFORE data unchanged, and vice versa |
| SyntheticData.RemainingBounds | app/services/synthetic_data.py:155-160 | 1 <= min <= max, each at least the floor of its scaled ratio and equal to it or to its clamp; with ratios at most 1 and a non-empty total, max <= total |
| SyntheticData.ScaledFloorAtMostTotal | app/services/synthetic_data.py:158-159 | a ratio at most 1 never scales a total above itself |
| SyntheticData.DefaultBoundsOfTwenty | app/services/synthetic_data.py:155-160 | a total of 20 with ratios 3/10 and 7/10 gives the bounds (6, 14) |
| SyntheticData.DefaultBoundsFit | app/services/synthetic_data.py:116-117 | with the default ratios the upper bound never exceeds a non-empty total |
| SyntheticData.SampleIndices | app/services/synthetic_data.py:162 | the sample is k distinct positions of the population |
| SyntheticData.GenerateAfterSnapshot | app/services/synthetic_data.py:113-185 | old AFTER snapshots are replaced by one new AFTER snapshot: 10 fresh records without BEFORE data, else copies of a sample sized between the bounds; refused only when the upper bound exceeds the total, surely when the lower one does, leaving the snapshots unchanged |
| SyntheticData.DefaultRatiosNeverRefuse | app/services/synthetic_data.py:116-117 | with the default ratios generation is never refused |
| SyntheticData.SampledIdsWithin | app/services/synthetic_data.py:162-181 | a sampled AFTER set has a size between the bounds, no larger than BEFORE, and only BEFORE ids |
| SyntheticData.SampledCopiesKeepIds | app/services/synthetic_data.py:171-181 | copies keep the ids verbatim and distinct, so the diff reports exactly BEFORE size minus AFTER size as fixed |
| SyntheticData.AfterOfTwenty | app/services/synthetic_data.py:155-162 | from a 20-record BEFORE, default ratios give an AFTER of 6 to 14 records, all with BEFORE ids |
| CrText.SeverityParts | app/services/cr_text.py:8-16 | one "Title: count" part per severity, most severe first, with a missing key counted as 0 |
| CrText.FormatSeverityCounts | app/services/cr_text.py:6-17 | the loop produces the four parts joined with ", " |
| CrText.SeverityPartReadsBack | app/services/cr_text.py:14-16 | each part is "Title: " and a number that reads back as the count, or 0 when the key is missing |
| CrText.BreakdownSplitsIntoParts | app/services/cr_text.py:6-17 | split at commas, the breakdown gives back the four parts in severity order |
| CrText.BreakdownIsOneLine | app/services/cr_text.py:6-17 | the breakdown holds no line break |
| CrText.BuildStageCrText | app/services/cr_text.py:20-51 | the STAGE text is the twelve lines joined with newlines, with the count taken from the fixed list and the breakdown from the counts given |
| CrText.BuildProdCrText | app/services/cr_text.py:54-85 | the PROD text is the same twelve-line layout, with the state code in place of the patch date |
| CrText.StageCrTextReadsBack | app/services/cr_text.py:25-51 | when the service name, AMI id and patch date hold no line break, the STAGE text splits back into its twelve lines; the fixed count reads back from line 6; it ends with the disclaimer |
| CrText.ProdCrTextReadsBack | app/services/cr_text.py:59-85 | when the service name, AMI id and current state code hold no line break, the PROD text splits back into its twelve lines; the fixed count reads back from line 6; it ends with the disclaimer |
| CrText.StageAndProdDifferOnlyIn | app/services/cr_text.py:63-85 | STAGE and PROD texts differ only in lines 2, 4, 6 and 10, and do differ in lines 2, 6 and 10 |
| Routes.ComputeEvidence | app/web/routes.py:466-483 | the flag becomes set iff both buckets are non-empty, otherwise stays as it was, and is never cleared |
| Routes.GenerateStageCr | app/web/routes.py:305-335 | the STAGE summary stays unchanged without evidence or without both buckets, else becomes the STAGE text of the fixed list and its counts |
| Routes.ProdCrAllowedFromStagePatched | app/web/routes.py:226-232 | PROD text may be built iff the stored code is STAGE_PATCHED or a later state's constant |
| Routes.GenerateProdCr | app/web/routes.py:361-397 | the PROD summary stays unchanged unless the code is STAGE_PATCHED or later and both buckets are non-empty; the flag is not consulted |
| Routes.GenerateBefore | app/web/routes.py:260-288 | the generator runs with the default count: exactly one BEFORE snapshot of 20 fresh vulnerabilities results, the AFTER bucket is unchanged, and the message is the BEFORE success text |
| Routes.GenerateAfter | app/web/routes.py:421-439 | refused with no change iff there is no BEFORE snapshot at all; otherwise the AFTER snapshot is always regenerated, even from an empty BEFORE |
| Routes.TransitionState | app/web/routes.py:508-515 | the code becomes the target on a passing transition and stays unchanged on a refused one; the message is the success text or the refusal text |
| Routes.PatchEventDetail | app/web/routes.py:205-232 | the fixed list and counts are shown only with the flag and both buckets; the allowed next states and prod_cr_allowed are those of the stored code |
| Routes.CountInEnvironment | app/web/routes.py:72-81 | an environment's tally is at most the number of events |
| Routes.EnvironmentTalliesSum | app/web/routes.py:72-81 | the DEV, STAGE and PROD tallies add up to the total |
| Routes.SampledEvidenceReportsDifference | app/web/routes.py:322-331 | with a generated BEFORE and an AFTER sampled from it, the fixed count written into the change request is BEFORE size minus AFTER size |

## Left out

- HTTP routing, request and form parsing, `HTTPException`, URL building, `urlencode`, redirects and template rendering: I/O plumbing. Each handler returns its feedback message instead.
- Loading a patch event by id, and the not-found response: persistence, not engine logic.
- SQLAlchemy session mechanics (`query`, `filter`, `flush`, `commit`, `refresh`, `rollback`): persistence. The owned `seq` of snapshots stands for the store. `.first()` is taken as the first snapshot in list order.
- The dashboard's query filters, its sorting by patch date, the state-prefix phase tallies and the closed count: display only.
- The new-event and create-event handlers: form plumbing. A new event's defaults are the `PatchEvent` constructor.
- `app/main.py`: application set-up and seeding, with no engine logic.
- `app/database.py`, the `Service` table beyond the service name, column widths, and the `created_at`/`updated_at` timestamps (clock reads): not part of this model.
- The `on_enter` hook: it does nothing.
- SyntheticData.FirstOfType: `.first()` without `order_by` leaves the row order to the database, so the code promises only some BEFORE snapshot. The model picks the first in list order. After `generate_before` exactly one BEFORE snapshot exists, so the choice makes no difference there (`SyntheticData.ReplaceTagLeavesOne`).
- SyntheticData.ChooseSeverity: states only that the severity comes from the pool, not the 1:2:2:3 weighting, because a probability distribution is outside what the model states. All four severities occur in the pool, so that membership holds for every Severity and the contract says nothing about which one is returned.
- SyntheticData.SampleIndices: states that the sample is distinct positions of the right number, not that it is uniform or in a particular order, for the same reason.
- SyntheticData.RemainingBounds: ratios are non-negative rationals. Float rounding of the product before `int()` truncates it, and negative ratios, are not modelled.
- The "other tag" branch of `extract_before_after_vulnerabilities` does not arise: the tag enumeration has only BEFORE and AFTER.
- Concurrency between requests on the same event: the model treats each operation as one atomic step.
