/**
 * Synthetic scan data: the identifier formats, the random draws behind them,
 * and the generation of a patch event's BEFORE and AFTER snapshots.
 *
 * Every random draw is a choice the model leaves open, constrained only by the
 * range the generator draws from; what the contracts promise holds for every
 * possible draw.  A new snapshot's database key, assigned when the session is
 * flushed, is a parameter.
 */
module SyntheticData {
  import opened Wrappers
  import opened Text
  import opened Models
  import opened Diff

  /** The weighted pool `_choose_severity` draws from: 1 critical, 2 high, 2 medium, 3 low. */
  const SeverityChoices: seq<Severity> := [Critical, High, High, Medium, Medium, Low, Low, Low]

  const SyntheticDescription: string := "Synthetic vulnerability used for demonstration only."

  /** The default size of a BEFORE snapshot. */
  const DefaultVulnerabilityCount: nat := 20

  /** The size of an AFTER snapshot generated without BEFORE data. */
  const FallbackCount: nat := 10

  // Identifier formats.

  /** `f"CVE-{year}-{ident:05d}"`. */
  function CveText(year: nat, ident: nat): string
  {
    "CVE-" + NatToString(year) + "-" + ZeroPad(ident, 5)
  }

  /** `f"PLUG-{n}"`. */
  function PluginIdText(n: nat): string
  {
    "PLUG-" + NatToString(n)
  }

  /** `f"{env_prefix}-synthetic-{index:02d}"`. */
  function HostText(env: Environment, index: nat): string
  {
    env.LowerValue() + "-synthetic-" + ZeroPad(index, 2)
  }

  /** `f"VULN-{snapshot.id:04d}-{index:04d}"`. */
  function SyntheticId(snapshotId: nat, index: nat): string
  {
    "VULN-" + ZeroPad(snapshotId, 4) + "-" + ZeroPad(index, 4)
  }

  ghost predicate IsSyntheticCve(cve: string)
  {
    exists year: nat, ident: nat :: 2090 <= year <= 2099 && 1000 <= ident <= 99999 && cve == CveText(year, ident)
  }

  ghost predicate IsSyntheticPluginId(pluginId: string)
  {
    exists n: nat :: 10000 <= n <= 99999 && pluginId == PluginIdText(n)
  }

  ghost predicate IsSyntheticHost(host: string, env: Environment)
  {
    exists index: nat :: 1 <= index <= 9 && host == HostText(env, index)
  }

  lemma Pow10Values()
    ensures Pow10(2) == 100 && Pow10(3) == 1000 && Pow10(4) == 10000 && Pow10(5) == 100000
  {
    assert Pow10(1) == 10;
  }

  /**
   * A synthetic CVE is always 14 characters: a four-digit year and a five-digit
   * identifier, each of which reads back as the number drawn.
   */
  lemma CveShape(year: nat, ident: nat)
    requires 2090 <= year <= 2099 && 1000 <= ident <= 99999
    ensures var c := CveText(year, ident);
            && |c| == 14 && c[..4] == "CVE-" && c[8] == '-'
            && AllDigits(c[4..8]) && ParseDigits(c[4..8]) == year
            && AllDigits(c[9..]) && ParseDigits(c[9..]) == ident
  {
    Pow10Values();
    NatToStringAtMost(year, 4);
    NatToStringMoreThan(year, 3);
    NatToStringAtMost(ident, 5);
    var c := CveText(year, ident);
    assert c[4..8] == NatToString(year);
    assert c[9..] == ZeroPad(ident, 5);
    ParseNatToString(year);
    ParseZeroPad(ident, 5);
  }

  /** A synthetic plugin id is "PLUG-" and the five digits drawn. */
  lemma PluginIdShape(n: nat)
    requires 10000 <= n <= 99999
    ensures var p := PluginIdText(n);
            |p| == 10 && p[..5] == "PLUG-" && AllDigits(p[5..]) && ParseDigits(p[5..]) == n
  {
    Pow10Values();
    NatToStringAtMost(n, 5);
    NatToStringMoreThan(n, 4);
    assert PluginIdText(n)[5..] == NatToString(n);
    ParseNatToString(n);
  }

  /** A synthetic host is the lower-case environment name, "-synthetic-0" and one digit. */
  lemma HostShape(env: Environment, index: nat)
    requires 1 <= index <= 9
    ensures HostText(env, index) == env.LowerValue() + "-synthetic-0" + [DigitChar(index)]
  {
    assert NatToString(index) == [DigitChar(index)];
  }

  /** The synthetic id determines the snapshot key and the index it was built from. */
  lemma SyntheticIdInjective(a: nat, i: nat, b: nat, j: nat)
    requires SyntheticId(a, i) == SyntheticId(b, j)
    ensures a == b && i == j
  {
    var s := SyntheticId(a, i);
    assert s[5..] == ZeroPad(a, 4) + "-" + ZeroPad(i, 4);
    assert SyntheticId(b, j)[5..] == ZeroPad(b, 4) + "-" + ZeroPad(j, 4);
    DashSplit(ZeroPad(a, 4), ZeroPad(i, 4), ZeroPad(b, 4), ZeroPad(j, 4));
    ZeroPadInjective(a, b, 4);
    ZeroPadInjective(i, j, 4);
  }

  // Random draws.

  /** `_generate_synthetic_cve`. */
  method GenerateSyntheticCve() returns (cve: string)
    ensures IsSyntheticCve(cve)
    ensures |cve| == 14 && cve[..4] == "CVE-"
  {
    var year: nat :| 2090 <= year <= 2099;
    var ident: nat :| 1000 <= ident <= 99999;
    cve := CveText(year, ident);
    CveShape(year, ident);
  }

  /** `_generate_synthetic_plugin_id`. */
  method GenerateSyntheticPluginId() returns (pluginId: string)
    ensures IsSyntheticPluginId(pluginId)
    ensures |pluginId| == 10 && pluginId[..5] == "PLUG-"
  {
    var n: nat :| 10000 <= n <= 99999;
    pluginId := PluginIdText(n);
    PluginIdShape(n);
  }

  /** `_generate_synthetic_host`. */
  method GenerateSyntheticHost(env: Environment) returns (host: string)
    ensures IsSyntheticHost(host, env)
    ensures host[..|env.LowerValue()|] == env.LowerValue()
  {
    var index: nat :| 1 <= index <= 9;
    host := HostText(env, index);
  }

  /** `_choose_severity`: one draw from the weighted pool. */
  method ChooseSeverity() returns (severity: Severity)
    ensures severity in SeverityChoices
  {
    var k: nat :| k < |SeverityChoices|;
    severity := SeverityChoices[k];
  }

  /** What `_build_vulnerability` produces for position `index` of snapshot `snapshotId`. */
  ghost predicate FreshVulnerability(v: Vulnerability, snapshotId: nat, env: Environment, index: nat)
  {
    && v.scanSnapshotId == snapshotId
    && v.syntheticId == SyntheticId(snapshotId, index)
    && v.cve.Some? && IsSyntheticCve(v.cve.value)
    && v.pluginId.Some? && IsSyntheticPluginId(v.pluginId.value)
    && IsSyntheticHost(v.host, env)
    && v.description == Some(SyntheticDescription)
  }

  /** `_build_vulnerability`: `env` is the environment of the snapshot's patch event. */
  method BuildVulnerability(snapshotId: nat, env: Environment, index: nat) returns (v: Vulnerability)
    ensures FreshVulnerability(v, snapshotId, env, index)
  {
    var severity := ChooseSeverity();
    var cve := GenerateSyntheticCve();
    var pluginId := GenerateSyntheticPluginId();
    var host := GenerateSyntheticHost(env);
    v := Vulnerability(snapshotId, SyntheticId(snapshotId, index), Some(cve), Some(pluginId), severity, host,
                       Some(SyntheticDescription));
  }

  /** Generated content: position i (from 0) holds what `_build_vulnerability` makes for index i + 1. */
  ghost predicate FreshSet(vulns: seq<Vulnerability>, snapshotId: nat, env: Environment)
  {
    forall i :: 0 <= i < |vulns| ==> FreshVulnerability(vulns[i], snapshotId, env, i + 1)
  }

  /** The loop `for index in range(1, count + 1)`: an empty range when `count` is not positive. */
  method BuildVulnerabilities(snapshotId: nat, env: Environment, count: int) returns (vulns: seq<Vulnerability>)
    ensures |vulns| == if count > 0 then count else 0
    ensures FreshSet(vulns, snapshotId, env)
  {
    var n := if count > 0 then count else 0;
    vulns := [];
    for index := 1 to n + 1
      invariant |vulns| == index - 1
      invariant FreshSet(vulns, snapshotId, env)
    {
      var v := BuildVulnerability(snapshotId, env, index);
      FreshSetAppend(vulns, v, snapshotId, env);
      vulns := vulns + [v];
    }
  }

  lemma FreshSetAppend(vulns: seq<Vulnerability>, v: Vulnerability, snapshotId: nat, env: Environment)
    requires FreshSet(vulns, snapshotId, env) && FreshVulnerability(v, snapshotId, env, |vulns| + 1)
    ensures FreshSet(vulns + [v], snapshotId, env)
  {
    var all := vulns + [v];
    forall i | 0 <= i < |all| ensures FreshVulnerability(all[i], snapshotId, env, i + 1) {
      if i < |vulns| {
        assert all[i] == vulns[i];
      }
    }
  }

  /** Position i (from 0) carries the id built for index i + 1. */
  predicate NumberedIds(vulns: seq<Vulnerability>, snapshotId: nat)
  {
    forall i :: 0 <= i < |vulns| ==> vulns[i].syntheticId == SyntheticId(snapshotId, i + 1)
  }

  lemma FreshSetIsNumbered(vulns: seq<Vulnerability>, snapshotId: nat, env: Environment)
    requires FreshSet(vulns, snapshotId, env)
    ensures NumberedIds(vulns, snapshotId)
  {
    forall i | 0 <= i < |vulns| ensures vulns[i].syntheticId == SyntheticId(snapshotId, i + 1) {
      assert FreshVulnerability(vulns[i], snapshotId, env, i + 1);
    }
  }

  /** Generated ids are pairwise distinct. */
  lemma GeneratedIdsDistinct(vulns: seq<Vulnerability>, snapshotId: nat, env: Environment)
    requires FreshSet(vulns, snapshotId, env)
    ensures DistinctIds(vulns)
  {
    FreshSetIsNumbered(vulns, snapshotId, env);
    forall i, j | 0 <= i < j < |vulns| ensures vulns[i].syntheticId != vulns[j].syntheticId {
      if vulns[i].syntheticId == vulns[j].syntheticId {
        SyntheticIdInjective(snapshotId, i + 1, snapshotId, j + 1);
      }
    }
  }

  /** Sets generated for two different snapshots share no id. */
  lemma GeneratedSetsDisjoint(xs: seq<Vulnerability>, a: nat, ys: seq<Vulnerability>, b: nat, env: Environment, env': Environment)
    requires FreshSet(xs, a, env) && FreshSet(ys, b, env') && a != b
    ensures IdSet(xs) !! IdSet(ys)
  {
    FreshSetIsNumbered(xs, a, env);
    FreshSetIsNumbered(ys, b, env');
    NumberedIdsDisjoint(xs, a, ys, b);
  }

  lemma NumberedIdsDisjoint(xs: seq<Vulnerability>, a: nat, ys: seq<Vulnerability>, b: nat)
    requires NumberedIds(xs, a) && NumberedIds(ys, b) && a != b
    ensures IdSet(xs) !! IdSet(ys)
  {
    forall id | id in IdSet(xs) ensures id !in IdSet(ys) {
      var i :| 0 <= i < |xs| && xs[i].syntheticId == id;
      if id in IdSet(ys) {
        var j :| 0 <= j < |ys| && ys[j].syntheticId == id;
        SyntheticIdInjective(a, i + 1, b, j + 1);
      }
    }
  }

  // Snapshot bookkeeping.

  /** The snapshots that remain once those of type `t` are deleted, in their order. */
  function RemoveTag(snapshots: seq<ScanSnapshot>, t: SnapshotType): (r: seq<ScanSnapshot>)
    ensures forall s :: s in r <==> s in snapshots && s.snapshotType != t
    ensures |r| <= |snapshots|
  {
    if snapshots == [] then []
    else
      var last := snapshots[|snapshots| - 1];
      assert snapshots == snapshots[..|snapshots| - 1] + [last];
      RemoveTag(snapshots[..|snapshots| - 1], t) + (if last.snapshotType == t then [] else [last])
  }

  /** `_delete_existing_snapshots`: every snapshot of the given type is deleted, the others are kept. */
  method DeleteExistingSnapshots(event: PatchEvent, t: SnapshotType)
    modifies event`snapshots
    ensures event.snapshots == RemoveTag(old(event.snapshots), t)
  {
    var existing := event.snapshots;
    var kept: seq<ScanSnapshot> := [];
    for i := 0 to |existing|
      invariant kept == RemoveTag(existing[..i], t)
    {
      assert existing[..i + 1][..i] == existing[..i];
      if existing[i].snapshotType != t {
        kept := kept + [existing[i]];
      }
    }
    assert existing[..|existing|] == existing;
    event.snapshots := kept;
  }

  /** The `.first()` snapshot of the given type, taking the event's list order. */
  function FirstOfType(snapshots: seq<ScanSnapshot>, t: SnapshotType): (r: Option<ScanSnapshot>)
    ensures r.Some? ==> r.value in snapshots && r.value.snapshotType == t
    ensures r.Some? ==> exists k :: 0 <= k < |snapshots| && snapshots[k] == r.value
                                    && forall i :: 0 <= i < k ==> snapshots[i].snapshotType != t
    ensures r.None? <==> forall i :: 0 <= i < |snapshots| ==> snapshots[i].snapshotType != t
  {
    if snapshots == [] then None
    else if snapshots[0].snapshotType == t then Some(snapshots[0])
    else
      var r := FirstOfType(snapshots[1..], t);
      assert forall i :: 1 <= i < |snapshots| ==> snapshots[i] == snapshots[1..][i - 1];
      assert r.Some? ==> exists k :: 0 <= k < |snapshots| && snapshots[k] == r.value
                                     && forall i :: 0 <= i < k ==> snapshots[i].snapshotType != t by {
        if r.Some? {
          var j :| 0 <= j < |snapshots[1..]| && snapshots[1..][j] == r.value
                   && forall i :: 0 <= i < j ==> snapshots[1..][i].snapshotType != t;
          assert snapshots[j + 1] == r.value;
        }
      }
      r
  }

  /**
   * `generate_before_snapshot`: the event's BEFORE snapshots are replaced by one
   * new snapshot of `max(0, vulnerabilityCount)` freshly generated vulnerabilities.
   */
  method GenerateBeforeSnapshot(event: PatchEvent, snapshotId: nat, vulnerabilityCount: int) returns (snapshot: ScanSnapshot)
    modifies event`snapshots
    ensures snapshot.id == snapshotId && snapshot.patchEventId == event.id && snapshot.snapshotType == Before
    ensures |snapshot.vulnerabilities| == if vulnerabilityCount > 0 then vulnerabilityCount else 0
    ensures FreshSet(snapshot.vulnerabilities, snapshotId, event.environment)
    ensures event.snapshots == RemoveTag(old(event.snapshots), Before) + [snapshot]
  {
    DeleteExistingSnapshots(event, Before);
    var vulns := BuildVulnerabilities(snapshotId, event.environment, vulnerabilityCount);
    snapshot := ScanSnapshot(snapshotId, event.id, Before, vulns);
    event.snapshots := event.snapshots + [snapshot];
  }

  // Remaining-count bounds.

  type PositiveNat = n: nat | n > 0 witness 1

  /** A non-negative ratio `num / den`, standing for one of the float ratio parameters. */
  datatype Ratio = Ratio(num: nat, den: PositiveNat)

  const DefaultMinRemainingRatio: Ratio := Ratio(3, 10)
  const DefaultMaxRemainingRatio: Ratio := Ratio(7, 10)

  /** `int(total * ratio)`: truncation of a non-negative product is its floor. */
  function ScaledFloor(total: nat, r: Ratio): nat
  {
    total * r.num / r.den
  }

  /**
   * `min_remaining = max(1, int(total * min_ratio))` and
   * `max_remaining = max(min_remaining, int(total * max_ratio))`.
   */
  function RemainingBounds(total: nat, minRatio: Ratio, maxRatio: Ratio): (bounds: (nat, nat))
    ensures 1 <= bounds.0 <= bounds.1
    ensures ScaledFloor(total, minRatio) <= bounds.0 && ScaledFloor(total, maxRatio) <= bounds.1
    ensures bounds.0 == 1 || bounds.0 == ScaledFloor(total, minRatio)
    ensures bounds.1 == bounds.0 || bounds.1 == ScaledFloor(total, maxRatio)
    ensures total >= 1 && minRatio.num <= minRatio.den && maxRatio.num <= maxRatio.den ==> bounds.1 <= total
  {
    var lo := if ScaledFloor(total, minRatio) < 1 then 1 else ScaledFloor(total, minRatio);
    var hi := if ScaledFloor(total, maxRatio) < lo then lo else ScaledFloor(total, maxRatio);
    ScaledFloorAtMostTotal(total, minRatio);
    ScaledFloorAtMostTotal(total, maxRatio);
    (lo, hi)
  }

  lemma {:induction false} MulMonotone(a: nat, b: nat, c: nat)
    requires b <= c
    ensures a * b <= a * c
  {
    if a > 0 {
      MulMonotone(a - 1, b, c);
      assert a * b == (a - 1) * b + b;
      assert a * c == (a - 1) * c + c;
    }
  }

  /** A ratio of at most one never scales a total above itself. */
  lemma ScaledFloorAtMostTotal(total: nat, r: Ratio)
    ensures r.num <= r.den ==> ScaledFloor(total, r) <= total
  {
    if r.num > r.den { return; }
    var x := total * r.num;
    MulMonotone(total, r.num, r.den);
    var q := x / r.den;
    assert r.den * q + x % r.den == x;
  }

  /** With the default ratios a BEFORE snapshot of the default size 20 leaves between 6 and 14 vulnerabilities. */
  lemma DefaultBoundsOfTwenty()
    ensures RemainingBounds(DefaultVulnerabilityCount, DefaultMinRemainingRatio, DefaultMaxRemainingRatio) == (6, 14)
  {
  }

  /** With the default ratios the upper bound never exceeds a non-empty total. */
  lemma DefaultBoundsFit(total: nat)
    requires total >= 1
    ensures RemainingBounds(total, DefaultMinRemainingRatio, DefaultMaxRemainingRatio).1 <= total
  {
  }

  // Sampling.

  /** `k` distinct positions below `n`. */
  predicate DistinctIndices(picks: seq<nat>, n: nat)
  {
    && (forall i :: 0 <= i < |picks| ==> picks[i] < n)
    && (forall i, j :: 0 <= i < j < |picks| ==> picks[i] != picks[j])
  }

  /** `[0, 1, .., n - 1]`. */
  function Range(n: nat): (r: seq<nat>)
    ensures |r| == n && forall i :: 0 <= i < n ==> r[i] == i
  {
    if n == 0 then [] else Range(n - 1) + [n - 1]
  }

  /** `random.sample(range(n), k)`: `k` distinct positions, in drawing order. */
  method SampleIndices(n: nat, k: nat) returns (picks: seq<nat>)
    requires k <= n
    ensures |picks| == k && DistinctIndices(picks, n)
  {
    assert DistinctIndices(Range(n)[..k], n);
    picks :| |picks| == k && DistinctIndices(picks, n);
  }

  /** The copy the AFTER loop makes of a carried-over vulnerability: everything but the snapshot key. */
  function CopyVulnerability(v: Vulnerability, snapshotId: nat): Vulnerability
  {
    v.(scanSnapshotId := snapshotId)
  }

  /** The copies of the vulnerabilities at the given positions, in that order. */
  function CopiesAt(before: seq<Vulnerability>, picks: seq<nat>, snapshotId: nat): (r: seq<Vulnerability>)
    requires forall i :: 0 <= i < |picks| ==> picks[i] < |before|
    ensures |r| == |picks|
  {
    seq(|picks|, i requires 0 <= i < |picks| => CopyVulnerability(before[picks[i]], snapshotId))
  }

  /** The AFTER content: copies of between `lo` and `hi` distinct BEFORE vulnerabilities. */
  ghost predicate SampledFrom(after: seq<Vulnerability>, before: seq<Vulnerability>, snapshotId: nat, lo: nat, hi: nat)
  {
    exists picks: seq<nat> ::
      lo <= |picks| <= hi && DistinctIndices(picks, |before|) && after == CopiesAt(before, picks, snapshotId)
  }

  /** Why generating an AFTER snapshot can fail: `random.sample` refuses a sample larger than the population. */
  datatype GenerationError = SampleLargerThanPopulation

  /**
   * What a generated AFTER snapshot holds, given the snapshots kept once the
   * old AFTER snapshots are gone: 10 fresh vulnerabilities when there is no
   * BEFORE data, otherwise copies of a sample of the first BEFORE snapshot's
   * vulnerabilities whose size lies between the two remaining bounds.
   */
  ghost predicate GeneratedAfter(s: ScanSnapshot, kept: seq<ScanSnapshot>, snapshotId: nat, eventId: nat,
                                 env: Environment, minRatio: Ratio, maxRatio: Ratio)
  {
    && s.id == snapshotId && s.patchEventId == eventId && s.snapshotType == After
    && var before := FirstOfType(kept, Before);
       if before.None? || before.value.vulnerabilities == [] then
         |s.vulnerabilities| == FallbackCount && FreshSet(s.vulnerabilities, snapshotId, env)
       else
         var bounds := RemainingBounds(|before.value.vulnerabilities|, minRatio, maxRatio);
         SampledFrom(s.vulnerabilities, before.value.vulnerabilities, snapshotId, bounds.0, bounds.1)
  }

  /** The drawn size may exceed the BEFORE total: there is BEFORE data and the upper bound lies above it. */
  predicate MayRefuse(kept: seq<ScanSnapshot>, minRatio: Ratio, maxRatio: Ratio)
  {
    var before := FirstOfType(kept, Before);
    before.Some? && before.value.vulnerabilities != []
    && |before.value.vulnerabilities| < RemainingBounds(|before.value.vulnerabilities|, minRatio, maxRatio).1
  }

  /** Every drawable size exceeds the BEFORE total: even the lower bound lies above it. */
  predicate MustRefuse(kept: seq<ScanSnapshot>, minRatio: Ratio, maxRatio: Ratio)
  {
    var before := FirstOfType(kept, Before);
    before.Some? && before.value.vulnerabilities != []
    && |before.value.vulnerabilities| < RemainingBounds(|before.value.vulnerabilities|, minRatio, maxRatio).0
  }

  /**
   * `generate_after_snapshot`.  The AFTER snapshots are replaced by one new
   * snapshot as `GeneratedAfter` describes.  A drawn size above the BEFORE
   * total makes the sample fail; the exception then leaves the session
   * uncommitted, so no snapshot changes.
   */
  method GenerateAfterSnapshot(event: PatchEvent, snapshotId: nat, minRatio: Ratio, maxRatio: Ratio)
    returns (result: Result<ScanSnapshot, GenerationError>)
    modifies event`snapshots
    ensures var kept := RemoveTag(old(event.snapshots), After);
            && (result.Success? ==>
                  && GeneratedAfter(result.value, kept, snapshotId, event.id, event.environment, minRatio, maxRatio)
                  && event.snapshots == kept + [result.value])
            && (result.Failure? ==> MayRefuse(kept, minRatio, maxRatio) && event.snapshots == old(event.snapshots))
            && (MustRefuse(kept, minRatio, maxRatio) ==> result.Failure?)
  {
    var original := event.snapshots;
    DeleteExistingSnapshots(event, After);
    var beforeSnapshot := FirstOfType(event.snapshots, Before);
    if beforeSnapshot.None? || beforeSnapshot.value.vulnerabilities == [] {
      var vulns := BuildVulnerabilities(snapshotId, event.environment, FallbackCount);
      var snapshot := ScanSnapshot(snapshotId, event.id, After, vulns);
      event.snapshots := event.snapshots + [snapshot];
      return Success(snapshot);
    }
    var beforeVulns := beforeSnapshot.value.vulnerabilities;
    var total := |beforeVulns|;
    var bounds := RemainingBounds(total, minRatio, maxRatio);
    var remainingCount: nat :| bounds.0 <= remainingCount <= bounds.1;
    if remainingCount > total {
      event.snapshots := original;
      return Failure(SampleLargerThanPopulation);
    }
    var picks := SampleIndices(total, remainingCount);
    var remaining := CopiesAt(beforeVulns, picks, snapshotId);
    var snapshot := ScanSnapshot(snapshotId, event.id, After, remaining);
    event.snapshots := event.snapshots + [snapshot];
    return Success(snapshot);
  }

  /** With the default ratios an AFTER snapshot is never refused. */
  lemma DefaultRatiosNeverRefuse(kept: seq<ScanSnapshot>)
    ensures !MayRefuse(kept, DefaultMinRemainingRatio, DefaultMaxRemainingRatio)
  {
    var before := FirstOfType(kept, Before);
    if before.Some? && before.value.vulnerabilities != [] {
      DefaultBoundsFit(|before.value.vulnerabilities|);
    }
  }

  /** A sampled AFTER set has a size between the bounds and only ids found in BEFORE. */
  lemma SampledIdsWithin(after: seq<Vulnerability>, before: seq<Vulnerability>, snapshotId: nat, lo: nat, hi: nat)
    requires SampledFrom(after, before, snapshotId, lo, hi)
    ensures lo <= |after| <= hi && |after| <= |before|
    ensures IdSet(after) <= IdSet(before)
  {
    var picks: seq<nat> :| lo <= |picks| <= hi && DistinctIndices(picks, |before|) && after == CopiesAt(before, picks, snapshotId);
    forall id | id in IdSet(after) ensures id in IdSet(before) {
      var i :| 0 <= i < |after| && after[i].syntheticId == id;
      assert before[picks[i]].syntheticId == id;
    }
    DistinctIndicesBound(picks, |before|);
  }

  /** Distinct positions below n number at most n. */
  lemma DistinctIndicesBound(picks: seq<nat>, n: nat)
    requires DistinctIndices(picks, n)
    ensures |picks| <= n
  {
    var asSet := set i | 0 <= i < |picks| :: picks[i];
    assert asSet <= Below(n);
    DistinctSetSize(picks);
    CardinalityMonotone(asSet, Below(n));
  }

  /** The set of naturals below n. */
  function Below(n: nat): (s: set<nat>)
    ensures |s| == n
    ensures forall k: nat :: k in s <==> k < n
  {
    if n == 0 then {} else Below(n - 1) + {n - 1}
  }

  lemma {:induction false} DistinctSetSize(picks: seq<nat>)
    requires forall i, j :: 0 <= i < j < |picks| ==> picks[i] != picks[j]
    ensures |set i | 0 <= i < |picks| :: picks[i]| == |picks|
  {
    if picks != [] {
      var init := picks[..|picks| - 1];
      DistinctSetSize(init);
      assert (set i | 0 <= i < |picks| :: picks[i]) == (set i | 0 <= i < |init| :: init[i]) + {picks[|picks| - 1]};
    }
  }

  lemma CardinalityMonotone(a: set<nat>, b: set<nat>)
    requires a <= b
    ensures |a| <= |b|
  {
    assert b == a + (b - a);
  }

  /**
   * A sampled AFTER set keeps the BEFORE ids: its ids are distinct and among
   * those of BEFORE, so the diff reports exactly |BEFORE| - |AFTER| fixed.
   */
  lemma SampledCopiesKeepIds(after: seq<Vulnerability>, before: seq<Vulnerability>, snapshotId: nat, lo: nat, hi: nat)
    requires DistinctIds(before)
    requires SampledFrom(after, before, snapshotId, lo, hi)
    ensures DistinctIds(after) && IdSet(after) <= IdSet(before)
    ensures |ComputeFixedVulnerabilities(before, after)| == |before| - |after|
  {
    var picks: seq<nat> :| lo <= |picks| <= hi && DistinctIndices(picks, |before|) && after == CopiesAt(before, picks, snapshotId);
    forall i, j | 0 <= i < j < |after| ensures after[i].syntheticId != after[j].syntheticId {
      assert picks[i] != picks[j];
    }
    SampledIdsWithin(after, before, snapshotId, lo, hi);
    FixedCountOfSubset(before, after);
  }

  /**
   * From a BEFORE snapshot of the default 20 vulnerabilities the default ratios give an
   * AFTER snapshot of 6 to 14 vulnerabilities, all with BEFORE ids.
   */
  lemma AfterOfTwenty(s: ScanSnapshot, kept: seq<ScanSnapshot>, snapshotId: nat, eventId: nat, env: Environment)
    requires GeneratedAfter(s, kept, snapshotId, eventId, env, DefaultMinRemainingRatio, DefaultMaxRemainingRatio)
    requires FirstOfType(kept, Before).Some? && |FirstOfType(kept, Before).value.vulnerabilities| == DefaultVulnerabilityCount
    ensures 6 <= |s.vulnerabilities| <= 14
    ensures IdSet(s.vulnerabilities) <= IdSet(FirstOfType(kept, Before).value.vulnerabilities)
  {
    DefaultBoundsOfTwenty();
    SampledIdsWithin(s.vulnerabilities, FirstOfType(kept, Before).value.vulnerabilities, snapshotId, 6, 14);
  }

  /** A generated BEFORE snapshot is the only BEFORE data, and replacing BEFORE leaves the AFTER data alone. */
  lemma ReplaceTagLeavesOne(snapshots: seq<ScanSnapshot>, s: ScanSnapshot, t: SnapshotType, other: SnapshotType)
    requires s.snapshotType == t && other != t
    ensures Bucket(RemoveTag(snapshots, t) + [s], t) == s.vulnerabilities
    ensures FirstOfType(RemoveTag(snapshots, t) + [s], t) == Some(s)
    ensures Bucket(RemoveTag(snapshots, t) + [s], other) == Bucket(snapshots, other)
  {
    var kept := RemoveTag(snapshots, t);
    var all := kept + [s];
    forall i | 0 <= i < |kept| ensures kept[i].snapshotType != t {
      assert kept[i] in kept;
    }
    BucketOfOnly(all, |kept|, t);
    RemoveTagKeepsOtherBucket(snapshots, t, other);
    BucketOfAppended(kept, s, other);
  }

  lemma {:induction false} RemoveTagKeepsOtherBucket(snapshots: seq<ScanSnapshot>, t: SnapshotType, other: SnapshotType)
    requires other != t
    ensures Bucket(RemoveTag(snapshots, t), other) == Bucket(snapshots, other)
  {
    if snapshots != [] {
      var init := snapshots[..|snapshots| - 1];
      var last := snapshots[|snapshots| - 1];
      assert snapshots == init + [last];
      RemoveTagKeepsOtherBucket(init, t, other);
      if last.snapshotType == t {
        assert RemoveTag(snapshots, t) == RemoveTag(init, t) + [];
        assert RemoveTag(init, t) + [] == RemoveTag(init, t);
        BucketOfAppended(init, last, other);
      } else {
        BucketOfAppended(RemoveTag(init, t), last, other);
        BucketOfAppended(init, last, other);
      }
    }
  }
}
