/**
 * The evidence diff engine: which BEFORE records are absent from AFTER (matched
 * on `syntheticId` alone), a four-key severity histogram, and the split of an
 * event's snapshots into the BEFORE and AFTER buckets.
 */
module Diff {
  import opened Models

  /** `{v.synthetic_id for v in vs}`. */
  function IdSet(vs: seq<Vulnerability>): set<string>
  {
    set v | v in vs :: v.syntheticId
  }

  /** Identity keys never repeat within the sequence. */
  predicate DistinctIds(vs: seq<Vulnerability>)
  {
    forall i, j :: 0 <= i < j < |vs| ==> vs[i].syntheticId != vs[j].syntheticId
  }

  /** `xs` is `ys` with some elements left out, the rest in their original order. */
  predicate IsSubsequence<T(==)>(xs: seq<T>, ys: seq<T>)
    decreases |ys|
  {
    if xs == [] then true
    else if ys == [] then false
    else if xs[0] == ys[0] then IsSubsequence(xs[1..], ys[1..])
    else IsSubsequence(xs, ys[1..])
  }

  /** The records of `vs` whose identity key is not in `ids`, in their original order. */
  function WithoutIds(vs: seq<Vulnerability>, ids: set<string>): (r: seq<Vulnerability>)
    ensures |r| <= |vs|
    ensures forall v :: v in r <==> v in vs && v.syntheticId !in ids
    ensures multiset(r) <= multiset(vs)
    ensures forall v :: multiset(r)[v] == if v.syntheticId in ids then 0 else multiset(vs)[v]
    ensures IsSubsequence(r, vs)
  {
    if vs == [] then []
    else
      var rest := WithoutIds(vs[1..], ids);
      assert vs == [vs[0]] + vs[1..];
      if vs[0].syntheticId in ids then
        SubsequenceOfTail(rest, vs);
        rest
      else
        [vs[0]] + rest
  }

  /** A subsequence of the tail is a subsequence of the whole. */
  lemma {:induction false} SubsequenceOfTail<T>(xs: seq<T>, ys: seq<T>)
    requires ys != [] && IsSubsequence(xs, ys[1..])
    ensures IsSubsequence(xs, ys)
    decreases |ys|, 0
  {
    if xs != [] && xs[0] == ys[0] {
      SubsequenceDropFirst(xs, ys[1..]);
    }
  }

  lemma {:induction false} SubsequenceDropFirst<T>(xs: seq<T>, ys: seq<T>)
    requires xs != [] && IsSubsequence(xs, ys)
    ensures IsSubsequence(xs[1..], ys)
    decreases |ys|, 1
  {
    if xs[0] != ys[0] {
      SubsequenceDropFirst(xs, ys[1..]);
    }
    SubsequenceOfTail(xs[1..], ys);
  }

  /** The records of `vs` whose identity key is in `ids`; the complement of `WithoutIds`. */
  function WithIds(vs: seq<Vulnerability>, ids: set<string>): (r: seq<Vulnerability>)
    ensures forall v :: v in r <==> v in vs && v.syntheticId in ids
  {
    if vs == [] then []
    else if vs[0].syntheticId in ids then [vs[0]] + WithIds(vs[1..], ids)
    else WithIds(vs[1..], ids)
  }

  /**
   * `compute_fixed_vulnerabilities`: the BEFORE records whose identity key is
   * absent from AFTER, as a subsequence of BEFORE (original order kept).
   */
  function ComputeFixedVulnerabilities(before: seq<Vulnerability>, after: seq<Vulnerability>): (fixed: seq<Vulnerability>)
    ensures forall v :: v in fixed <==> v in before && v.syntheticId !in IdSet(after)
    ensures IsSubsequence(fixed, before) && |fixed| <= |before|
    ensures multiset(fixed) <= multiset(before)
    ensures forall v :: multiset(fixed)[v] == if v.syntheticId in IdSet(after) then 0 else multiset(before)[v]
  {
    WithoutIds(before, IdSet(after))
  }

  /** `Counter(...).get(severity, 0)`: how many records carry the severity. */
  function SeverityCount(vs: seq<Vulnerability>, s: Severity): (n: nat)
    ensures n <= |vs|
  {
    if vs == [] then 0 else (if vs[0].severity == s then 1 else 0) + SeverityCount(vs[1..], s)
  }

  /**
   * `count_by_severity`: a map with exactly the four severities as keys (zero
   * counts included) whose values add up to the number of records.
   */
  function CountBySeverity(vs: seq<Vulnerability>): (counts: map<Severity, nat>)
    ensures counts.Keys == {Critical, High, Medium, Low}
    ensures forall s :: s in counts ==> counts[s] == SeverityCount(vs, s)
    ensures counts[Critical] + counts[High] + counts[Medium] + counts[Low] == |vs|
  {
    SeverityCountsSum(vs);
    map[Critical := SeverityCount(vs, Critical), High := SeverityCount(vs, High),
        Medium := SeverityCount(vs, Medium), Low := SeverityCount(vs, Low)]
  }

  lemma {:induction false} SeverityCountsSum(vs: seq<Vulnerability>)
    ensures SeverityCount(vs, Critical) + SeverityCount(vs, High)
            + SeverityCount(vs, Medium) + SeverityCount(vs, Low) == |vs|
  {
    if vs != [] {
      SeverityCountsSum(vs[1..]);
    }
  }

  /**
   * The vulnerabilities of the snapshots tagged `t`, concatenated in snapshot
   * order; snapshots with the other tag contribute nothing.
   */
  function Bucket(snapshots: seq<ScanSnapshot>, t: SnapshotType): seq<Vulnerability>
  {
    if snapshots == [] then []
    else
      var last := snapshots[|snapshots| - 1];
      Bucket(snapshots[..|snapshots| - 1], t) + (if last.snapshotType == t then last.vulnerabilities else [])
  }

  /**
   * `extract_before_after_vulnerabilities`: a map with both tags as keys, each
   * holding the concatenated vulnerabilities of the snapshots with that tag.
   */
  method ExtractBeforeAfterVulnerabilities(snapshots: seq<ScanSnapshot>) returns (result: map<SnapshotType, seq<Vulnerability>>)
    ensures result.Keys == {Before, After}
    ensures result[Before] == Bucket(snapshots, Before)
    ensures result[After] == Bucket(snapshots, After)
  {
    result := map[Before := [], After := []];
    for i := 0 to |snapshots|
      invariant result.Keys == {Before, After}
      invariant result[Before] == Bucket(snapshots[..i], Before)
      invariant result[After] == Bucket(snapshots[..i], After)
    {
      var snapshot := snapshots[i];
      assert snapshots[..i + 1][..i] == snapshots[..i];
      if snapshot.snapshotType in result {
        result := result[snapshot.snapshotType := result[snapshot.snapshotType] + snapshot.vulnerabilities];
      }
    }
    assert snapshots[..|snapshots|] == snapshots;
  }

  // Properties of the diff.

  /** With nothing left in AFTER everything is fixed; with nothing in BEFORE nothing is. */
  lemma {:induction false} FixedOfEmptySide(before: seq<Vulnerability>, after: seq<Vulnerability>)
    ensures ComputeFixedVulnerabilities(before, []) == before
    ensures ComputeFixedVulnerabilities([], after) == []
  {
    assert IdSet([]) == {};
    WithoutNoIds(before);
  }

  lemma {:induction false} WithoutNoIds(vs: seq<Vulnerability>)
    ensures WithoutIds(vs, {}) == vs
  {
    if vs != [] {
      WithoutNoIds(vs[1..]);
      assert vs == [vs[0]] + vs[1..];
    }
  }

  /** The diff is not symmetric: here BEFORE and AFTER swapped give different results. */
  lemma FixedIsNotSymmetric(a: Vulnerability, b: Vulnerability)
    requires a.syntheticId != b.syntheticId
    ensures ComputeFixedVulnerabilities([a, b], [a]) == [b]
    ensures ComputeFixedVulnerabilities([a], [a, b]) == []
  {
    assert IdSet([a]) == {a.syntheticId};
    assert IdSet([a, b]) == {a.syntheticId, b.syntheticId};
    assert [a, b][1..] == [b];
  }

  /** Every BEFORE record lands in exactly one of the fixed and the kept lists. */
  lemma {:induction false} FixedAndKeptPartition(vs: seq<Vulnerability>, ids: set<string>)
    ensures |WithoutIds(vs, ids)| + |WithIds(vs, ids)| == |vs|
    ensures multiset(WithoutIds(vs, ids)) + multiset(WithIds(vs, ids)) == multiset(vs)
  {
    if vs != [] {
      FixedAndKeptPartition(vs[1..], ids);
      assert vs == [vs[0]] + vs[1..];
    }
  }

  lemma {:induction false} IdSetOfTail(vs: seq<Vulnerability>)
    requires vs != []
    ensures IdSet(vs) == {vs[0].syntheticId} + IdSet(vs[1..])
  {
    assert vs == [vs[0]] + vs[1..];
    assert forall v :: v in vs <==> v == vs[0] || v in vs[1..];
  }

  /** Distinct keys: as many keys as records. */
  lemma {:induction false} DistinctIdsCount(vs: seq<Vulnerability>)
    requires DistinctIds(vs)
    ensures |IdSet(vs)| == |vs|
  {
    if vs != [] {
      IdSetOfTail(vs);
      assert DistinctIds(vs[1..]);
      forall w | w in vs[1..] ensures w.syntheticId != vs[0].syntheticId {
        var k :| 0 <= k < |vs[1..]| && vs[1..][k] == w;
        assert vs[k + 1] == w;
      }
      DistinctIdsCount(vs[1..]);
    }
  }

  /** The kept records keep distinct keys, and carry exactly the keys of `vs` that are in `ids`. */
  lemma {:induction false} WithIdsKeys(vs: seq<Vulnerability>, ids: set<string>)
    requires DistinctIds(vs)
    ensures DistinctIds(WithIds(vs, ids))
    ensures IdSet(WithIds(vs, ids)) == IdSet(vs) * ids
  {
    if vs != [] {
      assert DistinctIds(vs[1..]);
      WithIdsKeys(vs[1..], ids);
      IdSetOfTail(vs);
      var rest := WithIds(vs[1..], ids);
      if vs[0].syntheticId in ids {
        var r := [vs[0]] + rest;
        assert r[1..] == rest;
        IdSetOfTail(r);
        forall i, j | 0 <= i < j < |r| ensures r[i].syntheticId != r[j].syntheticId {
          if i == 0 {
            assert r[j] in rest;
            assert r[j] in vs[1..];
            var k :| 0 <= k < |vs[1..]| && vs[1..][k] == r[j];
            assert vs[k + 1] == r[j];
          }
        }
      }
    }
  }

  /**
   * When AFTER holds distinct keys, all of them found in a BEFORE with distinct
   * keys, the fixed list is exactly as long as BEFORE minus AFTER.
   */
  lemma FixedCountOfSubset(before: seq<Vulnerability>, after: seq<Vulnerability>)
    requires DistinctIds(before) && DistinctIds(after)
    requires IdSet(after) <= IdSet(before)
    ensures |ComputeFixedVulnerabilities(before, after)| == |before| - |after|
  {
    var ids := IdSet(after);
    FixedAndKeptPartition(before, ids);
    WithIdsKeys(before, ids);
    DistinctIdsCount(WithIds(before, ids));
    DistinctIdsCount(after);
    assert IdSet(before) * ids == ids;
  }

  // Properties of the split.

  /** Appending a snapshot extends the bucket of its own tag only. */
  lemma {:induction false} BucketOfAppended(snapshots: seq<ScanSnapshot>, s: ScanSnapshot, t: SnapshotType)
    ensures Bucket(snapshots + [s], t) == Bucket(snapshots, t) + (if s.snapshotType == t then s.vulnerabilities else [])
  {
    assert (snapshots + [s])[..|snapshots|] == snapshots;
  }

  /** With exactly one snapshot of tag `t`, the bucket is that snapshot's vulnerabilities. */
  lemma {:induction false} BucketOfOnly(snapshots: seq<ScanSnapshot>, k: nat, t: SnapshotType)
    requires k < |snapshots| && snapshots[k].snapshotType == t
    requires forall i :: 0 <= i < |snapshots| && i != k ==> snapshots[i].snapshotType != t
    ensures Bucket(snapshots, t) == snapshots[k].vulnerabilities
  {
    var n := |snapshots|;
    var init := snapshots[..n - 1];
    if k == n - 1 {
      BucketEmptyWithoutTag(init, t);
    } else {
      BucketOfOnly(init, k, t);
    }
  }

  /** With no snapshot of tag `t`, the bucket is empty. */
  lemma {:induction false} BucketEmptyWithoutTag(snapshots: seq<ScanSnapshot>, t: SnapshotType)
    requires forall i :: 0 <= i < |snapshots| ==> snapshots[i].snapshotType != t
    ensures Bucket(snapshots, t) == []
  {
    if snapshots != [] {
      BucketEmptyWithoutTag(snapshots[..|snapshots| - 1], t);
    }
  }

  /**
   * Every vulnerability of the event lands in exactly one of the two buckets:
   * together they are the event's vulnerabilities, as a multiset.
   */
  lemma {:induction false} BucketsCoverAll(snapshots: seq<ScanSnapshot>)
    ensures multiset(Bucket(snapshots, Before)) + multiset(Bucket(snapshots, After)) == multiset(AllVulnerabilities(snapshots))
    ensures |Bucket(snapshots, Before)| + |Bucket(snapshots, After)| == |AllVulnerabilities(snapshots)|
  {
    if snapshots != [] {
      BucketsCoverAll(snapshots[..|snapshots| - 1]);
    }
  }

  /** The vulnerabilities of all the snapshots, in snapshot order. */
  function AllVulnerabilities(snapshots: seq<ScanSnapshot>): seq<Vulnerability>
  {
    if snapshots == [] then []
    else AllVulnerabilities(snapshots[..|snapshots| - 1]) + snapshots[|snapshots| - 1].vulnerabilities
  }
}
