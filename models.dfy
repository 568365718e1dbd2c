/**
 * The data model of the patch-promotion engine: the three enumerations, the
 * vulnerability and snapshot records, and the patch event whose fields the
 * engine updates in place.
 *
 * Ownership is structural: a patch event holds its snapshots as values in a
 * sequence, and a snapshot holds its vulnerabilities as values, so taking a
 * snapshot out of the sequence takes its vulnerabilities with it.
 */
module Models {
  import opened Wrappers

  datatype Environment = Dev | Stage | Prod {
    /** The persisted enumeration value. */
    function Value(): string
    {
      match this
      case Dev => "DEV"
      case Stage => "STAGE"
      case Prod => "PROD"
    }

    /** `environment.value.lower()`. */
    function LowerValue(): string
    {
      match this
      case Dev => "dev"
      case Stage => "stage"
      case Prod => "prod"
    }
  }

  datatype SnapshotType = Before | After {
    function Value(): string
    {
      match this
      case Before => "BEFORE"
      case After => "AFTER"
    }
  }

  datatype Severity = Critical | High | Medium | Low {
    function Value(): string
    {
      match this
      case Critical => "CRITICAL"
      case High => "HIGH"
      case Medium => "MEDIUM"
      case Low => "LOW"
    }

    /** `severity.value.title()`. */
    function Title(): string
    {
      match this
      case Critical => "Critical"
      case High => "High"
      case Medium => "Medium"
      case Low => "Low"
    }
  }

  /** The members of `Severity` in declaration order, the order Python iterates the enumeration in. */
  const AllSeverities: seq<Severity> := [Critical, High, Medium, Low]

  /** Severity has exactly the four members, with four distinct persisted values. */
  lemma SeverityIsExact(s: Severity, t: Severity)
    ensures s in AllSeverities
    ensures s.Value() == t.Value() ==> s == t
  {
    if s.Value() == t.Value() {
      assert s.Value()[0] == t.Value()[0];
    }
  }

  /** Environment has exactly DEV, STAGE and PROD, with distinct persisted values. */
  lemma EnvironmentIsExact(e: Environment, f: Environment)
    ensures e.Value() in {"DEV", "STAGE", "PROD"}
    ensures e.Value() == f.Value() ==> e == f
  {
    if e.Value() == f.Value() {
      assert e.Value()[0] == f.Value()[0];
    }
  }

  /** SnapshotType has exactly BEFORE and AFTER. */
  lemma SnapshotTypeIsExact(t: SnapshotType)
    ensures t.Value() in {"BEFORE", "AFTER"}
    ensures Before.Value() != After.Value()
  {
  }

  /**
   * One synthetic finding.  `syntheticId`, `severity` and `host` are never null;
   * the CVE, plugin id and description may be.
   */
  datatype Vulnerability = Vulnerability(
    scanSnapshotId: nat,
    syntheticId: string,
    cve: Option<string>,
    pluginId: Option<string>,
    severity: Severity,
    host: string,
    description: Option<string>)

  /** A point-in-time capture for one patch event; it owns its vulnerabilities. */
  datatype ScanSnapshot = ScanSnapshot(
    id: nat,
    patchEventId: nat,
    snapshotType: SnapshotType,
    vulnerabilities: seq<Vulnerability>)

  /** The stored code a new patch event starts in. */
  const InitialStateCode: string := "DEV_EVIDENCE_CAPTURED"

  /**
   * One patch under promotion.  The attributes given at creation are constants;
   * the evidence flag, the two change-request texts, the state code and the
   * owned snapshots are the fields the engine changes.
   */
  class PatchEvent {
    const id: nat
    const serviceName: string
    const environment: Environment
    const amiId: string
    /** `str(patch_date)`, the ISO text of the date. */
    const patchDate: string
    const notes: Option<string>

    var devEvidenceAvailable: bool
    var stageCrSummary: Option<string>
    var prodCrSummary: Option<string>
    var currentStateCode: string
    var snapshots: seq<ScanSnapshot>

    /** A new event: no evidence, no change-request texts, no snapshots, in the initial state. */
    constructor (id: nat, serviceName: string, environment: Environment, amiId: string,
                 patchDate: string, notes: Option<string>)
      ensures this.id == id && this.serviceName == serviceName && this.environment == environment
      ensures this.amiId == amiId && this.patchDate == patchDate && this.notes == notes
      ensures !devEvidenceAvailable
      ensures stageCrSummary == None && prodCrSummary == None
      ensures currentStateCode == InitialStateCode
      ensures snapshots == []
    {
      this.id := id;
      this.serviceName := serviceName;
      this.environment := environment;
      this.amiId := amiId;
      this.patchDate := patchDate;
      this.notes := notes;
      devEvidenceAvailable := false;
      stageCrSummary := None;
      prodCrSummary := None;
      currentStateCode := InitialStateCode;
      snapshots := [];
    }
  }
}
