/**
 * The alert record as returned by the `vulnerabilityAlerts` query of
 * app/index.js: one node of the page, with its nested advisory,
 * vulnerability and repository reference.
 */
module Alerts {
  import opened Wrappers

  /** The advisory severities of the remote schema. */
  datatype Severity = LOW | MODERATE | HIGH | CRITICAL

  /** Whether the vulnerable dependency is needed at runtime or only for development. */
  datatype DependencyScope = RUNTIME | DEVELOPMENT

  /** Lifecycle state of an alert. */
  datatype AlertState = OPEN | FIXED | DISMISSED | AUTO_DISMISSED

  datatype Advisory = Advisory(
    ghsaId: string,
    description: string,
    permalink: string,
    severity: Severity,
    summary: string)

  datatype PatchedVersion = PatchedVersion(identifier: string)

  datatype Vulnerability = Vulnerability(
    packageName: string,
    vulnerableVersionRange: string,
    firstPatchedVersion: Option<PatchedVersion>)   // null when no fix exists yet

  datatype RepositoryRef = RepositoryRef(name: string, ownerLogin: string)

  datatype Alert = Alert(
    id: string,
    number: nat,
    createdAt: string,
    state: AlertState,
    dismissedAt: Option<string>,
    dismissReason: Option<string>,
    dismissComment: Option<string>,
    fixedAt: Option<string>,
    dependencyScope: Option<DependencyScope>,
    repository: RepositoryRef,
    securityAdvisory: Advisory,
    securityVulnerability: Vulnerability,
    vulnerableManifestFilename: string,
    vulnerableManifestPath: string)

  /** The name the remote API (and so the CSV Severity column) uses for a severity. */
  function SeverityName(s: Severity): (r: string)
    ensures r in {"LOW", "MODERATE", "HIGH", "CRITICAL"}
  {
    match s
    case LOW => "LOW"
    case MODERATE => "MODERATE"
    case HIGH => "HIGH"
    case CRITICAL => "CRITICAL"
  }

  /** Reads a severity back from its name. */
  function ParseSeverity(name: string): (r: Option<Severity>)
    ensures r.Some? ==> SeverityName(r.value) == name
  {
    if name == "LOW" then Some(LOW)
    else if name == "MODERATE" then Some(MODERATE)
    else if name == "HIGH" then Some(HIGH)
    else if name == "CRITICAL" then Some(CRITICAL)
    else None
  }

  /** Severity names are distinct: the Severity column determines the severity. */
  lemma SeverityNameRoundTrip(s: Severity)
    ensures ParseSeverity(SeverityName(s)) == Some(s)
  {
    match s
    case LOW =>
    case MODERATE =>
      assert "MODERATE" != "LOW" by { assert "MODERATE"[0] != "LOW"[0]; }
    case HIGH =>
      assert "HIGH" != "LOW" && "HIGH" != "MODERATE" by { assert "HIGH"[0] != "LOW"[0] && "HIGH"[0] != "MODERATE"[0]; }
    case CRITICAL =>
      assert "CRITICAL" != "LOW" && "CRITICAL" != "MODERATE" && "CRITICAL" != "HIGH" by {
        assert "CRITICAL"[0] != "LOW"[0] && "CRITICAL"[0] != "MODERATE"[0] && "CRITICAL"[0] != "HIGH"[0];
      }
  }
}
